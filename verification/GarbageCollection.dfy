/**
 Trimming an Expire view. The collector deletes documents whose interval ended before the epoch,
 `now - afterSeconds`; a read is refused when the requested time lies before its own epoch. A read
 at an accepted time may still look further back, because it never looks past the metadata time. So
 trimming goes unnoticed if and only if it spares the rows valid at the metadata time, which it does
 between events, but not always in the middle of one.
 */
module GarbageCollection {
  import opened Wrappers
  import opened Results
  import opened ViewCollection
  import opened ReplayAbsorption
  import opened TimeTravel

  /** Deletes the documents with `validTo` before the epoch. */
  function Trim(docs: seq<Doc>, epoch: int): seq<Doc> {
    if docs == [] then []
    else
      var n := |docs| - 1;
      Trim(docs[..n], epoch) + if docs[n].to < epoch then [] else [docs[n]]
  }

  function Epoch(afterSeconds: nat, now: int): int { now - afterSeconds * 1000 }

  predicate Accepts(afterSeconds: nat, now: int, requested: int): (r: bool)
    ensures r <==> now - requested <= 1000 * afterSeconds
  {
    !(Epoch(afterSeconds, now) > requested)
  }

  lemma {:induction false} TrimCount(docs: seq<Doc>, epoch: int, d: Doc)
    ensures multiset(Trim(docs, epoch))[d] == if d.to < epoch then 0 else multiset(docs)[d]
    decreases |docs|
  {
    if docs != [] {
      var n := |docs| - 1;
      TrimCount(docs[..n], epoch, d);
      assert docs == docs[..n] + [docs[n]];
      assert multiset(docs)[d] == multiset(docs[..n])[d] + multiset([docs[n]])[d];
    }
  }

  lemma TrimMember(docs: seq<Doc>, epoch: int, d: Doc)
    ensures d in Trim(docs, epoch) <==> d in docs && d.to >= epoch
  {
    TrimCount(docs, epoch, d);
    assert d in Trim(docs, epoch) <==> multiset(Trim(docs, epoch))[d] > 0;
    assert d in docs <==> multiset(docs)[d] > 0;
  }

  lemma {:induction false} TrimKeepsOneOpen(docs: seq<Doc>, epoch: int)
    requires OneOpen(docs)
    ensures OneOpen(Trim(docs, epoch))
    decreases |docs|
  {
    if docs != [] {
      var n := |docs| - 1;
      var rest := Trim(docs[..n], epoch);
      TrimKeepsOneOpen(docs[..n], epoch);
      forall i | 0 <= i < |rest| && rest[i].Open() && docs[n].Open() ensures rest[i].key != docs[n].key {
        TrimMember(docs[..n], epoch, rest[i]);
        var j :| 0 <= j < n && docs[..n][j] == rest[i];
        assert docs[j] == rest[i];
      }
      OneOpenSnoc(rest, docs[n]);
    }
  }

  lemma OneOpenSnoc(docs: seq<Doc>, d: Doc)
    requires OneOpen(docs)
    requires forall i :: 0 <= i < |docs| && docs[i].Open() && d.Open() ==> docs[i].key != d.key
    ensures OneOpen(docs + [d]) && OneOpen(docs + [])
  {
  }

  /**
   One collection in one state: trimming is invisible to all reads accepted from now on exactly when
   no document valid at the metadata time ended before the epoch.
   */
  lemma TrimExact(docs: seq<Doc>, metadataTime: int, afterSeconds: nat, now: int)
    ensures var epoch := Epoch(afterSeconds, now);
            (forall readNow, requested | now <= readNow && Accepts(afterSeconds, readNow, requested) ::
               && (requested <= metadataTime ==>
                     multiset(Find(Trim(docs, epoch), requested)) == multiset(Find(docs, requested)))
               && (metadataTime < requested ==>
                     multiset(Find(Trim(docs, epoch), metadataTime)) == multiset(Find(docs, metadataTime))))
            <==> (forall d <- docs :: !(d.from <= metadataTime <= d.to && now - d.to > 1000 * afterSeconds))
  {
    var epoch := Epoch(afterSeconds, now);
    if forall d <- docs :: !(d.VisibleAt(metadataTime) && d.to < epoch) {
      forall readNow, requested | now <= readNow && Accepts(afterSeconds, readNow, requested)
        ensures var at := EffectiveAt(metadataTime, requested);
                multiset(Find(Trim(docs, epoch), at)) == multiset(Find(docs, at))
      {
        var at := EffectiveAt(metadataTime, requested);
        forall d: Doc ensures multiset(Find(Trim(docs, epoch), at))[d] == multiset(Find(docs, at))[d] {
          FindCount(Trim(docs, epoch), at, d);
          FindCount(docs, at, d);
          TrimCount(docs, epoch, d);
          assert d in docs <==> multiset(docs)[d] > 0;
        }
      }
    } else {
      var d :| d in docs && d.VisibleAt(metadataTime) && d.to < epoch;
      var requested := if epoch <= metadataTime then metadataTime else epoch;
      var at := EffectiveAt(metadataTime, requested);
      assert at == metadataTime;
      FindCount(Trim(docs, epoch), at, d);
      FindCount(docs, at, d);
      TrimCount(docs, epoch, d);
      assert multiset(docs)[d] > 0;
      assert Accepts(afterSeconds, now, requested);
      assert multiset(Find(Trim(docs, epoch), at)) != multiset(Find(docs, at));
      assert requested <= metadataTime ==> requested == at;
    }
  }

  // ---- Whole runs: a trimmed view beside one that is never trimmed ----

  datatype State = State(
    trimmed: seq<Doc>,        // the collection as it is
    full: seq<Doc>,           // the same view without collector
    metadataTime: int,
    current: Option<int>,     // timestamp of the event being recorded, also while it is interrupted
    now: int,
    horizon: int)             // nothing that a read can still show and that ended at or after this was deleted

  datatype Step =
    | BeginEvent(ts: int)
    | RowCall(op: RowOp)
    | StoreMetadata
    | SetState(ts: int)
    | Tick(now: int)
    | Collect

  predicate Init(s: State, afterSeconds: nat) {
    && s.trimmed == s.full == [] && s.current.None?
    && s.metadataTime <= MAX_TIMESTAMP && s.now <= MAX_TIMESTAMP
    && s.horizon <= s.metadataTime && s.horizon <= Epoch(afterSeconds, s.now)
  }

  predicate Enabled(s: State, step: Step) {
    match step
    case BeginEvent(ts) => s.current.None? && s.metadataTime <= ts <= MAX_TIMESTAMP
    case RowCall(_) => s.current.Some?
    case StoreMetadata => s.current.Some?
    case SetState(ts) => s.current.None? && s.metadataTime <= ts <= MAX_TIMESTAMP
    case Tick(now) => s.now <= now <= MAX_TIMESTAMP
    case Collect => true
  }

  function Max(a: int, b: int): int { if a < b then b else a }

  function Next(s: State, afterSeconds: nat, step: Step): State
    requires Enabled(s, step)
  {
    match step
    case BeginEvent(ts) => s.(current := Some(ts))
    case RowCall(op) =>
      s.(trimmed := ApplyOp(Expire(afterSeconds), s.trimmed, op, s.current.value),
         full := ApplyOp(Expire(afterSeconds), s.full, op, s.current.value))
    case StoreMetadata => s.(metadataTime := s.current.value, current := None)
    case SetState(ts) => s.(metadataTime := ts)
    case Tick(now) => s.(now := now)
    case Collect =>
      s.(trimmed := Trim(s.trimmed, Epoch(afterSeconds, s.now)),
         horizon := Max(s.horizon, Min(s.metadataTime, Epoch(afterSeconds, s.now))))
  }

  /** Each read accepted now or later gives what the untrimmed view gives. */
  ghost predicate Lossless(s: State, afterSeconds: nat) {
    forall readNow, requested | s.now <= readNow && Accepts(afterSeconds, readNow, requested) ::
      && (requested <= s.metadataTime ==> SameAt(s.trimmed, s.full, requested))
      && (s.metadataTime < requested ==> SameAt(s.trimmed, s.full, s.metadataTime))
  }

  ghost predicate SameAt(a: seq<Doc>, b: seq<Doc>, t: int) {
    multiset(Find(a, t)) == multiset(Find(b, t))
  }

  /** The collector, run now, deletes no row that is valid at the metadata time. */
  predicate Spares(s: State, afterSeconds: nat) {
    forall d <- s.trimmed :: !(d.from <= s.metadataTime <= d.to && s.now - d.to > 1000 * afterSeconds)
  }

  ghost predicate Agree(trimmed: seq<Doc>, full: seq<Doc>, horizon: int) {
    && OneOpen(trimmed) && OneOpen(full)
    && (forall k: RowKey :: OpenDoc(trimmed, k) == OpenDoc(full, k))
    && (forall d: Doc :: !d.Open() && d.NonEmpty() && d.to >= horizon ==> multiset(trimmed)[d] == multiset(full)[d])
  }

  /** Intervals start by the metadata time or in the event at hand, and ended before. */
  ghost predicate Placed(s: State) {
    forall d <- s.trimmed ::
      && (d.from <= s.metadataTime || s.current == Some(d.from))
      && (d.Open() || d.to < if s.current.Some? then s.current.value else s.metadataTime)
  }

  ghost predicate Inv(s: State, afterSeconds: nat) {
    && Agree(s.trimmed, s.full, s.horizon)
    && s.metadataTime <= MAX_TIMESTAMP && s.now <= MAX_TIMESTAMP
    && s.horizon <= s.metadataTime && s.horizon <= Epoch(afterSeconds, s.now)
    && (s.current.Some? ==> s.metadataTime <= s.current.value <= MAX_TIMESTAMP)
    && Placed(s)
  }

  lemma AgreeStep(p: RetentionPolicy, t: seq<Doc>, f: seq<Doc>, horizon: int, op: RowOp, ts: int)
    requires Agree(t, f, horizon) && ts <= MAX_TIMESTAMP
    ensures Agree(ApplyOp(p, t, op, ts), ApplyOp(p, f, op, ts), horizon)
  {
    var t', f' := ApplyOp(p, t, op, ts), ApplyOp(p, f, op, ts);
    OneOpenStep(p, t, op, ts);
    OneOpenStep(p, f, op, ts);
    forall k: RowKey ensures OpenDoc(t', k) == OpenDoc(f', k) {
      StepEffect(p, t, op, ts, Doc(k, [], 0, 0));
      StepEffect(p, f, op, ts, Doc(k, [], 0, 0));
      assert OpenDoc(t, k) == OpenDoc(f, k);
    }
    forall d: Doc | !d.Open() && d.NonEmpty() && d.to >= horizon ensures multiset(t')[d] == multiset(f')[d] {
      StepEffect(p, t, op, ts, d);
      StepEffect(p, f, op, ts, d);
      assert OpenDoc(t, d.key) == OpenDoc(f, d.key);
    }
  }

  lemma RowCallKeeps(s: State, afterSeconds: nat, op: RowOp)
    requires Inv(s, afterSeconds) && s.current.Some?
    ensures Inv(Next(s, afterSeconds, Step.RowCall(op)), afterSeconds)
  {
    var p, ts := Expire(afterSeconds), s.current.value;
    var s' := Next(s, afterSeconds, Step.RowCall(op));
    AgreeStep(p, s.trimmed, s.full, s.horizon, op, ts);
    StepMembers(p, s.trimmed, op, ts);
    hide ApplyOp, OneOpen;
    forall d | d in s'.trimmed
      ensures d.from <= s.metadataTime || d.from == ts
      ensures d.Open() || d.to < ts
    {
      assert MemberAfter(p, s.trimmed, op, ts, d);
    }
  }

  lemma CollectKeeps(s: State, afterSeconds: nat)
    requires Inv(s, afterSeconds) && Spares(s, afterSeconds)
    ensures Inv(Next(s, afterSeconds, Collect), afterSeconds)
  {
    var s', epoch := Next(s, afterSeconds, Collect), Epoch(afterSeconds, s.now);
    TrimKeepsOneOpen(s.trimmed, epoch);
    forall d: Doc ensures d in s'.trimmed <==> d in s.trimmed && d.to >= epoch {
      TrimMember(s.trimmed, epoch, d);
    }
    SameOpenDocs(s.trimmed, s'.trimmed);
    forall d: Doc | !d.Open() && d.NonEmpty() && d.to >= s'.horizon ensures multiset(s'.trimmed)[d] == multiset(s.full)[d] {
      TrimCount(s.trimmed, epoch, d);
      assert multiset(s.trimmed)[d] == multiset(s.full)[d];
      assert d in s.trimmed <==> multiset(s.trimmed)[d] > 0;
    }
  }

  lemma SameOpenDocs(a: seq<Doc>, b: seq<Doc>)
    requires OneOpen(a) && OneOpen(b)
    requires forall d: Doc | d.Open() :: d in a <==> d in b
    ensures forall k: RowKey :: OpenDoc(a, k) == OpenDoc(b, k)
  {
    forall k: RowKey ensures OpenDoc(a, k) == OpenDoc(b, k) {
      SameOpenDoc(a, b, k);
    }
  }

  ghost predicate IsRun(states: seq<State>, steps: seq<Step>, afterSeconds: nat) {
    && |states| == |steps| + 1 && Init(states[0], afterSeconds)
    && forall i :: 0 <= i < |steps| ==>
         Enabled(states[i], steps[i]) && states[i + 1] == Next(states[i], afterSeconds, steps[i])
  }

  lemma {:induction false} RunKeeps(states: seq<State>, steps: seq<Step>, afterSeconds: nat, i: nat)
    requires IsRun(states, steps, afterSeconds) && i < |states|
    requires forall j | 0 <= j < i && steps[j].Collect? :: Spares(states[j], afterSeconds)
    ensures Inv(states[i], afterSeconds)
  {
    if i > 0 {
      RunKeeps(states, steps, afterSeconds, i - 1);
      match steps[i - 1]
      case RowCall(op) => RowCallKeeps(states[i - 1], afterSeconds, op);
      case Collect => CollectKeeps(states[i - 1], afterSeconds);
      case _ =>
    }
  }

  lemma InvReads(s: State, afterSeconds: nat)
    requires Inv(s, afterSeconds)
    ensures Lossless(s, afterSeconds)
  {
    forall readNow, requested | s.now <= readNow && Accepts(afterSeconds, readNow, requested)
      ensures SameAt(s.trimmed, s.full, EffectiveAt(s.metadataTime, requested))
    {
      var at := EffectiveAt(s.metadataTime, requested);
      forall d: Doc ensures multiset(Find(s.trimmed, at))[d] == multiset(Find(s.full, at))[d] {
        FindCount(s.trimmed, at, d);
        FindCount(s.full, at, d);
        if d.Open() {
          OpenCount(s.trimmed, d);
          OpenCount(s.full, d);
          assert OpenDoc(s.trimmed, d.key) == OpenDoc(s.full, d.key);
        }
      }
    }
  }

  /** A collection that does not spare a row valid at the metadata time loses it to some accepted read. */
  lemma CollectLoses(s: State, afterSeconds: nat)
    requires Lossless(s, afterSeconds) && !Spares(s, afterSeconds)
    ensures !Lossless(Next(s, afterSeconds, Collect), afterSeconds)
  {
    var s', epoch := Next(s, afterSeconds, Collect), Epoch(afterSeconds, s.now);
    TrimExact(s.trimmed, s.metadataTime, afterSeconds, s.now);
    hide Find;
    var readNow, requested :|
      && s.now <= readNow && Accepts(afterSeconds, readNow, requested)
      && var at := if requested <= s.metadataTime then requested else s.metadataTime;
         multiset(Find(Trim(s.trimmed, epoch), at)) != multiset(Find(s.trimmed, at));
    var at := EffectiveAt(s.metadataTime, requested);
    assert SameAt(s.trimmed, s.full, at);
    assert !SameAt(s'.trimmed, s.full, at);
  }

  /**
   In every state of a run each read still accepted gives what the untrimmed view gives, if and only
   if every collection spared the rows valid at the metadata time.
   */
  lemma CollectorExact(states: seq<State>, steps: seq<Step>, afterSeconds: nat, i: nat)
    requires IsRun(states, steps, afterSeconds) && i < |states|
    ensures (forall j | 0 <= j <= i :: Lossless(states[j], afterSeconds))
            <==> (forall j | 0 <= j < i && steps[j].Collect? :: Spares(states[j], afterSeconds))
  {
    hide Inv, Lossless, Spares, Next, Enabled;
    if forall j | 0 <= j < i && steps[j].Collect? :: Spares(states[j], afterSeconds) {
      forall j | 0 <= j <= i ensures Lossless(states[j], afterSeconds) {
        RunKeeps(states, steps, afterSeconds, j);
        InvReads(states[j], afterSeconds);
      }
    } else {
      var j :| 0 <= j < i && steps[j].Collect? && !Spares(states[j], afterSeconds);
      if Lossless(states[j], afterSeconds) {
        CollectLoses(states[j], afterSeconds);
        assert !Lossless(states[j + 1], afterSeconds);
      }
    }
  }

  // ---- Between events, and in the middle of one ----

  /** No event is at hand, or its view's metadata is not older than the epoch. */
  predicate Timely(s: State, afterSeconds: nat) {
    s.current.None? || Epoch(afterSeconds, s.now) <= s.metadataTime
  }

  lemma {:induction false} TimelySpares(states: seq<State>, steps: seq<Step>, afterSeconds: nat, i: nat)
    requires IsRun(states, steps, afterSeconds) && i < |states|
    requires forall j | 0 <= j < i && steps[j].Collect? :: Timely(states[j], afterSeconds)
    ensures forall j | 0 <= j < i && steps[j].Collect? :: Spares(states[j], afterSeconds)
  {
    hide Next, Enabled, Agree;
    if i > 0 {
      TimelySpares(states, steps, afterSeconds, i - 1);
      RunKeeps(states, steps, afterSeconds, i - 1);
    }
  }

  /** A collector that runs between events, or behind the metadata, is never noticed. */
  lemma CollectorInvisible(states: seq<State>, steps: seq<Step>, afterSeconds: nat, i: nat)
    requires IsRun(states, steps, afterSeconds) && i < |states|
    requires forall j | 0 <= j < i && steps[j].Collect? :: Timely(states[j], afterSeconds)
    ensures Lossless(states[i], afterSeconds)
  {
    hide Lossless, Spares, Timely, Next, Enabled;
    TimelySpares(states, steps, afterSeconds, i);
    CollectorExact(states, steps, afterSeconds, i);
  }

  function LossSteps(row: Row): seq<Step> {
    [BeginEvent(1), Step.RowCall(Put(row, row)), StoreMetadata, BeginEvent(10), Step.RowCall(Close(row)), Collect]
  }

  /** A row written at 1 is closed by an event at 10, which is still at hand when the collector runs. */
  function LossStates(row: Row, afterSeconds: nat, now: int): seq<State> {
    var open, closed := [Doc(row, row, 1, MAX_TIMESTAMP)], [Doc(row, row, 1, 9)];
    [State([], [], 0, None, now, 0),
     State([], [], 0, Some(1), now, 0),
     State(open, open, 0, Some(1), now, 0),
     State(open, open, 1, None, now, 0),
     State(open, open, 1, Some(10), now, 0),
     State(closed, closed, 1, Some(10), now, 0),
     State([], closed, 1, Some(10), now, 1)]
  }

  lemma LossStep(row: Row, afterSeconds: nat, now: int, i: nat)
    requires 10 <= now - 1000 * afterSeconds && now <= MAX_TIMESTAMP && i < 6
    ensures var states, steps := LossStates(row, afterSeconds, now), LossSteps(row);
            Enabled(states[i], steps[i]) && states[i + 1] == Next(states[i], afterSeconds, steps[i])
  {
    var p, open, closed := Expire(afterSeconds), [Doc(row, row, 1, MAX_TIMESTAMP)], [Doc(row, row, 1, 9)];
    if i == 1 {
      assert ApplyOp(p, [], Put(row, row), 1) == open;
    } else if i == 4 {
      assert FindOpen(open, row) == Some(0);
      assert ApplyOp(p, open, Close(row), 10) == closed;
    } else if i == 5 {
      assert closed[..0] == [] && Trim(closed[..0], Epoch(afterSeconds, now)) == [];
    }
  }

  /** The exact condition does fail in a run: the row that the metadata still names is gone. */
  lemma MidEventLoss(row: Row, afterSeconds: nat, now: int)
    requires 10 <= now - 1000 * afterSeconds && now <= MAX_TIMESTAMP
    ensures var states, steps := LossStates(row, afterSeconds, now), LossSteps(row);
            var s := states[6];
            && IsRun(states, steps, afterSeconds)
            && !Spares(states[5], afterSeconds) && !Lossless(s, afterSeconds)
            && s.metadataTime == 1 && Find(s.trimmed, 1) == [] && Find(s.full, 1) == [Doc(row, row, 1, 9)]
  {
    var states, steps := LossStates(row, afterSeconds, now), LossSteps(row);
    var closed := [Doc(row, row, 1, 9)];
    forall i | 0 <= i < 6
      ensures Enabled(states[i], steps[i]) && states[i + 1] == Next(states[i], afterSeconds, steps[i])
    {
      LossStep(row, afterSeconds, now, i);
    }
    hide Enabled, Next, ApplyOp, Trim;
    assert closed[..0] == [] && closed[0] in closed && Find(closed[..0], 1) == [];
    assert multiset(closed)[closed[0]] == 1;
    assert Accepts(afterSeconds, now, now) && EffectiveAt(1, now) == 1;
    assert Find(closed, 1) == [] + [closed[0]] == closed;
    assert !SameAt(states[6].trimmed, states[6].full, EffectiveAt(states[6].metadataTime, now));
  }
}
