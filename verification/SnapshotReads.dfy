/**
 A reader takes the metadata first and queries the rows later; a writer changes rows one call at a
 time and stores the metadata last. The two interleave anyhow, and the writer is interrupted and
 starts its event again any number of times. Times never decrease, but they may be equal.

 Reads return the state that their metadata names if and only if every call is unseen from the
 metadata time. When every change is later than the stored metadata and no write hits a row opened
 earlier, as the store's design relies on, every call is.
 */
module SnapshotReads {
  import opened Wrappers
  import opened Results
  import opened ViewCollection
  import opened ReplayAbsorption
  import opened TimeTravel

  function ApplyAllLive(m: map<RowKey, Row>, ops: seq<RowOp>): map<RowKey, Row> {
    if ops == [] then m else ApplyLive(ApplyAllLive(m, ops[..|ops| - 1]), ops[|ops| - 1])
  }

  /** The rows after each change with a timestamp of at most t has been applied once, in order. */
  function Fold(changes: seq<Change>, t: int): map<RowKey, Row> {
    if changes == [] then map[]
    else
      var n := |changes| - 1;
      if changes[n].sourceTime <= t then ApplyAllLive(Fold(changes[..n], t), EventOps(changes[n]))
      else Fold(changes[..n], t)
  }

  lemma {:induction false} LiveByLastOp(m: map<RowKey, Row>, ops: seq<RowOp>, k: RowKey)
    ensures var r := ApplyAllLive(m, ops);
            match LastOp(ops, k)
            case None => (k in r <==> k in m) && (k in m ==> r[k] == m[k])
            case Some(Close(_)) => k !in r
            case Some(Put(_, row)) => k in r && r[k] == row
    decreases |ops|
  {
    if ops != [] {
      LiveByLastOp(m, ops[..|ops| - 1], k);
    }
  }

  /** Attempts that were cut off do not show in the fold once the whole event has been applied. */
  lemma LiveAbsorbs(m: map<RowKey, Row>, s: seq<RowOp>, e: seq<RowOp>)
    requires Absorbed(s, e)
    ensures ApplyAllLive(m, s + e) == ApplyAllLive(m, e)
  {
    var a, b := ApplyAllLive(m, s + e), ApplyAllLive(m, e);
    forall k: RowKey ensures (k in a <==> k in b) && (k in a ==> a[k] == b[k]) {
      LiveByLastOp(m, s + e, k);
      LiveByLastOp(m, e, k);
      LastOpConcat(s, e, k);
      TouchedBoth(s, k);
      TouchedBoth(e, k);
    }
  }

  datatype Writer =
    | Idle
      // The current attempt has issued the first `done` calls; `earlier` lists those of the attempts before it.
    | Writing(change: Change, earlier: seq<RowOp>, done: nat)

  /** `named` is what had been completed when the header was read; the reader itself keeps only the two times. */
  datatype Reader = NotReading | HeaderRead(metadataTime: int, requested: int, named: seq<Change>)

  datatype State = State(
    policy: RetentionPolicy,
    docs: seq<Doc>, metadataTime: Option<int>, writer: Writer, reader: Reader,
    completed: seq<Change>)

  predicate Init(s: State) {
    s == State(s.policy, [], None, Idle, NotReading, [])
  }

  datatype Step =
    | BeginChange(change: Change)
    | Interrupt
    | RowCall
    | StoreMetadata
    | SetState(ts: int)
    | ReadHeader(requested: int)
    | EndRead

  predicate Enabled(s: State, step: Step) {
    match step
    case BeginChange(c) =>
      && s.writer.Idle?
      && c.sourceTime <= MAX_TIMESTAMP
      && (s.metadataTime.Some? ==> s.metadataTime.value <= c.sourceTime)
    case Interrupt => s.writer.Writing?
    case RowCall => s.writer.Writing? && s.writer.done < |EventOps(s.writer.change)|
    case StoreMetadata => s.writer.Writing? && s.writer.done == |EventOps(s.writer.change)|
    case SetState(ts) =>
      && s.writer.Idle? && ts <= MAX_TIMESTAMP
      && (s.metadataTime.Some? ==> s.metadataTime.value <= ts)
    case ReadHeader(_) => s.reader.NotReading? && s.metadataTime.Some?
    case EndRead => s.reader.HeaderRead?
  }

  /** The call that the writer issues next. */
  function Call(s: State): RowOp
    requires Enabled(s, RowCall)
  {
    EventOps(s.writer.change)[s.writer.done]
  }

  function Next(s: State, step: Step): State
    requires Enabled(s, step)
  {
    match step
    case BeginChange(c) => s.(writer := Writing(c, [], 0))
    case Interrupt =>
      var w := s.writer;
      s.(writer := Writing(w.change, w.earlier + EventOps(w.change)[..Min(w.done, |EventOps(w.change)|)], 0))
    case RowCall =>
      s.(docs := ApplyOp(s.policy, s.docs, Call(s), s.writer.change.sourceTime),
         writer := s.writer.(done := s.writer.done + 1))
    case StoreMetadata =>
      s.(metadataTime := Some(s.writer.change.sourceTime),
         completed := s.completed + [s.writer.change],
         writer := Idle)
    case SetState(ts) => s.(metadataTime := Some(ts))
    case ReadHeader(t) => s.(reader := HeaderRead(s.metadataTime.value, t, s.completed))
    case EndRead => s.(reader := NotReading)
  }

  // ---- What holds in every run ----

  /** The last time at which anything was written. */
  function Present(s: State): int {
    if s.writer.Writing? then s.writer.change.sourceTime
    else if s.metadataTime.Some? then s.metadataTime.value
    else 0
  }

  ghost predicate DocsSound(s: State) {
    && Intervals(s.docs, Present(s))
    && forall d <- s.docs ::
         || (s.metadataTime.Some? && d.from <= s.metadataTime.value)
         || (s.writer.Writing? && d.from == s.writer.change.sourceTime)
  }

  ghost predicate WriterSound(s: State) {
    s.writer.Writing? ==>
      && s.writer.change.sourceTime <= MAX_TIMESTAMP
      && (s.metadataTime.Some? ==> s.metadataTime.value <= s.writer.change.sourceTime)
      && s.writer.done <= |EventOps(s.writer.change)|
      && Absorbed(s.writer.earlier, EventOps(s.writer.change))
  }

  ghost predicate MetadataSound(s: State) {
    && (s.metadataTime.Some? ==> s.metadataTime.value <= MAX_TIMESTAMP)
    && (s.metadataTime.None? ==> s.completed == [])
    && (forall c <- s.completed :: c.sourceTime <= s.metadataTime.value)
    && (s.reader.HeaderRead? ==> s.metadataTime.Some? && s.reader.metadataTime <= s.metadataTime.value)
  }

  ghost predicate Base(s: State) {
    DocsSound(s) && WriterSound(s) && MetadataSound(s)
  }

  lemma RowCallDocs(s: State)
    requires DocsSound(s) && WriterSound(s) && Enabled(s, RowCall)
    ensures DocsSound(Next(s, RowCall))
  {
    hide EventOps, ApplyOp, Absorbed, Intervals;
    IntervalsStep(s.policy, s.docs, Present(s), Call(s), s.writer.change.sourceTime);
    FromStep(s.policy, s.docs, Present(s), Call(s), s.writer.change.sourceTime);
  }

  /** A call writes no start of an interval other than its own time. */
  lemma FromStep(policy: RetentionPolicy, docs: seq<Doc>, now: int, op: RowOp, ts: int)
    requires Intervals(docs, now)
    ensures forall d <- ApplyOp(policy, docs, op, ts) :: d.from == ts || exists e <- docs :: e.from == d.from
  {
    hide ApplyOp, OneOpen, AllDisjoint;
    StepMembers(policy, docs, op, ts);
    forall d | d in ApplyOp(policy, docs, op, ts) ensures d.from == ts || exists e <- docs :: e.from == d.from {
      assert MemberAfter(policy, docs, op, ts, d);
    }
  }

  lemma BaseKept(s: State, step: Step)
    requires Base(s) && Enabled(s, step)
    ensures Base(Next(s, step))
  {
    hide EventOps, ApplyOp, OneOpen, AllDisjoint;
    if step.RowCall? {
      RowCallDocs(s);
      hide DocsSound, Absorbed;
    } else if step.Interrupt? {
      AttemptAbsorbed(s.writer.earlier, EventOps(s.writer.change), s.writer.done);
    }
  }

  // ---- Runs ----

  /** A run: the states passed through, by enabled steps, from an empty view. */
  ghost predicate IsRun(states: seq<State>, steps: seq<Step>) {
    && |states| == |steps| + 1 && Init(states[0])
    && forall i :: 0 <= i < |steps| ==> Enabled(states[i], steps[i]) && states[i + 1] == Next(states[i], steps[i])
  }

  lemma {:induction false} RunBase(states: seq<State>, steps: seq<Step>, i: nat)
    requires IsRun(states, steps) && i < |states|
    ensures Base(states[i])
  {
    hide Base, Enabled, Next;
    if i == 0 {
      InitBase(states[0]);
    } else {
      RunBase(states, steps, i - 1);
      BaseKept(states[i - 1], steps[i - 1]);
    }
  }

  lemma InitBase(s: State)
    requires Init(s)
    ensures Base(s)
  {
  }

  // ---- One reader ----

  /** Every read at or before the metadata time that the reader holds gives the state it names. */
  ghost predicate ReadsNamed(s: State) {
    s.reader.HeaderRead? &&
    forall t | t <= s.reader.metadataTime :: Exactly(Find(s.docs, t), Fold(s.reader.named, t))
  }

  /** The next call is unseen by the reader. */
  predicate UnseenByReader(s: State)
    requires Enabled(s, RowCall) && s.reader.HeaderRead?
  {
    Unseen(s.policy, s.docs, Call(s), s.writer.change.sourceTime, s.reader.metadataTime,
           Fold(s.reader.named, s.reader.metadataTime))
  }

  lemma ReaderCallExact(s: State)
    requires Base(s) && Enabled(s, RowCall) && ReadsNamed(s)
    ensures ReadsNamed(Next(s, RowCall)) <==> UnseenByReader(s)
  {
    hide EventOps, Fold, Find, Exactly, Shows, Unseen, ApplyOp, Absorbed;
    var r, s' := s.reader, Next(s, RowCall);
    var rows := (t: int) => Fold(r.named, t);
    RowCallDocs(s);
    forall t: int
      ensures Exactly(Find(s.docs, t), Fold(r.named, t)) <==> Shows(s.docs, t, rows(t))
      ensures Exactly(Find(s'.docs, t), Fold(r.named, t)) <==> Shows(s'.docs, t, rows(t))
    {
      ShownIsFound(s.docs, Present(s), t, rows(t));
      ShownIsFound(s'.docs, Present(s'), t, rows(t));
    }
    hide Intervals;
    CallUnseenExact(s.policy, s.docs, Present(s), Call(s), s.writer.change.sourceTime, r.metadataTime, rows);
    assert s'.reader == r;
  }

  /** The other steps leave what a reader can find alone. */
  lemma QuietForReader(s: State, step: Step)
    requires Enabled(s, step) && ReadsNamed(s) && !step.RowCall? && !step.EndRead?
    ensures ReadsNamed(Next(s, step))
  {
    hide EventOps, Fold, Find, Exactly;
  }

  lemma {:induction false} HeaderKept(states: seq<State>, steps: seq<Step>, h: nat, i: nat)
    requires IsRun(states, steps) && h <= i < |states| && states[h].reader.HeaderRead?
    requires forall j :: h <= j < i ==> !steps[j].EndRead?
    ensures states[i].reader == states[h].reader
    decreases i
  {
    hide EventOps, ApplyOp;
    if h < i {
      HeaderKept(states, steps, h, i - 1);
    }
  }

  lemma {:induction false} UnseenKeepsReader(states: seq<State>, steps: seq<Step>, h: nat, i: nat)
    requires IsRun(states, steps) && h <= i < |states| && ReadsNamed(states[h])
    requires forall j :: h <= j < i ==> !steps[j].EndRead? && states[j].reader.HeaderRead?
    requires forall j | h <= j < i && steps[j].RowCall? :: UnseenByReader(states[j])
    ensures ReadsNamed(states[i])
    decreases i
  {
    hide ReadsNamed, UnseenByReader, Base, Next, Enabled;
    if h < i {
      UnseenKeepsReader(states, steps, h, i - 1);
      if steps[i - 1].RowCall? {
        RunBase(states, steps, i - 1);
        ReaderCallExact(states[i - 1]);
      } else {
        QuietForReader(states[i - 1], steps[i - 1]);
      }
    }
  }

  /**
   A reader that has read its header keeps finding the state it names, whatever the writer does
   meanwhile, if and only if each call issued meanwhile is unseen from the header's time.
   */
  lemma ReaderExact(states: seq<State>, steps: seq<Step>, h: nat, i: nat)
    requires IsRun(states, steps) && h <= i < |states| && ReadsNamed(states[h])
    requires forall j :: h <= j < i ==> !steps[j].EndRead?
    ensures forall j | h <= j <= i :: states[j].reader == states[h].reader
    ensures (forall j | h <= j <= i :: ReadsNamed(states[j]))
            <==> (forall j | h <= j < i && steps[j].RowCall? :: UnseenByReader(states[j]))
  {
    forall j | h <= j <= i ensures states[j].reader == states[h].reader {
      HeaderKept(states, steps, h, j);
    }
    assert states[h].reader.HeaderRead?;
    hide ReadsNamed, UnseenByReader, Base, Next, Enabled;
    if forall j | h <= j < i && steps[j].RowCall? :: UnseenByReader(states[j]) {
      forall j | h <= j <= i ensures ReadsNamed(states[j]) {
        UnseenKeepsReader(states, steps, h, j);
      }
    } else {
      var j :| h <= j < i && steps[j].RowCall? && !UnseenByReader(states[j]);
      if ReadsNamed(states[j]) {
        RunBase(states, steps, j);
        ReaderCallExact(states[j]);
        assert !ReadsNamed(states[j + 1]);
      }
    }
  }

  // ---- All readers ----

  /** A header and rows read now belong together, at every time that can be asked for. */
  ghost predicate NotTorn(s: State) {
    s.metadataTime.Some? ==>
      forall t | t <= s.metadataTime.value :: Exactly(Find(s.docs, t), Fold(s.completed, t))
  }

  /** The next call is unseen by a reader that reads the header now. */
  predicate UnseenCall(s: State)
    requires Enabled(s, RowCall)
  {
    s.metadataTime.Some? ==>
      Unseen(s.policy, s.docs, Call(s), s.writer.change.sourceTime, s.metadataTime.value,
             Fold(s.completed, s.metadataTime.value))
  }

  /** What the completed changes and the attempts at the current one leave alive at t. */
  function Expected(s: State, t: int): map<RowKey, Row> {
    var base, w := Fold(s.completed, t), s.writer;
    if w.Writing? && w.done <= |EventOps(w.change)| && w.change.sourceTime <= t
    then ApplyAllLive(base, w.earlier + EventOps(w.change)[..w.done])
    else base
  }

  /** Every time, past or future, shows what is expected of it. */
  ghost predicate Faithful(s: State) {
    forall t | t <= MAX_TIMESTAMP :: Shows(s.docs, t, Expected(s, t))
  }

  /** A change at the metadata's own time has changed nothing at that time. */
  ghost predicate Unchanged(s: State) {
    s.writer.Writing? && s.metadataTime == Some(s.writer.change.sourceTime) ==>
      Expected(s, s.writer.change.sourceTime) == Fold(s.completed, s.writer.change.sourceTime)
  }

  /** What the header named is, up to its time, what is completed now. */
  ghost predicate ReaderSound(s: State) {
    s.reader.HeaderRead? ==>
      forall t | t <= s.reader.metadataTime :: Fold(s.completed, t) == Fold(s.reader.named, t)
  }

  ghost predicate Inv(s: State) {
    Base(s) && Faithful(s) && Unchanged(s) && ReaderSound(s)
  }

  lemma TriedSnoc(m: map<RowKey, Row>, earlier: seq<RowOp>, e: seq<RowOp>, done: nat)
    requires done < |e|
    ensures ApplyAllLive(m, earlier + e[..done + 1]) == ApplyLive(ApplyAllLive(m, earlier + e[..done]), e[done])
  {
    var tried := earlier + e[..done];
    assert earlier + e[..done + 1] == tried + [e[done]];
    assert (tried + [e[done]])[..|tried|] == tried;
  }

  lemma RowCallExpected(s: State, t: int)
    requires WriterSound(s) && Enabled(s, RowCall)
    ensures Expected(Next(s, RowCall), t) ==
            if s.writer.change.sourceTime <= t then ApplyLive(Expected(s, t), Call(s)) else Expected(s, t)
  {
    hide EventOps, Fold, ApplyAllLive, ApplyLive, Absorbed, ApplyOp;
    var w := s.writer;
    TriedSnoc(Fold(s.completed, t), w.earlier, EventOps(w.change), w.done);
  }

  /** A row opened before the current change was opened by the metadata time. */
  lemma OpenedEarlier(s: State, k: RowKey)
    requires Base(s) && s.writer.Writing? && OpenDoc(s.docs, k).Some?
    ensures var from, ts := OpenDoc(s.docs, k).value.from, s.writer.change.sourceTime;
            from <= ts && (from < ts ==> s.metadataTime.Some? && from <= s.metadataTime.value)
  {
    hide EventOps, Absorbed, AllDisjoint, OneOpen;
  }

  lemma RowCallFaithful(s: State)
    requires Inv(s) && Enabled(s, RowCall) && UnseenCall(s)
    ensures Faithful(Next(s, RowCall))
  {
    hide EventOps, Fold, Expected, Shows, ApplyOp, ApplyLive, Absorbed, Intervals;
    var s', ts := Next(s, RowCall), s.writer.change.sourceTime;
    forall t | t <= MAX_TIMESTAMP ensures Shows(s'.docs, t, Expected(s', t)) {
      RowCallExpected(s, t);
      if ts <= t {
        IntervalsBehind(s.docs, Present(s), t);
        PresentStep(s.policy, s.docs, Call(s), ts, t, Expected(s, t));
      } else {
        if Removes(s.policy, s.docs, Call(s)) {
          OpenedEarlier(s, Call(s).key);
        }
        PastStep(s.policy, s.docs, Present(s), Call(s), ts, t, Expected(s, t));
      }
    }
  }

  lemma RowCallKeeps(s: State)
    requires Inv(s) && Enabled(s, RowCall) && UnseenCall(s)
    ensures Inv(Next(s, RowCall))
  {
    hide EventOps, Fold, Expected, ApplyOp, ApplyLive, Base, Removes, OpenDoc;
    BaseKept(s, RowCall);
    RowCallFaithful(s);
    hide Faithful;
    assert WriterSound(s) by {
      BaseParts(s);
    }
    RowCallExpected(s, s.writer.change.sourceTime);
  }

  lemma BaseParts(s: State)
    requires Base(s)
    ensures DocsSound(s) && WriterSound(s) && MetadataSound(s)
  {
  }

  lemma FoldSnoc(completed: seq<Change>, c: Change, t: int)
    ensures Fold(completed + [c], t) ==
            if c.sourceTime <= t then ApplyAllLive(Fold(completed, t), EventOps(c)) else Fold(completed, t)
  {
    assert (completed + [c])[..|completed|] == completed;
  }

  /** With all calls issued, the attempts come to the same as the change applied once. */
  lemma StoredIsExpected(s: State, t: int)
    requires WriterSound(s) && Enabled(s, StoreMetadata)
    ensures Fold(Next(s, StoreMetadata).completed, t) == Expected(s, t)
    ensures Expected(Next(s, StoreMetadata), t) == Expected(s, t)
  {
    hide EventOps, Absorbed, Fold;
    var w := s.writer;
    var e := EventOps(w.change);
    assert e[..|e|] == e;
    FoldSnoc(s.completed, w.change, t);
    LiveAbsorbs(Fold(s.completed, t), w.earlier, e);
  }

  lemma StoreMetadataKeeps(s: State)
    requires Inv(s) && Enabled(s, StoreMetadata)
    ensures Inv(Next(s, StoreMetadata))
  {
    BaseKept(s, StoreMetadata);
    BaseParts(s);
    hide EventOps, Fold, Expected, Shows, Absorbed, Base, DocsSound;
    var s' := Next(s, StoreMetadata);
    forall t ensures Fold(s'.completed, t) == Expected(s, t) && Expected(s', t) == Expected(s, t) {
      StoredIsExpected(s, t);
    }
    if s.reader.HeaderRead? {
      forall t | t <= s.reader.metadataTime ensures Fold(s'.completed, t) == Fold(s.reader.named, t) {
        ExpectedByMetadata(s, t);
      }
    }
  }

  /** Up to the metadata time nothing but the completed changes is expected. */
  lemma ExpectedByMetadata(s: State, t: int)
    requires WriterSound(s) && Unchanged(s) && s.metadataTime.Some? && t <= s.metadataTime.value
    ensures Expected(s, t) == Fold(s.completed, t)
  {
    hide EventOps, Fold, Absorbed, ApplyAllLive;
  }

  lemma ExpectedKept(s: State, step: Step, t: int)
    requires WriterSound(s) && Enabled(s, step) && !step.RowCall? && !step.StoreMetadata?
    ensures Expected(Next(s, step), t) == Expected(s, t)
  {
    hide EventOps, Fold, Absorbed;
    var w := Next(s, step).writer;
    if w.Writing? {
      assert w.earlier + EventOps(w.change)[..0] == w.earlier;
    }
  }

  lemma QuietKeeps(s: State, step: Step)
    requires Inv(s) && Enabled(s, step) && !step.RowCall? && !step.StoreMetadata?
    ensures Inv(Next(s, step))
  {
    BaseKept(s, step);
    BaseParts(s);
    var s' := Next(s, step);
    hide EventOps, Fold, Shows, Absorbed, Base, DocsSound, ApplyAllLive;
    forall t ensures Expected(s', t) == Expected(s, t) {
      ExpectedKept(s, step, t);
    }
    if step.BeginChange? {
      assert s.writer.Idle?;
    } else {
      hide Expected;
    }
  }

  lemma StepKeeps(s: State, step: Step)
    requires Inv(s) && Enabled(s, step) && (step.RowCall? ==> UnseenCall(s))
    ensures Inv(Next(s, step))
  {
    hide Inv, UnseenCall;
    if step.RowCall? {
      RowCallKeeps(s);
    } else if step.StoreMetadata? {
      StoreMetadataKeeps(s);
    } else {
      QuietKeeps(s, step);
    }
  }

  /** The reader that the invariant is for: one that takes the header at this very moment. */
  function WithHeader(s: State): State
    requires s.metadataTime.Some?
  {
    s.(reader := HeaderRead(s.metadataTime.value, s.metadataTime.value, s.completed))
  }

  lemma InvReads(s: State)
    requires Inv(s)
    ensures NotTorn(s)
    ensures s.reader.HeaderRead? ==> ReadsNamed(s)
  {
    BaseParts(s);
    hide EventOps, Fold, Find, Exactly, Shows, Absorbed, Base, Expected, Intervals;
    if s.metadataTime.Some? {
      forall t | t <= s.metadataTime.value ensures Exactly(Find(s.docs, t), Fold(s.completed, t)) {
        ExpectedByMetadata(s, t);
        ShownIsFound(s.docs, Present(s), t, Fold(s.completed, t));
      }
    }
  }

  /** A call that is seen tears what a reader taking the header now would find. */
  lemma SeenTears(s: State)
    requires Base(s) && NotTorn(s) && Enabled(s, RowCall) && !UnseenCall(s)
    ensures !NotTorn(Next(s, RowCall))
  {
    var r := WithHeader(s);
    assert Base(r) by {
      hide EventOps, Absorbed, Intervals;
    }
    hide Base;
    assert ReadsNamed(r) && Enabled(r, RowCall) && !UnseenByReader(r);
    ReaderCallExact(r);
    assert Next(r, RowCall).docs == Next(s, RowCall).docs;
  }

  lemma {:induction false} UnseenKeeps(states: seq<State>, steps: seq<Step>, i: nat)
    requires IsRun(states, steps) && i < |states|
    requires forall j | 0 <= j < i && steps[j].RowCall? :: UnseenCall(states[j])
    ensures Inv(states[i])
  {
    hide Inv, UnseenCall, Next, Enabled;
    if i == 0 {
      InitInv(states[0]);
    } else {
      UnseenKeeps(states, steps, i - 1);
      StepKeeps(states[i - 1], steps[i - 1]);
    }
  }

  lemma InitInv(s: State)
    requires Init(s)
    ensures Inv(s)
  {
  }

  /**
   Every header and the rows read with it or after it belong together, in every state of a run, if
   and only if every call was unseen from the metadata time in force.
   */
  lemma {:induction false} NeverTornExact(states: seq<State>, steps: seq<Step>, i: nat)
    requires IsRun(states, steps) && i < |states|
    ensures (forall j | 0 <= j <= i :: NotTorn(states[j]))
            <==> (forall j | 0 <= j < i && steps[j].RowCall? :: UnseenCall(states[j]))
    ensures (forall j | 0 <= j <= i :: NotTorn(states[j])) ==>
              forall j | 0 <= j <= i && states[j].reader.HeaderRead? :: ReadsNamed(states[j])
  {
    hide Inv, Base, NotTorn, UnseenCall, Next, Enabled, ReadsNamed;
    if forall j | 0 <= j < i && steps[j].RowCall? :: UnseenCall(states[j]) {
      forall j | 0 <= j <= i
        ensures NotTorn(states[j]) && (states[j].reader.HeaderRead? ==> ReadsNamed(states[j]))
      {
        UnseenKeeps(states, steps, j);
        InvReads(states[j]);
      }
    } else {
      var j :| 0 <= j < i && steps[j].RowCall? && !UnseenCall(states[j]);
      if NotTorn(states[j]) {
        RunBase(states, steps, j);
        SeenTears(states[j]);
        assert !NotTorn(states[j + 1]);
      }
    }
  }

  // ---- What the design relies on ----

  /** Each change is later than the metadata stored before it, and no write hits a row opened earlier. */
  predicate Disciplined(s: State, step: Step)
    requires Enabled(s, step)
  {
    match step
    case BeginChange(c) => s.metadataTime.Some? ==> s.metadataTime.value < c.sourceTime
    case RowCall => KeepsPast(s.docs, Call(s), s.writer.change.sourceTime)
    case _ => true
  }

  lemma {:induction false} LaterThanMetadata(states: seq<State>, steps: seq<Step>, i: nat)
    requires IsRun(states, steps) && i < |states|
    requires forall j :: 0 <= j < i ==> Disciplined(states[j], steps[j])
    ensures var s := states[i];
            s.writer.Writing? && s.metadataTime.Some? ==> s.metadataTime.value < s.writer.change.sourceTime
  {
    hide EventOps, ApplyOp, KeepsPast;
    if i > 0 {
      LaterThanMetadata(states, steps, i - 1);
      assert Disciplined(states[i - 1], steps[i - 1]);
    }
  }

  /** A sufficient discipline: then the pending row query returns the state that the header named. */
  lemma SnapshotRead(states: seq<State>, steps: seq<Step>, i: nat)
    requires IsRun(states, steps) && i < |states| && states[i].reader.HeaderRead? && !states[i].policy.Latest?
    requires forall j :: 0 <= j < i ==> Disciplined(states[j], steps[j])
    ensures var r := states[i].reader;
            && (r.requested <= r.metadataTime ==>
                  Exactly(Find(states[i].docs, r.requested), Fold(r.named, r.requested)))
            && (r.metadataTime < r.requested ==>
                  Exactly(Find(states[i].docs, r.metadataTime), Fold(r.named, r.metadataTime)))
  {
    forall j | 0 <= j < i && steps[j].RowCall? ensures UnseenCall(states[j]) {
      LaterThanMetadata(states, steps, j);
      PolicyKept(states, steps, j, i);
      assert Disciplined(states[j], steps[j]);
    }
    hide UnseenCall, Disciplined;
    NeverTornExact(states, steps, i);
    assert ReadsNamed(states[i]);
  }

  lemma {:induction false} PolicyKept(states: seq<State>, steps: seq<Step>, i: nat, j: nat)
    requires IsRun(states, steps) && i <= j < |states|
    ensures states[j].policy == states[i].policy
    decreases j
  {
    hide EventOps, ApplyOp;
    if i < j {
      PolicyKept(states, steps, i, j - 1);
      assert states[j] == Next(states[j - 1], steps[j - 1]);
    }
  }

  // ---- Why a change must be later than the metadata ----

  function AddOnly(row: Row, ts: int): Change { Change(1, ts, [row], [], []) }

  function Replacing(a: Row, b: Row, ts: int): Change {
    Change(2, ts, [], [UpdatePayload(Some(a), Some(b), None)], [])
  }

  lemma ReplacingOps(a: Row, b: Row, ts: int)
    ensures EventOps(AddOnly(a, ts)) == [Put(a, a)]
    ensures EventOps(Replacing(a, b, ts)) == [Close(a), Put(b, b)]
  {
    var u := UpdatePayload(Some(a), Some(b), None);
    assert UpdateOp(u) == [Close(a), Put(b, b)];
    assert [u][..0] == [];
    assert UpdateOps([u]) == UpdateOps([u][..0]) + UpdateOp(u);
  }

  lemma ReplacingFold(a: Row, b: Row, ts: int)
    requires a != b
    ensures Fold([AddOnly(a, ts)], ts) == map[a := a]
    ensures Fold([AddOnly(a, ts), Replacing(a, b, ts)], ts) == map[b := b]
  {
    ReplacingOps(a, b, ts);
    var one, two := [AddOnly(a, ts)], [AddOnly(a, ts), Replacing(a, b, ts)];
    assert one[..0] == [] && two[..1] == one;
    var put, both := [Put(a, a)], [Close(a), Put(b, b)];
    assert put[..0] == [] && both[..1] == [Close(a)] && [Close(a)][..0] == [];
    assert ApplyAllLive(map[], put) == ApplyLive(ApplyAllLive(map[], put[..0]), Put(a, a)) == map[a := a];
    assert ApplyAllLive(map[a := a], [Close(a)]) == ApplyLive(map[a := a], Close(a)) == map[];
  }

  lemma FoldOne(c: Change, t: int)
    ensures Fold([c], t) == if c.sourceTime <= t then ApplyAllLive(map[], EventOps(c)) else map[]
  {
    assert [c][..0] == [];
    assert Fold([c][..0], t) == map[];
  }

  lemma ClosedNow(policy: RetentionPolicy, a: Row, ts: int)
    requires ts < MAX_TIMESTAMP
    ensures Find(ApplyOp(policy, [Doc(a, a, ts, MAX_TIMESTAMP)], Close(a), ts), ts) == []
  {
    var docs := [Doc(a, a, ts, MAX_TIMESTAMP)];
    assert FindOpen(docs, a) == Some(0);
    var torn := ApplyOp(policy, docs, Close(a), ts);
    assert torn == if policy.Latest? then [] else [Doc(a, a, ts, ts - 1)];
    assert torn != [] ==> torn[..0] == [];
  }

  function TearSteps(a: Row, b: Row, ts: int): seq<Step> {
    [BeginChange(AddOnly(a, ts)), RowCall, StoreMetadata, ReadHeader(ts), BeginChange(Replacing(a, b, ts)), RowCall]
  }

  /** The states passed through: first one row, then the header, then the row is closed. */
  function TearStates(policy: RetentionPolicy, a: Row, b: Row, ts: int): seq<State> {
    var doc := Doc(a, a, ts, MAX_TIMESTAMP);
    var one, two := AddOnly(a, ts), Replacing(a, b, ts);
    var header := HeaderRead(ts, ts, [one]);
    [State(policy, [], None, Idle, NotReading, []),
     State(policy, [], None, Writing(one, [], 0), NotReading, []),
     State(policy, [doc], None, Writing(one, [], 1), NotReading, []),
     State(policy, [doc], Some(ts), Idle, NotReading, [one]),
     State(policy, [doc], Some(ts), Idle, header, [one]),
     State(policy, [doc], Some(ts), Writing(two, [], 0), header, [one]),
     State(policy, ApplyOp(policy, [doc], Close(a), ts), Some(ts), Writing(two, [], 1), header, [one])]
  }

  lemma TearStep(policy: RetentionPolicy, a: Row, b: Row, ts: int, i: nat)
    requires ts < MAX_TIMESTAMP && i < 6
    ensures var s, step, s' := TearStates(policy, a, b, ts)[i], TearSteps(a, b, ts)[i], TearStates(policy, a, b, ts)[i + 1];
            Enabled(s, step) && s' == Next(s, step)
  {
    ReplacingOps(a, b, ts);
    hide EventOps;
    if i == 1 {
      assert ApplyOp(policy, [], Put(a, a), ts) == [Doc(a, a, ts, MAX_TIMESTAMP)];
    } else {
      hide ApplyOp;
    }
  }

  lemma TearIsRun(policy: RetentionPolicy, a: Row, b: Row, ts: int)
    requires ts < MAX_TIMESTAMP
    ensures IsRun(TearStates(policy, a, b, ts), TearSteps(a, b, ts))
  {
    hide EventOps, ApplyOp, Enabled, Next;
    var states, steps := TearStates(policy, a, b, ts), TearSteps(a, b, ts);
    forall i | 0 <= i < 6 ensures Enabled(states[i], steps[i]) && states[i + 1] == Next(states[i], steps[i]) {
      TearStep(policy, a, b, ts, i);
    }
  }

  /**
   Two changes at one time are enough: after the first, a reader takes the header; the second replaces
   the row, and between its two calls the reader finds neither the state before nor the one after.
   */
  lemma EqualTimesTear(policy: RetentionPolicy, a: Row, b: Row, ts: int)
    requires a != b && ts < MAX_TIMESTAMP
    ensures var states, steps := TearStates(policy, a, b, ts), TearSteps(a, b, ts);
            && IsRun(states, steps)
            && ReadsNamed(states[4]) && states[6].reader == states[4].reader
            && !UnseenByReader(states[5]) && !ReadsNamed(states[6])
            && Find(states[6].docs, ts) == []
    ensures !Exactly([], Fold([AddOnly(a, ts)], ts)) && !Exactly([], Fold([AddOnly(a, ts), Replacing(a, b, ts)], ts))
  {
    ReplacingOps(a, b, ts);
    ReplacingFold(a, b, ts);
    TearIsRun(policy, a, b, ts);
    ClosedNow(policy, a, ts);
    hide EventOps, Fold, ApplyOp, IsRun;
    var doc := Doc(a, a, ts, MAX_TIMESTAMP);
    forall t | t <= ts ensures Exactly(Find([doc], t), Fold([AddOnly(a, ts)], t)) {
      FoldOne(AddOnly(a, ts), t);
      assert [doc][..0] == [];
    }
    assert a in map[a := a] && b in map[b := b];
    assert a !in ApplyLive(map[a := a], Close(a));
  }
}
