/**
 From the query's results to a read of the view, across the splitting of contexts into events, the
 change stream, the worker with its crashes and replays, and the store's intervals: what a read at a
 time shows is the plain fold, in order, of the contexts up to that time.
 */
module EndToEnd {
  import opened Wrappers
  import opened Results
  import opened ViewCollection
  import opened ReplayAbsorption
  import opened TimeTravel
  import opened SnapshotReads
  import opened Splitting
  import GC = GarbageCollection
  import QH = QueryHost
  import QL = QueryLoop
  import ST = ViewStore
  import VS = ViewService
  import VW = ViewWorker

  // ---- The acknowledged events as a timeline ----

  /** The changes since the view was last deleted. */
  function SinceCleared(events: seq<VS.Event>): seq<Change> {
    if events == [] then []
    else
      var e, before := events[|events| - 1], SinceCleared(events[..|events| - 1]);
      if VS.IsChange(e) then before + [VS.TheChange(e)] else if VS.Clears(e) then [] else before
  }

  /**
   One more control event: the start of a bootstrap and the deletion of the query empty the view,
   the other signals leave its rows alone. An event that cannot be decoded counts for nothing.
   */
  lemma ClearedBySignal(policy: RetentionPolicy, events: seq<VS.Event>, id: nat, sequence: nat, ts: int)
    ensures forall signal | signal in {BootstrapStarted, QueryDeleted} ::
              var all := events + [VS.CS.Entry(id, Some(ControlEvent(sequence, ts, signal)))];
              SinceCleared(all) == [] && VS.Once(policy, all) == []
    ensures forall signal | signal in {BootstrapCompleted, Running, Stopped} ::
              var all := events + [VS.CS.Entry(id, Some(ControlEvent(sequence, ts, signal)))];
              SinceCleared(all) == SinceCleared(events) && VS.Once(policy, all) == VS.Once(policy, events)
    ensures var all := events + [VS.CS.Entry(id, None)];
            SinceCleared(all) == SinceCleared(events) && VS.Once(policy, all) == VS.Once(policy, events)
  {
    forall data: Option<ResultEvent>
      ensures (events + [VS.CS.Entry(id, data)])[..|events|] == events
    {
    }
    assert (events + [VS.CS.Entry(id, None)])[..|events|] == events;
  }

  /** One more change event is the last change, and its calls are applied to the rows there are. */
  lemma ChangeIsLast(policy: RetentionPolicy, events: seq<VS.Event>, id: nat, change: Change)
    ensures var all := events + [VS.CS.Entry(id, Some(ChangeEvent(change)))];
            && SinceCleared(all) == SinceCleared(events) + [change]
            && VS.Once(policy, all) == ApplyOps(policy, VS.Once(policy, events), EventOps(change), change.sourceTime)
  {
    assert (events + [VS.CS.Entry(id, Some(ChangeEvent(change)))])[..|events|] == events;
  }

  function Timed(ops: seq<RowOp>, ts: int): seq<TimedOp> {
    seq(|ops|, i requires 0 <= i < |ops| => TimedOp(ops[i], ts))
  }

  /** The calls of the changes, each with the time of its change. */
  function Timeline(changes: seq<Change>): seq<TimedOp> {
    if changes == [] then []
    else
      var c := changes[|changes| - 1];
      Timeline(changes[..|changes| - 1]) + Timed(EventOps(c), c.sourceTime)
  }

  ghost predicate InTimeOrder(changes: seq<Change>) {
    && (forall i, j :: 0 <= i <= j < |changes| ==> changes[i].sourceTime <= changes[j].sourceTime)
    && (forall c <- changes :: c.sourceTime <= MAX_TIMESTAMP)
  }

  lemma {:induction false} RunOps(policy: RetentionPolicy, line: seq<TimedOp>, ops: seq<RowOp>, ts: int)
    ensures Run(policy, line + Timed(ops, ts)) == ApplyOps(policy, Run(policy, line), ops, ts)
    decreases |ops|
  {
    hide ApplyOp;
    if ops == [] {
      assert line + Timed(ops, ts) == line;
    } else {
      var n := |ops| - 1;
      RunOps(policy, line, ops[..n], ts);
      assert (line + Timed(ops, ts))[..|line| + n] == line + Timed(ops[..n], ts);
    }
  }

  lemma {:induction false} LiveOps(line: seq<TimedOp>, ops: seq<RowOp>, ts: int, t: int)
    ensures Live(line + Timed(ops, ts), t) == if ts <= t then ApplyAllLive(Live(line, t), ops) else Live(line, t)
    decreases |ops|
  {
    hide ApplyLive;
    if ops == [] {
      assert line + Timed(ops, ts) == line;
    } else {
      var n := |ops| - 1;
      LiveOps(line, ops[..n], ts, t);
      assert (line + Timed(ops, ts))[..|line| + n] == line + Timed(ops[..n], ts);
    }
  }

  lemma SnocTimeline(changes: seq<Change>, c: Change)
    ensures Timeline(changes + [c]) == Timeline(changes) + Timed(EventOps(c), c.sourceTime)
  {
    assert (changes + [c])[..|changes|] == changes;
  }

  /** Processing the events once is running their timeline. */
  lemma {:induction false} OnceIsRun(policy: RetentionPolicy, events: seq<VS.Event>)
    ensures VS.Once(policy, events) == Run(policy, Timeline(SinceCleared(events)))
    decreases |events|
  {
    hide EventOps, ApplyOps, Timed;
    if events != [] {
      var e, before := events[|events| - 1], events[..|events| - 1];
      OnceIsRun(policy, before);
      if VS.IsChange(e) {
        var c := VS.TheChange(e);
        SnocTimeline(SinceCleared(before), c);
        RunOps(policy, Timeline(SinceCleared(before)), EventOps(c), c.sourceTime);
      }
    }
  }

  lemma {:induction false} LiveIsFold(changes: seq<Change>, t: int)
    ensures Live(Timeline(changes), t) == Fold(changes, t)
    decreases |changes|
  {
    hide EventOps, ApplyAllLive, Timed, Live;
    if changes == [] {
      assert Live([], t) == map[] by {
        NothingLive(t);
      }
    } else {
      var c := changes[|changes| - 1];
      LiveIsFold(changes[..|changes| - 1], t);
      LiveOps(Timeline(changes[..|changes| - 1]), EventOps(c), c.sourceTime, t);
    }
  }

  lemma NothingLive(t: int)
    ensures Live([], t) == map[]
  {
  }

  lemma {:induction false} TimelineTimes(changes: seq<Change>, t: int)
    requires forall c <- changes :: c.sourceTime <= t
    ensures forall x <- Timeline(changes) :: x.at <= t
    decreases |changes|
  {
    hide EventOps;
    if changes != [] {
      TimelineTimes(changes[..|changes| - 1], t);
      assert changes[|changes| - 1] in changes;
    }
  }

  lemma {:induction false} TimelineInOrder(changes: seq<Change>)
    requires InTimeOrder(changes)
    ensures Chronological(Timeline(changes))
    decreases |changes|
  {
    hide EventOps;
    if changes != [] {
      var n := |changes| - 1;
      var c := changes[n];
      TimelineInOrder(changes[..n]);
      TimelineTimes(changes[..n], c.sourceTime);
      assert c in changes;
      hide InTimeOrder;
      LaterOps(Timeline(changes[..n]), EventOps(c), c.sourceTime);
    }
  }

  lemma LaterOps(line: seq<TimedOp>, ops: seq<RowOp>, ts: int)
    requires Chronological(line) && (forall x <- line :: x.at <= ts) && ts <= MAX_TIMESTAMP
    ensures Chronological(line + Timed(ops, ts))
  {
    var all := line + Timed(ops, ts);
    forall i, j | 0 <= i <= j < |all| ensures all[i].at <= all[j].at {
      if i < |line| <= j {
        assert line[i] in line;
      }
    }
  }

  // ---- Read results ----

  /** Which rows a result names does not depend on the order in which they come. */
  lemma ExactlyReordered(a: seq<Doc>, b: seq<Doc>, m: map<RowKey, Row>)
    requires multiset(a) == multiset(b) && Exactly(a, m)
    ensures Exactly(b, m)
  {
    forall d ensures d in a <==> d in b {
      assert d in a <==> multiset(a)[d] > 0;
      assert d in b <==> multiset(b)[d] > 0;
    }
    forall i, j | 0 <= i < j < |b| ensures b[i].key != b[j].key {
      if b[i].key == b[j].key {
        SameKeySameDoc(a, b[i], b[j]);
        assert b == b[..i] + [b[i]] + b[i + 1..];
        assert b[j] in b[i + 1..];
        OnlyOnce(a, b[i]);
        assert false;
      }
    }
  }

  lemma SameKeySameDoc(a: seq<Doc>, d: Doc, e: Doc)
    requires forall i, j :: 0 <= i < j < |a| ==> a[i].key != a[j].key
    requires d in a && e in a && d.key == e.key
    ensures d == e
  {
  }

  lemma OnlyOnce(a: seq<Doc>, d: Doc)
    requires forall i, j :: 0 <= i < j < |a| ==> a[i].key != a[j].key
    ensures multiset(a)[d] <= 1
  {
    if d in a {
      var i :| 0 <= i < |a| && a[i] == d;
      assert a == a[..i] + [a[i]] + a[i + 1..];
    }
  }

  lemma SameReadsExactly(a: seq<Doc>, b: seq<Doc>, t: int, m: map<RowKey, Row>)
    requires SameReads(a, b)
    ensures Exactly(Find(a, t), m) <==> Exactly(Find(b, t), m)
  {
    assert multiset(Find(a, t)) == multiset(Find(b, t));
    hide Exactly;
    if Exactly(Find(a, t), m) {
      ExactlyReordered(Find(a, t), Find(b, t), m);
    }
    if Exactly(Find(b, t), m) {
      ExactlyReordered(Find(b, t), Find(a, t), m);
    }
  }

  // ---- The contexts behind the changes ----

  /** What the query reported for one source change, and what the event was stamped with. */
  datatype Source = Source(contexts: seq<QueryContext>, sequence: nat, sourceTime: int) {
    function Event(): Change {
      var l := Split(contexts);
      Change(sequence, sourceTime, l.added, l.updated, l.deleted)
    }
  }

  function Events(sources: seq<Source>): seq<Change> {
    if sources == [] then [] else Events(sources[..|sources| - 1]) + [sources[|sources| - 1].Event()]
  }

  /** The rows after the contexts of each source change up to t, one after the other. */
  function ContextFold(sources: seq<Source>, t: int): map<RowKey, Row> {
    if sources == [] then map[]
    else
      var s, before := sources[|sources| - 1], ContextFold(sources[..|sources| - 1], t);
      if s.sourceTime <= t then ApplyAllLive(before, InOrder(s.contexts, true)) else before
  }

  lemma {:induction false} FoldIsContextFold(sources: seq<Source>, t: int)
    requires forall s <- sources :: Separate(s.contexts, true)
    ensures Fold(Events(sources), t) == ContextFold(sources, t)
    decreases |sources|
  {
    hide EventOps, ApplyAllLive, InOrder, Split, Separate;
    if sources != [] {
      var n := |sources| - 1;
      var s, before := sources[n], Events(sources[..n]);
      assert s in sources;
      FoldIsContextFold(sources[..n], t);
      FoldSnoc(before, s.Event(), t);
      StoreOrderIsEventOps(Split(s.contexts), s.sequence, s.sourceTime);
      LiveRowsKept(Fold(before, t), s.contexts, true);
    }
  }

  // ---- The whole way ----

  /**
   The view is at rest: no attempt at an unacknowledged event is under way, as after each fresh
   acknowledgement and when there is none left; and no replay has ended harmfully.
   */
  ghost predicate CaughtUp(states: seq<VS.State>, steps: seq<VS.Step>, cfg: VS.Config, i: nat) {
    && VS.IsRun(states, steps, cfg) && i < |states| && !states[i].begun
    && forall j | 0 <= j < i :: !VS.HarmfulCut(states[j], steps[j])
  }

  lemma CaughtUpReads(states: seq<VS.State>, steps: seq<VS.Step>, cfg: VS.Config, i: nat)
    requires CaughtUp(states, steps, cfg, i)
    ensures var s := states[i];
            SameReads(s.docs, Run(cfg.policy, Timeline(SinceCleared(VS.Acknowledged(s)))))
  {
    hide VS.Inv, VS.Next, VS.Enabled, VS.Once, Run, Timeline, SinceCleared;
    VS.ExactlyOnceEffect(states, steps, cfg, i);
    OnceIsRun(cfg.policy, VS.Acknowledged(states[i]));
  }

  /** At each time, the reads of the collection show the rows alive on the line. */
  lemma SameTimes(docs: seq<Doc>, policy: RetentionPolicy, line: seq<TimedOp>)
    requires SameReads(docs, Run(policy, line)) && Chronological(line) && !policy.Latest?
    ensures (forall t | t <= MAX_TIMESTAMP :: Exactly(Find(docs, t), Live(line, t))) <==> KeepsHistory(policy, line)
  {
    hide *;
    TimeTravelExact(policy, line);
    if KeepsHistory(policy, line) {
      forall t | t <= MAX_TIMESTAMP ensures Exactly(Find(docs, t), Live(line, t)) {
        SameReadsExactly(docs, Run(policy, line), t, Live(line, t));
      }
    } else {
      var t :| t <= MAX_TIMESTAMP && !Exactly(Find(Run(policy, line), t), Live(line, t));
      SameReadsExactly(docs, Run(policy, line), t, Live(line, t));
    }
  }

  /**
   When the view has caught up, through whatever crashes, restarts and replays, reads at all times
   show the fold of the acknowledged changes up to that time, each row once, if and only if no write
   among them hit a row opened earlier.
   */
  lemma ReadsAreFolds(states: seq<VS.State>, steps: seq<VS.Step>, cfg: VS.Config, i: nat)
    requires CaughtUp(states, steps, cfg, i) && !cfg.policy.Latest?
    requires InTimeOrder(SinceCleared(VS.Acknowledged(states[i])))
    ensures var changes := SinceCleared(VS.Acknowledged(states[i]));
            (forall t | t <= MAX_TIMESTAMP :: Exactly(Find(states[i].docs, t), Fold(changes, t)))
            <==> KeepsHistory(cfg.policy, Timeline(changes))
  {
    CaughtUpReads(states, steps, cfg, i);
    var changes := SinceCleared(VS.Acknowledged(states[i]));
    TimelineInOrder(changes);
    hide *;
    SameTimes(states[i].docs, cfg.policy, Timeline(changes));
    forall t ensures Live(Timeline(changes), t) == Fold(changes, t) {
      LiveIsFold(changes, t);
    }
  }

  /** Under every policy, reads at or after all changes show the fold of all of them, in whatever order their times come. */
  lemma PresentIsFold(states: seq<VS.State>, steps: seq<VS.Step>, cfg: VS.Config, i: nat, t: int)
    requires CaughtUp(states, steps, cfg, i) && t <= MAX_TIMESTAMP
    requires forall c <- SinceCleared(VS.Acknowledged(states[i])) :: c.sourceTime <= t
    ensures Exactly(Find(states[i].docs, t), Fold(SinceCleared(VS.Acknowledged(states[i])), t))
  {
    CaughtUpReads(states, steps, cfg, i);
    var docs, changes := states[i].docs, SinceCleared(VS.Acknowledged(states[i]));
    var line := Timeline(changes);
    TimelineTimes(changes, t);
    hide *;
    PresentReads(cfg.policy, line, t);
    LiveIsFold(changes, t);
    SameReadsExactly(docs, Run(cfg.policy, line), t, Fold(changes, t));
  }

  /**
   The whole way: if the acknowledged changes were made from separate contexts, a read at any time of
   the caught-up view shows what the contexts up to that time, taken in the query's own order, leave
   alive, if and only if no write hit a row opened earlier.
   */
  lemma QueryToView(states: seq<VS.State>, steps: seq<VS.Step>, cfg: VS.Config, i: nat, sources: seq<Source>)
    requires CaughtUp(states, steps, cfg, i) && !cfg.policy.Latest?
    requires SinceCleared(VS.Acknowledged(states[i])) == Events(sources) && InTimeOrder(Events(sources))
    requires forall s <- sources :: Separate(s.contexts, true)
    ensures (forall t | t <= MAX_TIMESTAMP :: Exactly(Find(states[i].docs, t), ContextFold(sources, t)))
            <==> KeepsHistory(cfg.policy, Timeline(Events(sources)))
  {
    hide *;
    ReadsAreFolds(states, steps, cfg, i);
    forall t ensures Fold(Events(sources), t) == ContextFold(sources, t) {
      FoldIsContextFold(sources, t);
    }
  }

  // ---- What an overwrite loses ----

  function AddRow(sequence: nat, row: Row, ts: int): VS.Event {
    VS.CS.Entry(sequence, Some(ChangeEvent(Change(sequence, ts, [row], [], []))))
  }

  lemma AddRowOps(sequence: nat, row: Row, ts: int)
    ensures EventOps(Change(sequence, ts, [row], [], [])) == [PutOp(row)]
  {
  }

  function SameRowTwice(row: Row, t1: int, t2: int): seq<VS.Event> { [AddRow(1, row, t1), AddRow(2, row, t2)] }

  lemma SameRowTwiceChanges(row: Row, t1: int, t2: int)
    ensures SinceCleared(SameRowTwice(row, t1, t2)) ==
            [Change(1, t1, [row], [], [])] + [Change(2, t2, [row], [], [])]
  {
    hide EventOps;
    var e1 := AddRow(1, row, t1);
    assert SameRowTwice(row, t1, t2)[..1] == [e1] && [e1][..0] == [];
    assert SinceCleared([e1]) == [] + [VS.TheChange(e1)];
  }

  lemma SameRowTwiceTimeline(row: Row, t1: int, t2: int)
    ensures Timeline([Change(1, t1, [row], [], [])] + [Change(2, t2, [row], [], [])]) ==
            [TimedOp(PutOp(row), t1)] + [TimedOp(PutOp(row), t2)]
  {
    var c1, c2 := Change(1, t1, [row], [], []), Change(2, t2, [row], [], []);
    AddRowOps(1, row, t1);
    AddRowOps(2, row, t2);
    hide EventOps;
    SnocTimeline([], c1);
    SnocTimeline([c1], c2);
    assert [] + [c1] == [c1];
  }

  /**
   Two changes that add the same row: the second replaces the document of the first, and a read at the
   first one's time, which should show the row, finds nothing.
   */
  lemma SameRowTwiceLosesHistory(policy: RetentionPolicy, row: Row, t1: int, t2: int)
    requires t1 < t2 <= MAX_TIMESTAMP
    ensures var events := SameRowTwice(row, t1, t2);
            var changes := SinceCleared(events);
            && !KeepsHistory(policy, Timeline(changes))
            && Find(VS.Once(policy, events), t1) == [] && Fold(changes, t1) == map[row := row]
  {
    var c1, c2 := Change(1, t1, [row], [], []), Change(2, t2, [row], [], []);
    SameRowTwiceChanges(row, t1, t2);
    SameRowTwiceTimeline(row, t1, t2);
    OnceIsRun(policy, SameRowTwice(row, t1, t2));
    OverwrittenRun(policy, row, t1, t2);
    AddRowOps(1, row, t1);
    FoldSnoc([c1], c2, t1);
    FoldOne(c1, t1);
    OneLiveRow(row);
    hide EventOps, Timeline, SinceCleared, KeepsHistory, Find, Run, VS.Once, ApplyAllLive, SameRowTwice;
  }

  lemma RunSnoc(policy: RetentionPolicy, line: seq<TimedOp>, x: TimedOp)
    ensures Run(policy, []) == []
    ensures Run(policy, line + [x]) == ApplyOp(policy, Run(policy, line), x.op, x.at)
    ensures KeepsHistory(policy, line + [x]) <==> KeepsHistory(policy, line) && KeepsPast(Run(policy, line), x.op, x.at)
  {
    hide ApplyOp, KeepsPast;
    assert (line + [x])[..|line|] == line;
  }

  lemma Overwritten(policy: RetentionPolicy, row: Row, t1: int, t2: int)
    requires t1 < t2 <= MAX_TIMESTAMP
    ensures var docs := [Doc(row, row, t1, MAX_TIMESTAMP)];
            && ApplyOp(policy, [], PutOp(row), t1) == docs && !KeepsPast(docs, PutOp(row), t2)
            && Find(ApplyOp(policy, docs, PutOp(row), t2), t1) == []
  {
    OneDoc(Doc(row, row, t1, MAX_TIMESTAMP), t1);
    OneDoc(Doc(row, row, t2, MAX_TIMESTAMP), t1);
    assert FindOpen([], row) == None;
    hide FindOpen, Find;
    var docs := [Doc(row, row, t1, MAX_TIMESTAMP)];
    assert ApplyOp(policy, docs, PutOp(row), t2) == docs[0 := Doc(row, row, t2, MAX_TIMESTAMP)];
  }

  lemma OneDoc(d: Doc, t: int)
    requires d.Open()
    ensures FindOpen([d], d.key) == Some(0)
    ensures Find([d], t) == if d.VisibleAt(t) then [d] else []
  {
    assert [d][..0] == [] && Find([d][..0], t) == [];
  }

  lemma OverwrittenRun(policy: RetentionPolicy, row: Row, t1: int, t2: int)
    requires t1 < t2 <= MAX_TIMESTAMP
    ensures var line := [TimedOp(PutOp(row), t1)] + [TimedOp(PutOp(row), t2)];
            !KeepsHistory(policy, line) && Find(Run(policy, line), t1) == []
  {
    hide *;
    var one := [TimedOp(PutOp(row), t1)];
    assert [] + one == one;
    RunSnoc(policy, [], one[0]);
    RunSnoc(policy, one, TimedOp(PutOp(row), t2));
    Overwritten(policy, row, t1, t2);
  }

  lemma OneLiveRow(row: Row)
    ensures ApplyAllLive(map[], [PutOp(row)]) == map[row := row]
  {
    assert [PutOp(row)][..0] == [];
  }

  // ---- What get_view returns ----

  /** The rows are those of m, each once, in some order. */
  ghost predicate RowsShow(rows: seq<Row>, m: map<RowKey, Row>) {
    exists found: seq<Doc> ::
      |found| == |rows| && (forall i :: 0 <= i < |rows| ==> rows[i] == found[i].row) && Exactly(found, m)
  }

  lemma FoundShows(rows: seq<Row>, found: seq<Doc>, m: map<RowKey, Row>)
    requires |found| == |rows| && (forall i :: 0 <= i < |rows| ==> rows[i] == found[i].row) && Exactly(found, m)
    ensures RowsShow(rows, m)
  {
  }

  /** A change was acknowledged last. */
  predicate AfterChange(s: VS.State) {
    VS.Acknowledged(s) != [] && VS.IsChange(VS.Acknowledged(s)[|VS.Acknowledged(s)| - 1])
  }

  function LastChange(s: VS.State): Change
    requires AfterChange(s)
  {
    VS.TheChange(VS.Acknowledged(s)[|VS.Acknowledged(s)| - 1])
  }

  /**
   What the view endpoint returns while the view is at rest after a change: the header names that
   change, and the rows are the fold of the changes up to the earlier of its time and the requested
   one, for every requested time if no write hit a row opened earlier, and at any rate for one that is
   not before the last change.
   */
  method ReadView(worker: VW.Worker, timestamp: Option<nat>, now: nat, fault: ST.Fault,
                  ghost states: seq<VS.State>, ghost steps: seq<VS.Step>, ghost cfg: VS.Config, ghost i: nat)
    returns (r: Result<(ST.Header, seq<Row>), ST.ViewError>)
    requires CaughtUp(states, steps, cfg, i) && AfterChange(states[i])
    requires worker.Shows(states[i], states[i].stream.session)
    ensures var requested := if timestamp.Some? then timestamp.value else now;
            r.Success? <==>
              && states[i].policy.Some? && !fault.Hits(2)
              && (cfg.policy.Expire? ==> now - requested <= 1000 * cfg.policy.afterSeconds)
    ensures r.Success? ==>
              var requested := if timestamp.Some? then timestamp.value else now;
              var changes, c := SinceCleared(VS.Acknowledged(states[i])), LastChange(states[i]);
              && r.value.0.sequence == c.sequence && r.value.0.timestamp == c.sourceTime
              && (!cfg.policy.Latest? && InTimeOrder(changes) && KeepsHistory(cfg.policy, Timeline(changes)) ==>
                    && (requested <= c.sourceTime ==> RowsShow(r.value.1, Fold(changes, requested)))
                    && (c.sourceTime < requested ==> RowsShow(r.value.1, Fold(changes, c.sourceTime))))
              && (c.sourceTime <= requested && (forall c' <- changes :: c'.sourceTime <= c.sourceTime) ==>
                    RowsShow(r.value.1, Fold(changes, c.sourceTime)))
  {
    r := worker.store.GetView(worker.queryId, timestamp, now, fault);
    ghost var s, c := states[i], LastChange(states[i]);
    RestFacts(states, steps, cfg, i);
    hide CaughtUp, InTimeOrder, KeepsHistory, Timeline, SinceCleared, Fold, Find, RowsShow, LastChange, AfterChange;
    if r.Success? {
      RowsAtRest(states, steps, cfg, i, if timestamp.Some? then timestamp.value else now, r.value.1);
    }
  }

  /** What the rows of the documents valid at the earlier of two times amount to. */
  lemma RowsAtRest(states: seq<VS.State>, steps: seq<VS.Step>, cfg: VS.Config, i: nat, requested: int, rows: seq<Row>)
    requires CaughtUp(states, steps, cfg, i) && AfterChange(states[i]) && LastChange(states[i]).sourceTime <= MAX_TIMESTAMP
    requires var ts := LastChange(states[i]).sourceTime;
             var found := if requested <= ts then Find(states[i].docs, requested) else Find(states[i].docs, ts);
             |rows| == |found| && forall j :: 0 <= j < |found| ==> rows[j] == found[j].row
    ensures var changes, ts := SinceCleared(VS.Acknowledged(states[i])), LastChange(states[i]).sourceTime;
            && (!cfg.policy.Latest? && InTimeOrder(changes) && KeepsHistory(cfg.policy, Timeline(changes)) ==>
                  && (requested <= ts ==> RowsShow(rows, Fold(changes, requested)))
                  && (ts < requested ==> RowsShow(rows, Fold(changes, ts))))
            && (ts <= requested && (forall c <- changes :: c.sourceTime <= ts) ==> RowsShow(rows, Fold(changes, ts)))
  {
    hide VS.IsRun, InTimeOrder, KeepsHistory, Timeline, SinceCleared, Fold, Find, Exactly, RowsShow;
    var changes, ts := SinceCleared(VS.Acknowledged(states[i])), LastChange(states[i]).sourceTime;
    var at := if requested <= ts then requested else ts;
    if !cfg.policy.Latest? && InTimeOrder(changes) && KeepsHistory(cfg.policy, Timeline(changes)) {
      ReadsAreFolds(states, steps, cfg, i);
      FoundShows(rows, Find(states[i].docs, at), Fold(changes, at));
    }
    if ts <= requested && forall c <- changes :: c.sourceTime <= ts {
      PresentIsFold(states, steps, cfg, i, ts);
      FoundShows(rows, Find(states[i].docs, ts), Fold(changes, ts));
    }
  }

  /** Any lives from the start on lead to such a state, once no attempt is under way or the log is acknowledged. */
  lemma LivesCatchUp(s: VS.State, cfg: VS.Config, episodes: seq<VW.Episode>)
      returns (states: seq<VS.State>, steps: seq<VS.Step>)
    requires VS.Init(s) && cfg.limits.fetchBatchSize > 0
    requires var s' := VW.AfterEpisodes(s, cfg, episodes);
             !s'.tainted && (!s'.begun || |VS.Acknowledged(s')| == |s'.stream.group.log|)
    ensures CaughtUp(states, steps, cfg, |steps|) && states[|steps|] == VW.AfterEpisodes(s, cfg, episodes)
  {
    VW.EpisodesReach(s, cfg, episodes);
    steps :| VW.After(s, cfg, steps) == Some(VW.AfterEpisodes(s, cfg, episodes));
    states := VW.RunOf(s, cfg, steps);
    VS.NothingBegun(states, steps, cfg, |steps|);
    hide VS.IsRun, VS.Init, VS.HarmfulCut, VW.After, VW.AfterEpisodes;
    forall j | 0 <= j < |steps| ensures !VS.HarmfulCut(states[j], steps[j]) {
      if VS.HarmfulCut(states[j], steps[j]) {
        VS.HarmTaints(states, steps, cfg, j, |steps|);
      }
    }
  }

  /** At rest after a change: the metadata name it, and the policy is the configured one. */
  lemma RestFacts(states: seq<VS.State>, steps: seq<VS.Step>, cfg: VS.Config, i: nat)
    requires CaughtUp(states, steps, cfg, i) && AfterChange(states[i])
    ensures var s, c := states[i], LastChange(states[i]);
            && s.metadata.Some? && s.metadata.value.sequence == c.sequence && s.metadata.value.ts == c.sourceTime
            && c.sourceTime <= MAX_TIMESTAMP
            && (s.policy.Some? ==> s.policy.value == cfg.policy)
  {
    VS.RunKeeps(states, steps, cfg, i);
    VS.MetadataNamesLast(states, steps, cfg, i);
    VS.AcknowledgedTimely(states[i], cfg);
    var acked := VS.Acknowledged(states[i]);
    assert acked[|acked| - 1] in acked;
    hide VS.CS.Inv, VS.Sound, VS.Once;
  }

  // ---- From the result topic to the view ----

  /** What arrived in the topic, as the events that it was published with. */
  function Published(arrivals: seq<(QH.Entry, seq<QueryContext>)>, stamps: seq<(nat, int)>): seq<Source>
    requires |stamps| == |arrivals|
  {
    seq(|arrivals|, i requires 0 <= i < |arrivals| => Source(arrivals[i].1, stamps[i].0, stamps[i].1))
  }

  /**
   The two halves together. The query host stands at h, and the view, at rest with the topic's events
   acknowledged after those of a bootstrap, at states[i]. Then reads at all times show what the contexts
   leave alive that the query reported up to that time, if and only if no write hit a row opened earlier;
   and the contexts of each source change that the host has acknowledged are among them, unless there
   were none or they were refused.
   */
  lemma TopicToView(h: QH.State, queryId: string, limits: VS.CS.Limits, bootstrap: seq<Source>, stamps: seq<(nat, int)>,
                    states: seq<VS.State>, steps: seq<VS.Step>, cfg: VS.Config, i: nat)
    requires QH.Inv(h, queryId, limits) && |stamps| == |QL.Arrivals(h.history)|
    requires CaughtUp(states, steps, cfg, i) && !cfg.policy.Latest?
    requires var sources := bootstrap + Published(QL.Arrivals(h.history), stamps);
             && SinceCleared(VS.Acknowledged(states[i])) == Events(sources) && InTimeOrder(Events(sources))
             && forall s <- sources :: Separate(s.contexts, true)
    ensures var sources := bootstrap + Published(QL.Arrivals(h.history), stamps);
            (forall t | t <= MAX_TIMESTAMP :: Exactly(Find(states[i].docs, t), ContextFold(sources, t)))
            <==> KeepsHistory(cfg.policy, Timeline(Events(sources)))
    ensures forall e <- QH.Acknowledged(h) :: QH.Names(queryId, e) && QH.Delivered(h.history, e) ==>
              || QH.Ran(e, []) in h.history
              || exists k :: 0 <= k < |stamps| && QL.Arrivals(h.history)[k].0 == e
  {
    QueryToView(states, steps, cfg, i, bootstrap + Published(QL.Arrivals(h.history), stamps));
    hide CaughtUp, KeepsHistory, Events, Exactly, ContextFold, InTimeOrder, Separate, Timeline, SinceCleared;
    forall e | e in QH.Acknowledged(h) && QH.Names(queryId, e) && QH.Delivered(h.history, e)
      ensures || QH.Ran(e, []) in h.history
              || exists k :: 0 <= k < |stamps| && QL.Arrivals(h.history)[k].0 == e
    {
      DeliveredArrives(h.history, e);
    }
  }

  lemma DeliveredArrives(history: seq<QH.Trace>, e: QH.Entry)
    requires QH.Delivered(history, e)
    ensures var arrivals := QL.Arrivals(history);
            QH.Ran(e, []) in history || exists k :: 0 <= k < |arrivals| && arrivals[k].0 == e
  {
    hide QL.Arrivals;
    QL.ArrivalMembers(history, e);
    var d :| d in history && d.entry == e && d.Delivers();
    if d.Sent? {
      var arrivals := QL.Arrivals(history);
      var x :| x in arrivals && x.0 == e;
      var k :| 0 <= k < |arrivals| && arrivals[k] == x;
    } else {
      assert d == QH.Ran(e, []);
    }
  }
}
