/**
 The query worker's message loop on top of the change stream, over whole runs: which entries are
 acknowledged unprocessed, which only after their results were published, and what happens to an
 entry whose processing fails. The query engine is not modelled: each processing may report
 anything, or fail.
 */
module QueryHost {
  import opened Wrappers
  import opened Results
  import CS = ChangeStream

  datatype ChangeMessage = ChangeMessage(queries: seq<string>, change: Json) {
    predicate HasQuery(queryId: string) { queryId in queries }
  }

  type Entry = CS.Entry<ChangeMessage>

  /**
   The answer to a publication. Without one the worker takes it for failed, although it has arrived;
   any answer it takes for a success, whatever the status.
   */
  datatype Answer = Success | ErrorStatus(arrived: bool) | NoAnswer {
    predicate Arrived() { match this case ErrorStatus(arrived) => arrived case _ => true }
  }

  /** What the worker did for an entry: the query ran on it, or its results were sent. */
  datatype Trace =
    | Ran(entry: Entry, results: seq<QueryContext>)
    | Sent(entry: Entry, results: seq<QueryContext>, answer: Answer)
  {
    /** The worker has nothing left to do for the entry. */
    predicate Completes() { match this case Ran(_, results) => results == [] case Sent(_, _, answer) => !answer.NoAnswer? }

    /** The entry's results are where they belong, or there are none. */
    predicate Delivers() { match this case Ran(_, results) => results == [] case Sent(_, _, answer) => answer.Arrived() }
  }

  datatype State = State(
    stream: CS.State<ChangeMessage>,
    reported: seq<QueryContext>,  // results of the held entry that are still to be sent
    processed: bool,              // the held entry has been dealt with; its acknowledgement is due
    history: seq<Trace>)

  datatype Step =
    | Append(e: Entry)
    | Reader(step: CS.Step<ChangeMessage>)
    | Start
    | Crash
    | Receive
    | Skip                                      // the entry does not name this query
    | Process(results: seq<QueryContext>)       // the query reports results, or nothing
    | Send(answer: Answer)                      // the results are published; without an answer the life ends
    | Fail                                      // processing fails, or a publication that arrives nowhere: the life ends
    | Acked(reply: CS.Step<ChangeMessage>)
    | AckRefused

  function Slot(s: State): Option<Entry> {
    if s.stream.session.Some? then s.stream.session.value.unackItem else None
  }

  predicate Names(queryId: string, e: Entry) { e.data.Some? && e.data.value.HasQuery(queryId) }

  predicate Serving(s: State) { Slot(s).Some? && !s.processed }

  predicate Enabled(s: State, queryId: string, limits: CS.Limits, step: Step) {
    match step
    case Append(e) => CS.Enabled(s.stream, limits, CS.Append(e))
    case Reader(r) => (r.ReadPending? || r.ReadNew? || r.Push?) && CS.Enabled(s.stream, limits, r)
    case Start => CS.Enabled(s.stream, limits, CS.Open)
    case Crash => CS.Enabled(s.stream, limits, CS.Crash)
    case Receive => CS.Enabled(s.stream, limits, CS.Recv)
    case Skip => Serving(s) && !Names(queryId, Slot(s).value)
    case Process(_) => Serving(s) && Names(queryId, Slot(s).value) && s.reported == []
    case Send(_) => Serving(s) && s.reported != []
    case Fail => Serving(s) && Names(queryId, Slot(s).value)
    case Acked(r) => Slot(s).Some? && s.processed && (r.Ack? || r.AckUnanswered?)
    case AckRefused => Slot(s).Some? && s.processed
  }

  function EndSession(s: State): State {
    s.(stream := s.stream.(session := None), reported := [], processed := false)
  }

  function Next(s: State, queryId: string, limits: CS.Limits, step: Step): State
    requires Enabled(s, queryId, limits, step)
  {
    match step
    case Append(e) => s.(stream := CS.Next(s.stream, limits, CS.Append(e)))
    case Reader(r) => s.(stream := CS.Next(s.stream, limits, r))
    case Start => s.(stream := CS.Next(s.stream, limits, CS.Open), reported := [], processed := false)
    case Crash => EndSession(s)
    case Receive => s.(stream := CS.Next(s.stream, limits, CS.Recv), reported := [], processed := false)
    case Skip => s.(processed := true)
    case Process(results) =>
      s.(reported := results, processed := results == [], history := s.history + [Ran(Slot(s).value, results)])
    case Send(answer) =>
      var sent := s.(history := s.history + [Sent(Slot(s).value, s.reported, answer)]);
      if answer.NoAnswer? then EndSession(sent) else sent.(reported := [], processed := true)
    case Fail => EndSession(s)
    case Acked(r) => s.(stream := CS.Next(s.stream, limits, r), processed := false)
    case AckRefused => s.(processed := false)
  }

  predicate Init(s: State) { CS.Init(s.stream) && s == State(s.stream, [], false, []) }

  // ---- What is to be shown ----

  /** The entries that name the query. */
  function Named(queryId: string, entries: seq<Entry>): seq<Entry> {
    if entries == [] then []
    else
      var n := |entries| - 1;
      Named(queryId, entries[..n]) + if Names(queryId, entries[n]) then [entries[n]] else []
  }

  /** Entries with repetitions of one entry in a row taken as one. */
  function Collapse(entries: seq<Entry>): seq<Entry> {
    if entries == [] then []
    else
      var n := |entries| - 1;
      var before := Collapse(entries[..n]);
      if before != [] && before[|before| - 1] == entries[n] then before else before + [entries[n]]
  }

  /** The entries that were tried, or with `all` not set the completed ones, each as often as it was. */
  function Entries(history: seq<Trace>, all: bool): seq<Entry> {
    if history == [] then []
    else
      var h, before := history[|history| - 1], Entries(history[..|history| - 1], all);
      if all || h.Completes() then before + [h.entry] else before
  }

  /** Results are sent right after the query reported them, and only those. */
  ghost predicate WellFormed(history: seq<Trace>) {
    forall i :: 0 <= i < |history| && history[i].Sent? ==>
      i > 0 && history[i].results != [] && history[i - 1] == Ran(history[i].entry, history[i].results)
  }

  function Acknowledged(s: State): seq<Entry> { s.stream.group.acked }

  function Due(s: State): Option<Entry> {
    var g := s.stream.group;
    if |g.acked| < |g.log| then Some(g.log[|g.acked|]) else None
  }

  predicate Fresh(s: State) {
    s.stream.session.Some? && CS.Holds(s.stream.session.value, s.stream.group.pending)
  }

  predicate Stale(s: State) { Slot(s).Some? && !Fresh(s) }

  /** Work has kept up with the acknowledged entries, and is at most the due entry ahead. */
  predicate InStep(s: State, queryId: string, all: bool) {
    var done, named := Collapse(Entries(s.history, all)), Named(queryId, Acknowledged(s));
    || done == named
    || (Due(s).Some? && Names(queryId, Due(s).value) && done == named + [Due(s).value])
  }

  /** What is reported comes from the last thing done, a run on the held entry. */
  predicate ReportSound(s: State, queryId: string) {
    s.reported != [] ==>
      && Serving(s) && Names(queryId, Slot(s).value)
      && s.history != [] && s.history[|s.history| - 1] == Ran(Slot(s).value, s.reported)
  }

  ghost predicate Inv(s: State, queryId: string, limits: CS.Limits) {
    && CS.Inv(s.stream, limits)
    && WellFormed(s.history) && ReportSound(s, queryId)
    && InStep(s, queryId, true) && InStep(s, queryId, false)
    && (s.processed && Fresh(s) && Due(s).Some? && Names(queryId, Due(s).value) ==>
          forall all :: Collapse(Entries(s.history, all)) == Named(queryId, Acknowledged(s)) + [Due(s).value])
    && (Stale(s) ==> forall all :: Collapse(Entries(s.history, all)) == Named(queryId, Acknowledged(s)))
    && (s.processed && Slot(s).Some? && Names(queryId, Slot(s).value) ==>
          s.history != [] && Last(s.history).entry == Slot(s).value && Last(s.history).Completes())
  }

  function Last(history: seq<Trace>): Trace
    requires history != []
  {
    history[|history| - 1]
  }

  // ---- Lemmas on the lists ----

  lemma NamedSnoc(queryId: string, entries: seq<Entry>, e: Entry)
    ensures Named(queryId, entries + [e]) == Named(queryId, entries) + if Names(queryId, e) then [e] else []
  {
    assert (entries + [e])[..|entries|] == entries;
  }

  lemma {:induction false} NamedLast(queryId: string, entries: seq<Entry>)
    ensures forall e <- Named(queryId, entries) :: e in entries
    ensures entries != [] && Names(queryId, entries[|entries| - 1]) ==>
              Named(queryId, entries) != [] && Named(queryId, entries)[|Named(queryId, entries)| - 1] == entries[|entries| - 1]
    decreases |entries|
  {
    if entries != [] {
      NamedLast(queryId, entries[..|entries| - 1]);
    }
  }

  lemma CollapseSnoc(entries: seq<Entry>, e: Entry)
    ensures Collapse(entries + [e]) ==
            var before := Collapse(entries);
            if before != [] && before[|before| - 1] == e then before else before + [e]
  {
    assert (entries + [e])[..|entries|] == entries;
  }

  lemma EntriesSnoc(history: seq<Trace>, h: Trace, all: bool)
    ensures Entries(history + [h], all) ==
            if all || h.Completes() then Entries(history, all) + [h.entry] else Entries(history, all)
  {
    assert (history + [h])[..|history|] == history;
  }

  lemma DueIsNew(s: State, limits: CS.Limits)
    requires CS.Inv(s.stream, limits) && Due(s).Some?
    ensures Due(s).value !in Acknowledged(s)
  {
    var g := s.stream.group;
    assert CS.Segment(g.log, 0, g.acked);
    assert forall i :: 0 <= i < |g.acked| ==> g.acked[i] == g.log[i];
    assert CS.Increasing(g.log);
  }

  lemma SlotFacts(s: State, limits: CS.Limits)
    requires CS.Inv(s.stream, limits) && Slot(s).Some?
    ensures Fresh(s) ==> Due(s) == Slot(s)
    ensures !Fresh(s) ==> Acknowledged(s) != [] && Slot(s).value == Acknowledged(s)[|Acknowledged(s)| - 1]
  {
    CS.ServesNext(s.stream, limits);
  }

  // ---- Steps ----

  lemma StreamStep(s: State, queryId: string, limits: CS.Limits, step: Step)
    requires Inv(s, queryId, limits) && Enabled(s, queryId, limits, step) && limits.fetchBatchSize > 0
    requires step.Append? || step.Reader?
    ensures Inv(Next(s, queryId, limits, step), queryId, limits)
  {
    hide CS.Inv, CS.Next, CS.Enabled, Named, Collapse, Entries;
    var r := if step.Append? then CS.Append(step.e) else step.step;
    CS.QuietStep(s.stream, limits, r);
    CS.StepKeeps(s.stream, limits, r);
    if Due(s).Some? {
      assert Due(Next(s, queryId, limits, step)) == Due(s);
    } else if Slot(s).Some? {
      SlotFacts(s, limits);
    }
  }

  lemma EndKeeps(s: State, queryId: string, limits: CS.Limits)
    requires Inv(s, queryId, limits)
    ensures Inv(EndSession(s), queryId, limits)
  {
    hide Named, Collapse, Entries, CS.GroupInv, WellFormed;
  }

  lemma SessionStep(s: State, queryId: string, limits: CS.Limits, step: Step)
    requires Inv(s, queryId, limits) && Enabled(s, queryId, limits, step) && limits.fetchBatchSize > 0
    requires step.Start? || step.Receive?
    ensures Inv(Next(s, queryId, limits, step), queryId, limits)
  {
    hide CS.Inv, Named, Collapse, Entries, WellFormed;
    if step.Start? {
      CS.StepKeeps(s.stream, limits, CS.Open);
    } else {
      CS.StepKeeps(s.stream, limits, CS.Recv);
      CS.RecvEffect(s.stream, limits);
      hide CS.Next, CS.Enabled, CS.Holds;
    }
  }

  lemma SkipKeeps(s: State, queryId: string, limits: CS.Limits)
    requires Inv(s, queryId, limits) && Enabled(s, queryId, limits, Skip)
    ensures Inv(Next(s, queryId, limits, Skip), queryId, limits)
  {
    hide CS.Inv, CS.Holds, Named, Collapse, Entries, WellFormed;
    SlotFacts(s, limits);
  }

  lemma WorkSoFar(s: State, queryId: string, limits: CS.Limits, e: Entry, all: bool)
    requires Inv(s, queryId, limits) && Slot(s) == Some(e)
    ensures var done, named := Collapse(Entries(s.history, all)), Named(queryId, Acknowledged(s));
            if Fresh(s) then done == named || done == named + [e] else done == named
    ensures Fresh(s) ==> e !in Acknowledged(s)
    ensures !Fresh(s) ==> Acknowledged(s) != [] && Acknowledged(s)[|Acknowledged(s)| - 1] == e
  {
    SlotFacts(s, limits);
    hide CS.Inv, CS.Holds, Named, Collapse, Entries, WellFormed;
    if Fresh(s) {
      DueIsNew(s, limits);
    }
  }

  /** One more entry at the end of the work: the due one, or the last acknowledged one again. */
  lemma WorkGrows(s: State, queryId: string, limits: CS.Limits, h: Trace, all: bool)
    requires Inv(s, queryId, limits) && Slot(s) == Some(h.entry) && Names(queryId, h.entry) && (all || h.Completes())
    ensures Collapse(Entries(s.history + [h], all)) ==
            Named(queryId, Acknowledged(s)) + if Fresh(s) then [h.entry] else []
  {
    hide *;
    WorkSoFar(s, queryId, limits, h.entry, all);
    EntriesSnoc(s.history, h, all);
    CollapseSnoc(Entries(s.history, all), h.entry);
    NamedLast(queryId, Acknowledged(s));
  }

  lemma WellFormedSnoc(history: seq<Trace>, h: Trace)
    requires WellFormed(history)
    requires h.Sent? ==> history != [] && h.results != [] && history[|history| - 1] == Ran(h.entry, h.results)
    ensures WellFormed(history + [h])
  {
  }

  lemma ProcessKeeps(s: State, queryId: string, limits: CS.Limits, results: seq<QueryContext>)
    requires Inv(s, queryId, limits) && Enabled(s, queryId, limits, Process(results))
    ensures Inv(Next(s, queryId, limits, Process(results)), queryId, limits)
  {
    hide CS.Inv, CS.Holds, Named, Collapse, Entries, WellFormed;
    SlotFacts(s, limits);
    var h := Ran(Slot(s).value, results);
    WellFormedSnoc(s.history, h);
    WorkGrows(s, queryId, limits, h, true);
    if results == [] {
      WorkGrows(s, queryId, limits, h, false);
    } else {
      EntriesSnoc(s.history, h, false);
    }
  }

  lemma SendKeeps(s: State, queryId: string, limits: CS.Limits, answer: Answer)
    requires Inv(s, queryId, limits) && Enabled(s, queryId, limits, Send(answer))
    ensures Inv(Next(s, queryId, limits, Send(answer)), queryId, limits)
  {
    hide CS.Inv, CS.Holds, Named, Collapse, Entries, WellFormed;
    SlotFacts(s, limits);
    var h := Sent(Slot(s).value, s.reported, answer);
    WellFormedSnoc(s.history, h);
    WorkGrows(s, queryId, limits, h, true);
    if !answer.NoAnswer? {
      WorkGrows(s, queryId, limits, h, false);
    } else {
      EntriesSnoc(s.history, h, false);
      StreamEnds(s.stream, limits);
    }
  }

  lemma StreamEnds(stream: CS.State<ChangeMessage>, limits: CS.Limits)
    requires CS.Inv(stream, limits)
    ensures CS.Inv(stream.(session := None), limits)
  {
    hide CS.GroupInv;
  }

  lemma AckedKeeps(s: State, queryId: string, limits: CS.Limits, r: CS.Step<ChangeMessage>)
    requires Inv(s, queryId, limits) && Enabled(s, queryId, limits, Acked(r)) && limits.fetchBatchSize > 0
    ensures Inv(Next(s, queryId, limits, Acked(r)), queryId, limits)
    ensures Fresh(s) ==> Collapse(Entries(s.history, false)) == Named(queryId, Acknowledged(Next(s, queryId, limits, Acked(r))))
  {
    hide CS.Inv, CS.Next, CS.Holds, Named, Collapse, Entries, WellFormed;
    SlotFacts(s, limits);
    CS.AckEffect(s.stream, limits, r);
    CS.StepKeeps(s.stream, limits, r);
    if Fresh(s) {
      NamedSnoc(queryId, Acknowledged(s), Slot(s).value);
    }
  }

  lemma RefusedKeeps(s: State, queryId: string, limits: CS.Limits)
    requires Inv(s, queryId, limits) && Enabled(s, queryId, limits, AckRefused)
    ensures Inv(Next(s, queryId, limits, AckRefused), queryId, limits)
  {
    hide CS.Inv, CS.Holds, Named, Collapse, Entries, WellFormed;
  }

  lemma StepKeeps(s: State, queryId: string, limits: CS.Limits, step: Step)
    requires Inv(s, queryId, limits) && Enabled(s, queryId, limits, step) && limits.fetchBatchSize > 0
    ensures Inv(Next(s, queryId, limits, step), queryId, limits)
  {
    hide Inv;
    match step
    case Append(_) => StreamStep(s, queryId, limits, step);
    case Reader(_) => StreamStep(s, queryId, limits, step);
    case Start => SessionStep(s, queryId, limits, step);
    case Receive => SessionStep(s, queryId, limits, step);
    case Crash => EndKeeps(s, queryId, limits);
    case Fail => EndKeeps(s, queryId, limits);
    case Skip => SkipKeeps(s, queryId, limits);
    case Process(results) => ProcessKeeps(s, queryId, limits, results);
    case Send(answer) => SendKeeps(s, queryId, limits, answer);
    case Acked(r) => AckedKeeps(s, queryId, limits, r);
    case AckRefused => RefusedKeeps(s, queryId, limits);
  }

  // ---- Runs ----

  ghost predicate IsRun(states: seq<State>, steps: seq<Step>, queryId: string, limits: CS.Limits) {
    && limits.fetchBatchSize > 0
    && |states| == |steps| + 1 && Init(states[0])
    && forall i :: 0 <= i < |steps| ==>
         Enabled(states[i], queryId, limits, steps[i]) && states[i + 1] == Next(states[i], queryId, limits, steps[i])
  }

  lemma {:induction false} RunKeeps(states: seq<State>, steps: seq<Step>, queryId: string, limits: CS.Limits, i: nat)
    requires IsRun(states, steps, queryId, limits) && i < |states|
    ensures Inv(states[i], queryId, limits)
  {
    if i > 0 {
      hide Inv;
      RunKeeps(states, steps, queryId, limits, i - 1);
      StepKeeps(states[i - 1], queryId, limits, steps[i - 1]);
    }
  }

  lemma {:induction false} CollapseMembers(entries: seq<Entry>, e: Entry)
    ensures e in Collapse(entries) <==> e in entries
    decreases |entries|
  {
    if entries != [] {
      CollapseMembers(entries[..|entries| - 1], e);
    }
  }

  lemma {:induction false} EntriesMembers(history: seq<Trace>, e: Entry)
    ensures e in Entries(history, false) <==> exists h <- history :: h.Completes() && h.entry == e
    decreases |history|
  {
    if history != [] {
      var n := |history| - 1;
      EntriesMembers(history[..n], e);
      assert forall h <- history :: h in history[..n] || h == history[n];
      assert history[n] in history && forall h <- history[..n] :: h in history;
    }
  }

  lemma {:induction false} NamedMembers(queryId: string, entries: seq<Entry>, e: Entry)
    ensures e in Named(queryId, entries) <==> e in entries && Names(queryId, e)
    decreases |entries|
  {
    if entries != [] {
      NamedMembers(queryId, entries[..|entries| - 1], e);
    }
  }

  /** Each acknowledged entry that names the query was completed. */
  lemma AckedCompleted(s: State, queryId: string, limits: CS.Limits, e: Entry)
    requires Inv(s, queryId, limits) && e in Acknowledged(s) && Names(queryId, e)
    ensures exists h <- s.history :: h.Completes() && h.entry == e
  {
    hide CS.Inv, Named, Collapse, Entries, WellFormed, Fresh, Slot;
    NamedMembers(queryId, Acknowledged(s), e);
    CollapseMembers(Entries(s.history, false), e);
    EntriesMembers(s.history, e);
  }

  /**
   At every point of every run, the entries tried and the entries completed so far, repetitions
   aside, are the acknowledged entries that name the query, in log order, and possibly the next one.
   Each acknowledged one was completed: its results, right after the query reported them, were sent
   and answered for, or there were none.
   */
  lemma NoLostChange(states: seq<State>, steps: seq<Step>, queryId: string, limits: CS.Limits, i: nat)
    requires IsRun(states, steps, queryId, limits) && i < |states|
    ensures var s := states[i];
            && InStep(s, queryId, true) && InStep(s, queryId, false) && WellFormed(s.history)
            && forall e <- Acknowledged(s) :: Names(queryId, e) ==>
                 exists h <- s.history :: h.Completes() && h.entry == e
    ensures i > 0 && steps[i - 1].Acked? && Fresh(states[i - 1]) ==>
              Collapse(Entries(states[i].history, false)) == Named(queryId, Acknowledged(states[i]))
  {
    hide CS.Inv, CS.Next, CS.Enabled, CS.Holds, Named, Collapse, Entries, WellFormed;
    RunKeeps(states, steps, queryId, limits, i);
    var s := states[i];
    forall e | e in Acknowledged(s) && Names(queryId, e) ensures exists h <- s.history :: h.Completes() && h.entry == e {
      AckedCompleted(s, queryId, limits, e);
    }
    if i > 0 && steps[i - 1].Acked? {
      AckedHistory(states[i - 1], queryId, limits, steps[i - 1]);
      hide Inv, InStep, Next, Enabled, Fresh;
      RunKeeps(states, steps, queryId, limits, i - 1);
      AckedKeeps(states[i - 1], queryId, limits, steps[i - 1].reply);
    }
  }

  lemma AckedHistory(s: State, queryId: string, limits: CS.Limits, step: Step)
    requires Enabled(s, queryId, limits, step) && step.Acked?
    ensures Next(s, queryId, limits, step).history == s.history
  {
    hide CS.Next, CS.Enabled;
  }

  // ---- What an answer with an error status loses ----

  /** The results of some attempt at the entry have arrived, or some attempt had none. */
  predicate Delivered(history: seq<Trace>, e: Entry) {
    exists h <- history :: h.entry == e && h.Delivers()
  }

  /** Each acknowledged entry that names the query has its results in the result stream, or had none. */
  ghost predicate NothingLost(s: State, queryId: string) {
    forall e <- Acknowledged(s) :: Names(queryId, e) ==> Delivered(s.history, e)
  }

  /**
   The worker is about to acknowledge an entry whose publication was answered with an error status,
   did not arrive, and has not arrived in an earlier attempt either.
   */
  predicate Discards(s: State, queryId: string, step: Step) {
    && step.Acked? && Fresh(s) && Slot(s).Some? && Names(queryId, Slot(s).value)
    && s.history != [] && Last(s.history).Sent? && Last(s.history).answer == ErrorStatus(false)
    && forall i :: 0 <= i < |s.history| - 1 && s.history[i].entry == Slot(s).value ==> !s.history[i].Delivers()
  }

  lemma HistoryGrows(s: State, queryId: string, limits: CS.Limits, step: Step)
    requires Enabled(s, queryId, limits, step)
    ensures s.history <= Next(s, queryId, limits, step).history
  {
    hide CS.Next, CS.Enabled;
  }

  lemma DeliveredStays(history: seq<Trace>, later: seq<Trace>, e: Entry)
    requires history <= later && Delivered(history, e)
    ensures Delivered(later, e)
  {
    var h :| h in history && h.entry == e && h.Delivers();
    var i :| 0 <= i < |history| && history[i] == h;
    assert later[i] == h;
  }

  /** Only a fresh acknowledgement adds to what is acknowledged, and it adds the held entry. */
  lemma AckedGrows(s: State, queryId: string, limits: CS.Limits, step: Step)
    requires Inv(s, queryId, limits) && Enabled(s, queryId, limits, step)
    ensures Acknowledged(Next(s, queryId, limits, step)) ==
            if step.Acked? && Fresh(s) then Acknowledged(s) + [Slot(s).value] else Acknowledged(s)
    ensures step.Acked? && Fresh(s) ==> Slot(s).Some?
  {
    hide CS.Inv, CS.Holds, Named, Collapse, Entries, WellFormed;
    if step.Acked? {
      CS.AckEffect(s.stream, limits, step.reply);
      hide CS.Next;
    } else if step.Append? || step.Reader? {
      CS.QuietStep(s.stream, limits, if step.Append? then CS.Append(step.e) else step.step);
      hide CS.Next, CS.Enabled;
    } else if step.Receive? {
      CS.RecvEffect(s.stream, limits);
    }
  }

  /** What a fresh acknowledgement finds: the held entry was completed last, delivered unless discarded. */
  lemma FreshlyAcked(s: State, queryId: string, limits: CS.Limits, step: Step)
    requires Inv(s, queryId, limits) && Enabled(s, queryId, limits, step) && step.Acked? && Fresh(s)
    requires Names(queryId, Slot(s).value)
    ensures Discards(s, queryId, step) <==> !Delivered(s.history, Slot(s).value)
  {
    hide CS.Inv, CS.Holds, CS.Next, CS.Enabled, Named, Collapse, Entries, WellFormed;
    var e, h := Slot(s).value, Last(s.history);
    assert h in s.history;
    if !Delivered(s.history, e) {
      assert forall i :: 0 <= i < |s.history| ==> s.history[i] in s.history;
      assert !h.Delivers();
    } else {
      var d :| d in s.history && d.entry == e && d.Delivers();
      var i :| 0 <= i < |s.history| && s.history[i] == d;
    }
  }

  lemma LossStep(s: State, queryId: string, limits: CS.Limits, step: Step)
    requires Inv(s, queryId, limits) && Enabled(s, queryId, limits, step) && NothingLost(s, queryId)
    ensures NothingLost(Next(s, queryId, limits, step), queryId) <==> !Discards(s, queryId, step)
  {
    AckedGrows(s, queryId, limits, step);
    HistoryGrows(s, queryId, limits, step);
    if step.Acked? {
      AckedHistory(s, queryId, limits, step);
    }
    if step.Acked? && Fresh(s) && Names(queryId, Slot(s).value) {
      FreshlyAcked(s, queryId, limits, step);
    }
    hide Inv, Next, Enabled, Fresh, Slot, Delivered;
    var s' := Next(s, queryId, limits, step);
    forall e | e in Acknowledged(s) && Names(queryId, e) ensures Delivered(s'.history, e) {
      DeliveredStays(s.history, s'.history, e);
    }
    if step.Acked? && Fresh(s) {
      assert Slot(s).value in Acknowledged(s');
    }
  }

  /**
   In every state of a run each acknowledged entry that names the query has its results in the result
   stream, or had none, if and only if no entry was acknowledged whose publication was answered with
   an error status and had never arrived.
   */
  lemma NothingLostExact(states: seq<State>, steps: seq<Step>, queryId: string, limits: CS.Limits, i: nat)
    requires IsRun(states, steps, queryId, limits) && i < |states|
    ensures (forall j | 0 <= j <= i :: NothingLost(states[j], queryId))
            <==> (forall j | 0 <= j < i :: !Discards(states[j], queryId, steps[j]))
  {
    hide Inv, NothingLost, Discards, Next, Enabled, Init;
    if forall j | 0 <= j < i :: !Discards(states[j], queryId, steps[j]) {
      forall j | 0 <= j <= i ensures NothingLost(states[j], queryId) {
        NoDiscardKeeps(states, steps, queryId, limits, j);
      }
    } else {
      var j :| 0 <= j < i && Discards(states[j], queryId, steps[j]);
      if NothingLost(states[j], queryId) {
        RunKeeps(states, steps, queryId, limits, j);
        LossStep(states[j], queryId, limits, steps[j]);
        assert !NothingLost(states[j + 1], queryId);
      }
    }
  }

  lemma {:induction false} NoDiscardKeeps(states: seq<State>, steps: seq<Step>, queryId: string, limits: CS.Limits, i: nat)
    requires IsRun(states, steps, queryId, limits) && i < |states|
    requires forall j | 0 <= j < i :: !Discards(states[j], queryId, steps[j])
    ensures NothingLost(states[i], queryId)
  {
    hide Inv, Discards, Next, Enabled;
    if i > 0 {
      NoDiscardKeeps(states, steps, queryId, limits, i - 1);
      RunKeeps(states, steps, queryId, limits, i - 1);
      hide NothingLost;
      LossStep(states[i - 1], queryId, limits, steps[i - 1]);
    }
  }

  /** Without an answer with an error status in the whole run nothing is lost. */
  lemma SuccessLosesNothing(states: seq<State>, steps: seq<Step>, queryId: string, limits: CS.Limits, i: nat)
    requires IsRun(states, steps, queryId, limits) && i < |states|
    requires forall j | 0 <= j < i :: !(steps[j].Send? && steps[j].answer.ErrorStatus?)
    ensures NothingLost(states[i], queryId)
  {
    forall j | 0 <= j < i ensures !Discards(states[j], queryId, steps[j]) {
      AnswersKept(states, steps, queryId, limits, j);
    }
    hide NothingLost, Discards, Next, Enabled;
    NothingLostExact(states, steps, queryId, limits, i);
  }

  lemma {:induction false} AnswersKept(states: seq<State>, steps: seq<Step>, queryId: string, limits: CS.Limits, i: nat)
    requires IsRun(states, steps, queryId, limits) && i < |states|
    requires forall j | 0 <= j < i :: !(steps[j].Send? && steps[j].answer.ErrorStatus?)
    ensures forall h <- states[i].history :: !(h.Sent? && h.answer.ErrorStatus?)
  {
    hide CS.Next, CS.Enabled;
    if i > 0 {
      AnswersKept(states, steps, queryId, limits, i - 1);
      assert states[i] == Next(states[i - 1], queryId, limits, steps[i - 1]);
    }
  }

  // ---- A run that loses results ----

  function LossStepAt(e: Entry, results: seq<QueryContext>, i: nat): Step
    requires i < 9
  {
    if i == 0 then Append(e)
    else if i == 1 then Start
    else if i == 2 then Reader(CS.ReadPending)
    else if i == 3 then Reader(CS.ReadNew(1))
    else if i == 4 then Reader(CS.Push)
    else if i == 5 then Receive
    else if i == 6 then Process(results)
    else if i == 7 then Send(ErrorStatus(false))
    else Acked(CS.Step.Ack)
  }

  /** A change arrives, reports results, and is acknowledged although publishing them was refused. */
  function LossStateAt(e: Entry, results: seq<QueryContext>, i: nat): State {
    var logged, claimed, acked := CS.Group([e], 0, [], []), CS.Group([e], 1, [e], []), CS.Group([e], 1, [], [e]);
    var ran, sent := Ran(e, results), Sent(e, results, ErrorStatus(false));
    if i == 0 then State(CS.State(CS.Group([], 0, [], []), None), [], false, [])
    else if i == 1 then State(CS.State(logged, None), [], false, [])
    else if i == 2 then Waiting(logged, CS.OpenSession())
    else if i == 3 then Waiting(logged, CS.Session(CS.Following, [], [], None, []))
    else if i == 4 then Waiting(claimed, CS.Session(CS.Following, [e], [], None, []))
    else if i == 5 then Waiting(claimed, CS.Session(CS.Following, [], [e], None, []))
    else if i == 6 then Waiting(claimed, CS.Session(CS.Following, [], [], Some(e), []))
    else if i == 7 then Waiting(claimed, CS.Session(CS.Following, [], [], Some(e), [])).(
                          reported := results, history := [ran])
    else if i == 8 then Waiting(claimed, CS.Session(CS.Following, [], [], Some(e), [])).(
                          processed := true, history := [ran, sent])
    else Waiting(acked, CS.Session(CS.Following, [], [], None, [])).(history := [ran, sent])
  }

  function Waiting(g: CS.Group<ChangeMessage>, ss: CS.Session<ChangeMessage>): State {
    State(CS.State(g, Some(ss)), [], false, [])
  }

  ghost predicate LossStepTaken(e: Entry, results: seq<QueryContext>, queryId: string, limits: CS.Limits, i: nat)
    requires i < 9
  {
    && Enabled(LossStateAt(e, results, i), queryId, limits, LossStepAt(e, results, i))
    && LossStateAt(e, results, i + 1) == Next(LossStateAt(e, results, i), queryId, limits, LossStepAt(e, results, i))
  }

  lemma LossOpened(e: Entry, results: seq<QueryContext>, queryId: string, limits: CS.Limits)
    requires e.id > 0
    ensures LossStepTaken(e, results, queryId, limits, 0) && LossStepTaken(e, results, queryId, limits, 1)
    ensures LossStepTaken(e, results, queryId, limits, 2)
  {
    var nothing: seq<Entry> := [];
    assert nothing + [e] == [e] && CS.After(nothing, 0) == [];
  }

  lemma LossClaimed(e: Entry, results: seq<QueryContext>, queryId: string, limits: CS.Limits)
    requires limits.fetchBatchSize > 0
    ensures LossStepTaken(e, results, queryId, limits, 3)
  {
    hide CS.After, CS.Acknowledge;
    assert [e][0..1] == [e] && [] + [e] == [e];
  }

  lemma LossServed(e: Entry, results: seq<QueryContext>, queryId: string, limits: CS.Limits)
    requires Names(queryId, e) && limits.bufferSize > 0
    ensures LossStepTaken(e, results, queryId, limits, 4) && LossStepTaken(e, results, queryId, limits, 5)
  {
    hide CS.After, CS.Acknowledge, CS.Claim;
    assert [] + [e] == [e] && [e][1..] == [];
  }

  lemma LossProcessed(e: Entry, results: seq<QueryContext>, queryId: string, limits: CS.Limits)
    requires Names(queryId, e) && results != []
    ensures LossStepTaken(e, results, queryId, limits, 6) && LossStepTaken(e, results, queryId, limits, 7)
  {
    hide CS.Next, CS.Enabled;
    var ran, sent := Ran(e, results), Sent(e, results, ErrorStatus(false));
    assert [] + [ran] == [ran] && [ran] + [sent] == [ran, sent];
  }

  lemma LossAcked(e: Entry, results: seq<QueryContext>, queryId: string, limits: CS.Limits)
    ensures LossStepTaken(e, results, queryId, limits, 8)
  {
    hide CS.After;
    assert [e][..0] + [e][1..] == [] && CS.FindPending([e], e.id) == Some(0);
  }

  /** An error status is taken for a success: the entry is acknowledged, and its results are nowhere. */
  lemma ErrorStatusLosesResults(e: Entry, results: seq<QueryContext>, queryId: string, limits: CS.Limits)
      returns (states: seq<State>, steps: seq<Step>)
    requires e.id > 0 && Names(queryId, e) && results != [] && limits.bufferSize > 0 && limits.fetchBatchSize > 0
    ensures IsRun(states, steps, queryId, limits) && states != []
    ensures var last := states[|states| - 1];
            && Acknowledged(last) == last.stream.group.log == [e]
            && last.history == [Ran(e, results), Sent(e, results, ErrorStatus(false))]
            && !NothingLost(last, queryId)
  {
    states := seq(10, i requires 0 <= i < 10 => LossStateAt(e, results, i));
    steps := seq(9, i requires 0 <= i < 9 => LossStepAt(e, results, i));
    assert Init(LossStateAt(e, results, 0));
    LossOpened(e, results, queryId, limits);
    LossClaimed(e, results, queryId, limits);
    LossServed(e, results, queryId, limits);
    LossProcessed(e, results, queryId, limits);
    LossAcked(e, results, queryId, limits);
    forall i | 0 <= i < 9
      ensures Enabled(states[i], queryId, limits, steps[i]) && states[i + 1] == Next(states[i], queryId, limits, steps[i])
    {
      assert LossStepTaken(e, results, queryId, limits, i);
    }
    hide Enabled, Next, Init;
    assert e in [e];
  }

  /** An entry whose processing or publication fails stays pending, and the next life is served it first. */
  lemma FailedIsServedFirst(states: seq<State>, steps: seq<Step>, queryId: string, limits: CS.Limits, i: nat, step: Step)
    requires IsRun(states, steps, queryId, limits) && i < |states|
    requires (step == Fail || step == Send(NoAnswer)) && Enabled(states[i], queryId, limits, step) && Fresh(states[i])
    ensures var failed := Next(states[i], queryId, limits, step);
            var again := Next(failed, queryId, limits, Start);
            var unread := CS.Unread(again.stream.session.value, again.stream.group.pending);
            && failed.stream.group.pending != [] && failed.stream.group.pending[0] == Slot(states[i]).value
            && unread == failed.stream.group.pending
  {
    RunKeeps(states, steps, queryId, limits, i);
    var s := states[i];
    CS.ServesNext(s.stream, limits);
    CS.OpenFacts(s.stream.group);
    CS.PendingFacts(s.stream.group);
  }
}
