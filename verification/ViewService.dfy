/**
 The view worker on top of the change stream and the view store, over whole runs.

 The worker records an event and then acknowledges it. Recording can be cut off after any number of
 calls, the worker can end at any moment, an acknowledgement can fail, and every restart serves the
 unacknowledged entries again. The rows nevertheless are those of the acknowledged events applied
 once, in log order.

 The retention policy of the view is configured once. The collector is treated on its own.
 */
module ViewService {
  import opened Wrappers
  import opened Results
  import opened ViewCollection
  import opened ReplayAbsorption
  import CS = ChangeStream

  type Event = CS.Entry<ResultEvent>

  predicate Clears(e: Event) {
    e.data.Some? && e.data.value.ControlEvent?
    && (e.data.value.signal.BootstrapStarted? || e.data.value.signal.QueryDeleted?)
  }

  predicate IsChange(e: Event) { e.data.Some? && e.data.value.ChangeEvent? }

  /** The collection after each event has been processed exactly once, in order. */
  function Once(policy: RetentionPolicy, events: seq<Event>): seq<Doc> {
    if events == [] then [] else Process(policy, Once(policy, events[..|events| - 1]), events[|events| - 1])
  }

  function Process(policy: RetentionPolicy, docs: seq<Doc>, e: Event): seq<Doc> {
    if IsChange(e) then ApplyOps(policy, docs, EventOps(e.data.value.change), e.data.value.change.sourceTime)
    else if Clears(e) then []
    else docs
  }

  datatype State = State(
    stream: CS.State<ResultEvent>,
    policy: Option<RetentionPolicy>,   // the store's entry for this view; lost with the view
    docs: seq<Doc>,
    metadata: Option<Metadata>,
    processed: bool,                   // the held event has been processed; its acknowledgement is due
    tried: seq<RowOp>,                 // calls issued so far for the first unacknowledged event
    begun: bool,                       // an attempt at the first unacknowledged event has been made
    tainted: bool)                     // an event acknowledged unnoticed was served again, and cut off harmfully

  datatype Config = Config(policy: RetentionPolicy, limits: CS.Limits)

  datatype Step =
    | Append(e: Event)
    | Reader(step: CS.Step<ResultEvent>)   // a step of the background reader
    | Start                                // the worker starts: policy first, then a new session
    | Crash
    | Receive
    | CutOff(calls: nat, stored: bool)     // recording ends after some calls; `stored` says that the metadata were written
    | Reject                               // no policy: the change is not found, the worker ends with an error
    | Record
    | Drop                                 // the view is deleted
    | DropFails(dropped: bool)
    | SetState(stored: bool)               // for the other signals; a failure is ignored
    | Acked(reply: CS.Step<ResultEvent>)   // Ack or AckUnanswered
    | AckRefused

  function Slot(s: State): Option<Event> {
    if s.stream.session.Some? then s.stream.session.value.unackItem else None
  }

  predicate Serving(s: State) { Slot(s).Some? && !s.processed }

  function TheChange(e: Event): Change
    requires IsChange(e)
  {
    e.data.value.change
  }

  predicate Enabled(s: State, cfg: Config, step: Step) {
    match step
    case Append(e) =>
      && CS.Enabled(s.stream, cfg.limits, CS.Append(e))
      && (IsChange(e) ==> TheChange(e).sourceTime <= MAX_TIMESTAMP)
    case Reader(r) => (r.ReadPending? || r.ReadNew? || r.Push?) && CS.Enabled(s.stream, cfg.limits, r)
    case Start => CS.Enabled(s.stream, cfg.limits, CS.Open)
    case Crash => CS.Enabled(s.stream, cfg.limits, CS.Crash)
    case Receive => CS.Enabled(s.stream, cfg.limits, CS.Recv)
    case CutOff(n, stored) =>
      && Serving(s) && IsChange(Slot(s).value) && s.policy.Some? && n <= |EventOps(TheChange(Slot(s).value))|
      && (stored ==> n == |EventOps(TheChange(Slot(s).value))|)
    case Reject => Serving(s) && IsChange(Slot(s).value) && s.policy.None?
    case Record => Serving(s) && IsChange(Slot(s).value) && s.policy.Some?
    case Drop => Serving(s) && Clears(Slot(s).value)
    case DropFails(_) => Serving(s) && Clears(Slot(s).value)
    case SetState(_) => Serving(s) && !IsChange(Slot(s).value) && !Clears(Slot(s).value)
    case Acked(r) => Slot(s).Some? && s.processed && (r.Ack? || r.AckUnanswered?)
    case AckRefused => Slot(s).Some? && s.processed
  }

  /** The metadata that recording a change stores; the state stays as it was. */
  function StoredFor(c: Change, metadata: Option<Metadata>): Option<Metadata> {
    Some(Metadata(c.sequence, c.sourceTime, if metadata.Some? then metadata.value.state else None))
  }

  function StateFor(e: Event, metadata: Option<Metadata>): Option<Metadata> {
    match e.data
    case Some(ControlEvent(sequence, sourceTime, signal)) => Some(Metadata(sequence, sourceTime, Some(Display(signal))))
    case _ => metadata
  }

  function EndSession(s: State): State {
    s.(stream := s.stream.(session := None), processed := false)
  }

  /** Whether the held event is still unacknowledged in Redis. */
  predicate Fresh(s: State) {
    s.stream.session.Some? && CS.Holds(s.stream.session.value, s.stream.group.pending)
  }

  ghost function Next(s: State, cfg: Config, step: Step): State
    requires Enabled(s, cfg, step)
  {
    match step
    case Append(e) => s.(stream := CS.Next(s.stream, cfg.limits, CS.Append(e)))
    case Reader(r) => s.(stream := CS.Next(s.stream, cfg.limits, r))
    case Start => s.(stream := CS.Next(s.stream, cfg.limits, CS.Open), policy := Some(cfg.policy), processed := false)
    case Crash => EndSession(s)
    case Receive => s.(stream := CS.Next(s.stream, cfg.limits, CS.Recv), processed := false)
    case CutOff(n, stored) =>
      var c := TheChange(Slot(s).value);
      var ops := EventOps(c);
      EndSession(s.(
        docs := ApplyOps(s.policy.value, s.docs, ops[..n], c.sourceTime),
        metadata := if stored then StoredFor(c, s.metadata) else s.metadata,
        tried := if Fresh(s) then s.tried + ops[..n] else s.tried,
        begun := s.begun || Fresh(s),
        tainted := s.tainted || (!Fresh(s) && !Harmless(ops[..n], ops))))
    case Reject => EndSession(s)
    case Record =>
      var c := TheChange(Slot(s).value);
      s.(docs := ApplyOps(s.policy.value, s.docs, EventOps(c), c.sourceTime),
         metadata := StoredFor(c, s.metadata),
         tried := if Fresh(s) then s.tried + EventOps(c) else s.tried,
         begun := s.begun || Fresh(s),
         processed := true)
    case Drop => s.(policy := None, docs := [], metadata := None, begun := s.begun || Fresh(s), processed := true)
    case DropFails(dropped) =>
      EndSession(s.(policy := None, docs := if dropped then [] else s.docs,
                    metadata := if dropped then None else s.metadata, begun := s.begun || Fresh(s)))
    case SetState(stored) =>
      s.(metadata := if stored then StateFor(Slot(s).value, s.metadata) else s.metadata,
         begun := s.begun || Fresh(s), processed := true)
    case Acked(r) =>
      s.(stream := CS.Next(s.stream, cfg.limits, r), processed := false, tried := if Fresh(s) then [] else s.tried,
         begun := s.begun && !Fresh(s))
    case AckRefused => s.(processed := false)
  }

  predicate Init(s: State) {
    CS.Init(s.stream) && s == State(s.stream, None, [], None, false, [], false, false)
  }

  // ---- The invariant ----

  function Acknowledged(s: State): seq<Event> { s.stream.group.acked }

  /** The first event that is not acknowledged, if the log has one. */
  function DueIn(g: CS.Group<ResultEvent>): Option<Event> {
    if |g.acked| < |g.log| then Some(g.log[|g.acked|]) else None
  }

  function Due(s: State): Option<Event> { DueIn(s.stream.group) }

  /** The rows: the acknowledged events once, then what attempts at the due event have done. */
  ghost predicate Rows(docs: seq<Doc>, tried: seq<RowOp>, acked: seq<Event>, due: Option<Event>, policy: RetentionPolicy) {
    var base := Once(policy, acked);
    if due.Some? && IsChange(due.value) then
      var c := TheChange(due.value);
      Absorbed(tried, EventOps(c)) && SameView(docs, ApplyOps(policy, base, tried, c.sourceTime))
    else
      tried == [] && (SameView(docs, base) || (due.Some? && Clears(due.value) && docs == []))
  }

  ghost predicate RowsSound(s: State, policy: RetentionPolicy) {
    Rows(s.docs, s.tried, Acknowledged(s), Due(s), policy)
  }

  /** All calls of e have been issued, and last. */
  ghost predicate Completed(tried: seq<RowOp>, e: seq<RowOp>) {
    forall k: RowKey :: LastOp(tried, k) == LastOp(e, k)
  }

  ghost predicate ProcessedSound(s: State) {
    s.processed && Fresh(s) && Due(s).Some? ==>
      && (IsChange(Due(s).value) ==> Completed(s.tried, EventOps(TheChange(Due(s).value))))
      && (Clears(Due(s).value) ==> s.docs == [])
  }

  /** The held event is acknowledged in Redis, but the worker was not told. */
  predicate Stale(s: State) { Slot(s).Some? && !Fresh(s) }

  ghost predicate Settled(s: State, policy: RetentionPolicy) {
    s.tried == [] && SameView(s.docs, Once(policy, Acknowledged(s)))
  }

  ghost predicate Timely(log: seq<Event>) {
    forall e <- log :: IsChange(e) ==> TheChange(e).sourceTime <= MAX_TIMESTAMP
  }

  ghost predicate Sound(s: State, policy: RetentionPolicy) {
    && RowsSound(s, policy)
    && ProcessedSound(s)
    && (!s.begun ==> Settled(s, policy))
  }

  ghost predicate Inv(s: State, cfg: Config) {
    && CS.Inv(s.stream, cfg.limits)
    && Timely(s.stream.group.log)
    && OneOpen(s.docs)
    && (s.policy.Some? ==> s.policy.value == cfg.policy)
    && (s.begun ==> Due(s).Some? && !Stale(s))
    && (!s.tainted ==> Sound(s, cfg.policy))
  }

  // ---- Views compared ----

  lemma SameViewTrans(a: seq<Doc>, b: seq<Doc>, c: seq<Doc>)
    requires SameView(a, b) && SameView(b, c)
    ensures SameView(a, c)
  {
    forall k: RowKey ensures OpenDoc(a, k) == OpenDoc(c, k) {
      assert OpenDoc(a, k) == OpenDoc(b, k);
    }
    forall d: Doc | !d.Open() && d.NonEmpty() ensures multiset(a)[d] == multiset(c)[d] {
      assert multiset(a)[d] == multiset(b)[d];
    }
  }

  lemma SameViewAfter(policy: RetentionPolicy, a: seq<Doc>, b: seq<Doc>, ops: seq<RowOp>, ts: int)
    requires OneOpen(a) && OneOpen(b) && SameView(a, b) && ts <= MAX_TIMESTAMP
    ensures SameView(ApplyOps(policy, a, ops, ts), ApplyOps(policy, b, ops, ts))
  {
    SameBatches(policy, a, b, ops, ops, ts);
  }

  lemma {:induction false} OnceOneOpen(policy: RetentionPolicy, events: seq<Event>)
    requires Timely(events)
    ensures OneOpen(Once(policy, events))
    decreases |events|
  {
    if events != [] {
      var n := |events| - 1;
      OnceOneOpen(policy, events[..n]);
      if IsChange(events[n]) {
        OneOpenKept(policy, Once(policy, events[..n]), EventOps(TheChange(events[n])), TheChange(events[n]).sourceTime);
      }
    }
  }

  lemma OnceSnoc(policy: RetentionPolicy, events: seq<Event>, e: Event)
    ensures Once(policy, events + [e]) == Process(policy, Once(policy, events), e)
  {
    assert (events + [e])[..|events|] == events;
  }

  /** The first n calls of an event again, over its own effect. */
  lemma PartReplay(policy: RetentionPolicy, base: seq<Doc>, e: seq<RowOp>, n: nat, ts: int)
    requires OneOpen(base) && ts <= MAX_TIMESTAMP && n <= |e|
    ensures SameView(ApplyOps(policy, ApplyOps(policy, base, e, ts), e[..n], ts), ApplyOps(policy, base, e, ts))
            <==> Harmless(e[..n], e)
  {
    AttemptAbsorbed([], e, n);
    assert [] + e[..n] == e[..n];
    AbandonedView(policy, base, e, e[..n], ts);
  }

  // ---- Facts about the held event ----

  lemma SlotFacts(s: State, cfg: Config)
    requires Inv(s, cfg) && Slot(s).Some?
    ensures Fresh(s) ==> Due(s) == Slot(s)
    ensures !Fresh(s) ==> Acknowledged(s) != [] && Slot(s).value == Acknowledged(s)[|Acknowledged(s)| - 1]
    ensures IsChange(Slot(s).value) ==> TheChange(Slot(s).value).sourceTime <= MAX_TIMESTAMP
    ensures Timely(Acknowledged(s))
  {
    CS.ServesNext(s.stream, cfg.limits);
    AcknowledgedTimely(s, cfg);
    hide CS.Inv;
    var g := s.stream.group;
    assert Fresh(s) ==> Slot(s).value in g.log;
    assert !Fresh(s) ==> Slot(s).value in g.log;
  }

  lemma HeldIsSlot(s: State)
    ensures Fresh(s) ==> Slot(s).Some?
  {
  }

  lemma AcknowledgedTimely(s: State, cfg: Config)
    requires Inv(s, cfg)
    ensures Timely(Acknowledged(s))
    ensures Due(s).Some? && IsChange(Due(s).value) ==> TheChange(Due(s).value).sourceTime <= MAX_TIMESTAMP
  {
    var g := s.stream.group;
    assert CS.Segment(g.log, 0, g.acked);
    forall e | e in g.acked ensures e in g.log {
      var i :| 0 <= i < |g.acked| && g.acked[i] == e;
      assert g.log[i] == e;
    }
  }

  lemma SettledIsSound(s: State, policy: RetentionPolicy)
    requires Settled(s, policy) && !s.processed
    ensures Sound(s, policy)
  {
    if Due(s).Some? && IsChange(Due(s).value) {
      assert ApplyOps(policy, Once(policy, Acknowledged(s)), [], TheChange(Due(s).value).sourceTime)
          == Once(policy, Acknowledged(s));
    }
  }

  // ---- Steps ----

  lemma StreamStep(s: State, cfg: Config, step: Step)
    requires Inv(s, cfg) && Enabled(s, cfg, step) && cfg.limits.fetchBatchSize > 0
    requires step.Append? || step.Reader?
    ensures Inv(Next(s, cfg, step), cfg)
  {
    hide SameView, Absorbed, Completed, Once, CS.Inv, CS.Next, CS.Enabled, OneOpen, CS.Holds, EventOps;
    var r := if step.Append? then CS.Append(step.e) else step.step;
    CS.QuietStep(s.stream, cfg.limits, r);
    CS.StepKeeps(s.stream, cfg.limits, r);
    var s' := Next(s, cfg, step);
    assert Timely(s'.stream.group.log) by {
      if step.Append? {
        AppendedLog(s, cfg, step.e);
      }
    }
    if !s.tainted {
      if Due(s).Some? {
        assert Due(s') == Due(s);
      } else {
        assert Settled(s', cfg.policy);
        HeldIsSlot(s);
        assert !Fresh(s) by {
          if Slot(s).Some? {
            SlotFacts(s, cfg);
          }
        }
        SettledIsSound(s'.(processed := false), cfg.policy);
      }
    }
  }

  lemma AppendedLog(s: State, cfg: Config, e: Event)
    requires Timely(s.stream.group.log) && Enabled(s, cfg, Append(e))
    ensures Timely(CS.Next(s.stream, cfg.limits, CS.Append(e)).group.log)
  {
  }

  lemma EndKeeps(s: State, cfg: Config)
    requires CS.Inv(s.stream, cfg.limits)
    ensures CS.Inv(EndSession(s).stream, cfg.limits)
    ensures !Fresh(EndSession(s)) && !Stale(EndSession(s))
  {
    hide CS.GroupInv, CS.Bound;
  }

  lemma StartKeeps(s: State, cfg: Config)
    requires Inv(s, cfg) && Enabled(s, cfg, Start) && cfg.limits.fetchBatchSize > 0
    ensures Inv(Next(s, cfg, Start), cfg)
  {
    hide Rows, SameView, Once, Timely, CS.Inv, OneOpen;
    CS.StepKeeps(s.stream, cfg.limits, CS.Open);
  }

  lemma ReceiveKeeps(s: State, cfg: Config)
    requires Inv(s, cfg) && Enabled(s, cfg, Receive) && cfg.limits.fetchBatchSize > 0
    ensures Inv(Next(s, cfg, Receive), cfg)
  {
    hide Rows, SameView, Once, Timely, CS.Inv, CS.Next, OneOpen, CS.Holds;
    CS.StepKeeps(s.stream, cfg.limits, CS.Recv);
    CS.RecvEffect(s.stream, cfg.limits);
  }

  lemma EndingKeeps(s: State, cfg: Config, step: Step)
    requires Inv(s, cfg) && Enabled(s, cfg, step) && (step.Crash? || step.Reject?)
    ensures Inv(Next(s, cfg, step), cfg)
  {
    hide Rows, SameView, Once, OneOpen, Timely, Fresh, CS.Inv;
    EndKeeps(s, cfg);
  }

  lemma SetStateKeeps(s: State, cfg: Config, step: Step)
    requires Inv(s, cfg) && Enabled(s, cfg, step) && (step.SetState? || step.AckRefused?)
    ensures Inv(Next(s, cfg, step), cfg)
  {
    hide Rows, SameView, Once, Timely, CS.Inv, OneOpen, CS.Holds, Completed;
    SlotFacts(s, cfg);
  }

  /** Attempts at the due event, complete or not. */
  lemma AttemptKeeps(s: State, cfg: Config, n: nat)
    requires Inv(s, cfg) && !s.tainted && Fresh(s) && Slot(s).Some? && IsChange(Slot(s).value)
    requires n <= |EventOps(TheChange(Slot(s).value))|
    ensures var c := TheChange(Slot(s).value);
            && Absorbed(s.tried + EventOps(c)[..n], EventOps(c))
            && SameView(ApplyOps(cfg.policy, s.docs, EventOps(c)[..n], c.sourceTime),
                        ApplyOps(cfg.policy, Once(cfg.policy, Acknowledged(s)), s.tried + EventOps(c)[..n], c.sourceTime))
            && OneOpen(ApplyOps(cfg.policy, s.docs, EventOps(c)[..n], c.sourceTime))
  {
    hide SameView, Absorbed, CS.Inv, CS.Holds, OneOpen, Once;
    SlotFacts(s, cfg);
    var c, base := TheChange(Slot(s).value), Once(cfg.policy, Acknowledged(s));
    var ops, ts := EventOps(c), c.sourceTime;
    hide EventOps;
    OnceOneOpen(cfg.policy, Acknowledged(s));
    OneOpenKept(cfg.policy, base, s.tried, ts);
    OneOpenKept(cfg.policy, s.docs, ops[..n], ts);
    AttemptAbsorbed(s.tried, ops, n);
    ApplyOpsConcat(cfg.policy, base, s.tried, ops[..n], ts);
    SameViewAfter(cfg.policy, s.docs, ApplyOps(cfg.policy, base, s.tried, ts), ops[..n], ts);
  }

  /** A replay of the last acknowledged event. */
  lemma StaleReplay(s: State, cfg: Config, n: nat)
    requires Inv(s, cfg) && !s.tainted && Stale(s) && IsChange(Slot(s).value)
    requires n <= |EventOps(TheChange(Slot(s).value))|
    requires Harmless(EventOps(TheChange(Slot(s).value))[..n], EventOps(TheChange(Slot(s).value)))
    ensures var c := TheChange(Slot(s).value);
            SameView(ApplyOps(cfg.policy, s.docs, EventOps(c)[..n], c.sourceTime), Once(cfg.policy, Acknowledged(s)))
  {
    hide SameView, Absorbed, Harmless, CS.Inv, CS.Holds, OneOpen, Once;
    SlotFacts(s, cfg);
    var acked, c := Acknowledged(s), TheChange(Slot(s).value);
    var ops, ts := EventOps(c), c.sourceTime;
    hide EventOps;
    var last := |acked| - 1;
    var base0 := Once(cfg.policy, acked[..last]);
    assert acked == acked[..last] + [acked[last]];
    OnceSnoc(cfg.policy, acked[..last], acked[last]);
    OnceOneOpen(cfg.policy, acked[..last]);
    OnceOneOpen(cfg.policy, acked);
    PartReplay(cfg.policy, base0, ops, n, ts);
    SameViewAfter(cfg.policy, s.docs, Once(cfg.policy, acked), ops[..n], ts);
    SameViewTrans(ApplyOps(cfg.policy, s.docs, ops[..n], ts),
                  ApplyOps(cfg.policy, Once(cfg.policy, acked), ops[..n], ts),
                  Once(cfg.policy, acked));
  }

  lemma CutOffKeeps(s: State, cfg: Config, n: nat, stored: bool)
    requires Inv(s, cfg) && Enabled(s, cfg, CutOff(n, stored))
    ensures Inv(Next(s, cfg, CutOff(n, stored)), cfg)
  {
    hide SameView, Absorbed, Completed, Harmless, Once, CS.Inv, CS.Holds, OneOpen;
    var s', c := Next(s, cfg, CutOff(n, stored)), TheChange(Slot(s).value);
    var ops := EventOps(c);
    hide EventOps;
    SlotFacts(s, cfg);
    EndKeeps(s, cfg);
    OneOpenKept(cfg.policy, s.docs, ops[..n], c.sourceTime);
    if !s'.tainted {
      if Fresh(s) {
        AttemptKeeps(s, cfg, n);
      } else {
        StaleReplay(s, cfg, n);
        SettledIsSound(s', cfg.policy);
      }
    }
  }

  lemma RecordKeeps(s: State, cfg: Config)
    requires Inv(s, cfg) && Enabled(s, cfg, Record)
    ensures Inv(Next(s, cfg, Record), cfg)
  {
    hide SameView, Absorbed, Completed, Harmless, Once, CS.Inv, CS.Holds, OneOpen;
    var s', c := Next(s, cfg, Record), TheChange(Slot(s).value);
    var ops := EventOps(c);
    assert ops[..|ops|] == ops;
    SlotFacts(s, cfg);
    OneOpenKept(cfg.policy, s.docs, ops, c.sourceTime);
    if !s.tainted {
      if Fresh(s) {
        AttemptKeeps(s, cfg, |ops|);
        AttemptCompletes(s.tried, ops);
      } else {
        HarmlessWhole(ops);
        StaleReplay(s, cfg, |ops|);
        SettledIsSound(s'.(processed := false), cfg.policy);
      }
    }
  }

  lemma HarmlessWhole(ops: seq<RowOp>)
    ensures Harmless(ops[..|ops|], ops)
  {
    assert ops[..|ops|] == ops;
  }

  lemma AttemptCompletes(s: seq<RowOp>, e: seq<RowOp>)
    requires Absorbed(s, e)
    ensures Completed(s + e, e)
  {
    forall k: RowKey ensures LastOp(s + e, k) == LastOp(e, k) {
      LastOpConcat(s, e, k);
      TouchedBoth(s, k);
      TouchedBoth(e, k);
    }
  }

  /** A view deleted for an acknowledged event is the empty one. */
  lemma StaleClear(s: State, cfg: Config)
    requires Inv(s, cfg) && Stale(s) && Clears(Slot(s).value)
    ensures Once(cfg.policy, Acknowledged(s)) == []
  {
    hide SameView, Absorbed, CS.Inv, OneOpen, EventOps;
    SlotFacts(s, cfg);
    var acked, last := Acknowledged(s), |Acknowledged(s)| - 1;
    assert acked == acked[..last] + [acked[last]];
    OnceSnoc(cfg.policy, acked[..last], acked[last]);
  }

  lemma DropKeeps(s: State, cfg: Config, step: Step)
    requires Inv(s, cfg) && Enabled(s, cfg, step) && (step.Drop? || step.DropFails?)
    ensures Inv(Next(s, cfg, step), cfg)
  {
    hide SameView, Absorbed, Completed, CS.Inv, CS.Holds, OneOpen, EventOps, Once;
    SlotFacts(s, cfg);
    EndKeeps(s, cfg);
    EmptyViews();
    if !s.tainted && !Fresh(s) {
      StaleClear(s, cfg);
      SettledIsSound(Next(s, cfg, step).(processed := false), cfg.policy);
    }
  }

  lemma EmptyViews()
    ensures SameView([], []) && OneOpen([])
  {
  }

  lemma AckedKeeps(s: State, cfg: Config, r: CS.Step<ResultEvent>)
    requires Inv(s, cfg) && Enabled(s, cfg, Acked(r)) && cfg.limits.fetchBatchSize > 0
    ensures Inv(Next(s, cfg, Acked(r)), cfg)
    ensures !s.tainted && Fresh(s) ==> Settled(Next(s, cfg, Acked(r)), cfg.policy)
  {
    hide SameView, Absorbed, Completed, CS.Inv, CS.Next, CS.Holds, OneOpen, Once;
    SlotFacts(s, cfg);
    CS.AckEffect(s.stream, cfg.limits, r);
    CS.StepKeeps(s.stream, cfg.limits, r);
    var s', base := Next(s, cfg, Acked(r)), Once(cfg.policy, Acknowledged(s));
    if !s.tainted {
      if Fresh(s) {
        var e := Slot(s).value;
        OnceSnoc(cfg.policy, Acknowledged(s), e);
        if IsChange(e) {
          var ops, ts := EventOps(TheChange(e)), TheChange(e).sourceTime;
          OnceOneOpen(cfg.policy, Acknowledged(s));
          CompletedAttempts(cfg.policy, base, s.tried, ops, ts);
          SameViewTrans(s.docs, ApplyOps(cfg.policy, base, s.tried, ts), ApplyOps(cfg.policy, base, ops, ts));
        } else if Clears(e) {
          EmptyViews();
        }
        SettledIsSound(s', cfg.policy);
      } else {
        assert Due(s') == Due(s);
      }
    }
  }

  lemma CompletedAttempts(policy: RetentionPolicy, base: seq<Doc>, tried: seq<RowOp>, ops: seq<RowOp>, ts: int)
    requires OneOpen(base) && Absorbed(tried, ops) && Completed(tried, ops) && ts <= MAX_TIMESTAMP
    ensures SameView(ApplyOps(policy, base, tried, ts), ApplyOps(policy, base, ops, ts))
  {
    SameBatches(policy, base, base, tried, ops, ts);
  }

  lemma StepKeeps(s: State, cfg: Config, step: Step)
    requires Inv(s, cfg) && Enabled(s, cfg, step) && cfg.limits.fetchBatchSize > 0
    ensures Inv(Next(s, cfg, step), cfg)
  {
    hide Inv;
    match step
    case Append(_) => StreamStep(s, cfg, step);
    case Reader(_) => StreamStep(s, cfg, step);
    case CutOff(n, stored) => CutOffKeeps(s, cfg, n, stored);
    case Record => RecordKeeps(s, cfg);
    case Drop => DropKeeps(s, cfg, step);
    case DropFails(_) => DropKeeps(s, cfg, step);
    case Acked(r) => AckedKeeps(s, cfg, r);
    case Start => StartKeeps(s, cfg);
    case Receive => ReceiveKeeps(s, cfg);
    case Crash => EndingKeeps(s, cfg, step);
    case Reject => EndingKeeps(s, cfg, step);
    case SetState(_) => SetStateKeeps(s, cfg, step);
    case AckRefused => SetStateKeeps(s, cfg, step);
  }

  // ---- Runs ----

  ghost predicate IsRun(states: seq<State>, steps: seq<Step>, cfg: Config) {
    && cfg.limits.fetchBatchSize > 0
    && |states| == |steps| + 1 && Init(states[0])
    && forall i :: 0 <= i < |steps| ==>
         Enabled(states[i], cfg, steps[i]) && states[i + 1] == Next(states[i], cfg, steps[i])
  }

  lemma InitSound(s: State, cfg: Config)
    requires Init(s)
    ensures Inv(s, cfg)
  {
    assert Settled(s, cfg.policy);
    SettledIsSound(s, cfg.policy);
  }

  lemma {:induction false} RunKeeps(states: seq<State>, steps: seq<Step>, cfg: Config, i: nat)
    requires IsRun(states, steps, cfg) && i < |states|
    ensures Inv(states[i], cfg)
  {
    hide Inv;
    if i == 0 {
      InitSound(states[0], cfg);
    } else {
      RunKeeps(states, steps, cfg, i - 1);
      StepKeeps(states[i - 1], cfg, steps[i - 1]);
    }
  }

  /** The rows at every timestamp are those of the acknowledged events, each applied once. */
  ghost predicate ExactlyOnce(s: State, cfg: Config) {
    SameReads(s.docs, Once(cfg.policy, Acknowledged(s)))
  }

  lemma SettledReads(s: State, cfg: Config)
    requires Inv(s, cfg) && Settled(s, cfg.policy)
    ensures ExactlyOnce(s, cfg)
  {
    AcknowledgedTimely(s, cfg);
    OnceOneOpen(cfg.policy, Acknowledged(s));
    forall t ensures multiset(Find(s.docs, t)) == multiset(Find(Once(cfg.policy, Acknowledged(s)), t)) {
      SameViewReads(s.docs, Once(cfg.policy, Acknowledged(s)), t);
    }
  }

  /** A replay of the last acknowledged event ends, and some key it touched is not as the event leaves it. */
  ghost predicate HarmfulCut(s: State, step: Step) {
    && step.CutOff? && Stale(s) && IsChange(Slot(s).value)
    && var ops := EventOps(TheChange(Slot(s).value));
       step.calls <= |ops| && !Harmless(ops[..step.calls], ops)
  }

  lemma TaintStep(s: State, cfg: Config, step: Step)
    requires Enabled(s, cfg, step)
    ensures Next(s, cfg, step).tainted <==> s.tainted || HarmfulCut(s, step)
  {
    hide Harmless, EventOps, ApplyOps, CS.Next, CS.Enabled;
  }

  lemma {:induction false} NoHarmNoTaint(states: seq<State>, steps: seq<Step>, cfg: Config, i: nat)
    requires IsRun(states, steps, cfg) && i < |states|
    requires forall j | 0 <= j < i :: !HarmfulCut(states[j], steps[j])
    ensures !states[i].tainted
  {
    hide HarmfulCut, Next, Enabled;
    if i > 0 {
      NoHarmNoTaint(states, steps, cfg, i - 1);
      TaintStep(states[i - 1], cfg, steps[i - 1]);
    }
  }

  lemma {:induction false} HarmTaints(states: seq<State>, steps: seq<Step>, cfg: Config, j: nat, i: nat)
    requires IsRun(states, steps, cfg) && j < i < |states| && HarmfulCut(states[j], steps[j])
    ensures states[i].tainted
    decreases i
  {
    hide HarmfulCut, Next, Enabled;
    TaintStep(states[i - 1], cfg, steps[i - 1]);
    if j < i - 1 {
      HarmTaints(states, steps, cfg, j, i - 1);
    }
  }

  /** The first harmful end of a replay. */
  lemma {:induction false} FirstHarm(states: seq<State>, steps: seq<Step>, cfg: Config, i: nat) returns (j: nat)
    requires IsRun(states, steps, cfg) && i < |steps| && HarmfulCut(states[i], steps[i])
    ensures j <= i && HarmfulCut(states[j], steps[j]) && !states[j].tainted
  {
    hide HarmfulCut, Next, Enabled;
    if k: nat :| k < i && HarmfulCut(states[k], steps[k]) {
      j := FirstHarm(states, steps, cfg, k);
    } else {
      j := i;
      NoHarmNoTaint(states, steps, cfg, i);
    }
  }

  /** Just after a fresh acknowledgement, and when the whole log is acknowledged, no attempt is under way. */
  lemma NothingBegun(states: seq<State>, steps: seq<Step>, cfg: Config, i: nat)
    requires IsRun(states, steps, cfg) && i < |states|
    ensures i > 0 && steps[i - 1].Acked? && Fresh(states[i - 1]) ==> !states[i].begun
    ensures |Acknowledged(states[i])| == |states[i].stream.group.log| ==> !states[i].begun
  {
    hide CS.Inv, CS.Next, CS.Holds, Sound, Timely, OneOpen;
    RunKeeps(states, steps, cfg, i);
  }

  /**
   Whenever no attempt at an unacknowledged event is under way, so in particular after a fresh
   acknowledgement and when the whole log is acknowledged, the effect is exactly once. The runs include
   every interruption, restart, refused acknowledgement and replay.
   */
  lemma ExactlyOnceEffect(states: seq<State>, steps: seq<Step>, cfg: Config, i: nat)
    requires IsRun(states, steps, cfg) && i < |states|
    requires forall j | 0 <= j < i :: !HarmfulCut(states[j], steps[j])
    requires || !states[i].begun
             || (i > 0 && steps[i - 1].Acked? && Fresh(states[i - 1]))
             || |Acknowledged(states[i])| == |states[i].stream.group.log|
    ensures ExactlyOnce(states[i], cfg)
  {
    NothingBegun(states, steps, cfg, i);
    NoHarmNoTaint(states, steps, cfg, i);
    RunKeeps(states, steps, cfg, i);
    RestIsSettled(states[i], cfg);
    hide *;
    SettledReads(states[i], cfg);
  }

  lemma RestIsSettled(s: State, cfg: Config)
    requires Inv(s, cfg) && !s.tainted && !s.begun
    ensures Settled(s, cfg.policy)
  {
    hide CS.Inv, Settled, Rows, Timely, OneOpen;
  }

  /**
   Over whole runs: whenever no attempt is under way the effect is exactly once, if and only if no
   replay of an event acknowledged unnoticed ended harmfully.
   */
  lemma ExactlyOnceExact(states: seq<State>, steps: seq<Step>, cfg: Config, i: nat)
    requires IsRun(states, steps, cfg) && i < |states|
    ensures (forall j | 0 <= j <= i && !states[j].begun :: ExactlyOnce(states[j], cfg))
            <==> (forall j | 0 <= j < i :: !HarmfulCut(states[j], steps[j]))
  {
    if forall j | 0 <= j < i :: !HarmfulCut(states[j], steps[j]) {
      hide HarmfulCut, ExactlyOnce, Next, Enabled;
      forall j | 0 <= j <= i && !states[j].begun ensures ExactlyOnce(states[j], cfg) {
        ExactlyOnceEffect(states, steps, cfg, j);
      }
    } else {
      var k :| 0 <= k < i && HarmfulCut(states[k], steps[k]);
      var j := FirstHarm(states, steps, cfg, k);
      RunKeeps(states, steps, cfg, j);
      HarmSeen(states, steps, cfg, j);
      hide HarmfulCut, ExactlyOnce, Inv, Next, Enabled;
      assert !states[j + 1].begun && !ExactlyOnce(states[j + 1], cfg);
    }
  }

  /** A replay of an event acknowledged unnoticed is no attempt at the next one. */
  lemma StaleNotBegun(s: State, cfg: Config, n: nat, stored: bool)
    requires Inv(s, cfg) && Stale(s) && Enabled(s, cfg, CutOff(n, stored))
    ensures !Next(s, cfg, CutOff(n, stored)).begun
  {
    hide CS.Inv, Sound, Timely, OneOpen, Harmless, EventOps, ApplyOps;
  }

  lemma HarmSeen(states: seq<State>, steps: seq<Step>, cfg: Config, j: nat)
    requires IsRun(states, steps, cfg) && j < |steps| && HarmfulCut(states[j], steps[j]) && !states[j].tainted
    ensures !states[j + 1].begun && !ExactlyOnce(states[j + 1], cfg)
  {
    var CutOff(n, stored) := steps[j];
    RunKeeps(states, steps, cfg, j);
    StaleNotBegun(states[j], cfg, n, stored);
    UnnoticedAckExact(states, steps, cfg, j, n, stored);
    hide Inv, Next, Enabled, Harmless, EventOps, ExactlyOnce;
  }

  // ---- What the metadata name ----

  predicate NamesChange(metadata: Option<Metadata>, e: Event) {
    IsChange(e) && metadata.Some?
    && metadata.value.sequence == TheChange(e).sequence && metadata.value.ts == TheChange(e).sourceTime
  }

  predicate MetadataSound(s: State) {
    && (s.processed && Slot(s).Some? && Fresh(s) && IsChange(Slot(s).value) ==> NamesChange(s.metadata, Slot(s).value))
    && var acked := Acknowledged(s);
       (!s.begun && acked != [] && IsChange(acked[|acked| - 1]) ==> NamesChange(s.metadata, acked[|acked| - 1]))
  }

  lemma MetadataQuiet(s: State, cfg: Config, step: Step)
    requires Inv(s, cfg) && Enabled(s, cfg, step) && MetadataSound(s)
    requires step.Append? || step.Reader? || step.Start? || step.Crash? || step.Receive? || step.Reject? || step.AckRefused?
    ensures MetadataSound(Next(s, cfg, step))
  {
    hide CS.Inv, CS.Holds, Sound, OneOpen, Timely, EventOps, ApplyOps;
    if step.Append? || step.Reader? {
      CS.QuietStep(s.stream, cfg.limits, if step.Append? then CS.Append(step.e) else step.step);
      hide CS.Next, CS.Enabled;
    } else if step.Receive? {
      CS.RecvEffect(s.stream, cfg.limits);
      hide CS.Next, CS.Enabled;
    }
  }

  lemma MetadataWorks(s: State, cfg: Config, step: Step)
    requires Inv(s, cfg) && Enabled(s, cfg, step) && MetadataSound(s)
    requires step.CutOff? || step.Record? || step.Drop? || step.DropFails? || step.SetState?
    ensures MetadataSound(Next(s, cfg, step))
  {
    SlotFacts(s, cfg);
    hide CS.Inv, CS.Holds, Sound, OneOpen, Timely, EventOps, ApplyOps, Harmless;
  }

  lemma AckedFacts(s: State, cfg: Config, r: CS.Step<ResultEvent>)
    requires Inv(s, cfg) && Enabled(s, cfg, Acked(r))
    ensures var s' := Next(s, cfg, Acked(r));
            && Acknowledged(s') == (if Fresh(s) then Acknowledged(s) + [Slot(s).value] else Acknowledged(s))
            && s'.metadata == s.metadata && !s'.processed && s'.begun == (s.begun && !Fresh(s))
  {
    hide CS.Inv, Sound, OneOpen, Timely;
    CS.AckEffect(s.stream, cfg.limits, r);
    hide CS.Holds, CS.Next;
  }

  lemma MetadataAcked(s: State, cfg: Config, r: CS.Step<ResultEvent>)
    requires Inv(s, cfg) && Enabled(s, cfg, Acked(r)) && MetadataSound(s)
    ensures MetadataSound(Next(s, cfg, Acked(r)))
  {
    AckedFacts(s, cfg, r);
    AckNeedsWork(s, cfg, r);
    hide Inv, Next, Enabled, Fresh, Slot, IsChange, NamesChange;
  }

  lemma AckNeedsWork(s: State, cfg: Config, r: CS.Step<ResultEvent>)
    requires Enabled(s, cfg, Acked(r))
    ensures Slot(s).Some? && s.processed
  {
    hide CS.Enabled;
  }

  lemma MetadataStep(s: State, cfg: Config, step: Step)
    requires Inv(s, cfg) && Enabled(s, cfg, step) && MetadataSound(s)
    ensures MetadataSound(Next(s, cfg, step))
  {
    hide Inv, MetadataSound, Next, Enabled;
    match step
    case Acked(r) => MetadataAcked(s, cfg, r);
    case CutOff(_, _) => MetadataWorks(s, cfg, step);
    case Record => MetadataWorks(s, cfg, step);
    case Drop => MetadataWorks(s, cfg, step);
    case DropFails(_) => MetadataWorks(s, cfg, step);
    case SetState(_) => MetadataWorks(s, cfg, step);
    case _ => MetadataQuiet(s, cfg, step);
  }

  /** Whenever no attempt is under way and a change was acknowledged last, the metadata name that change. */
  lemma {:induction false} MetadataNamesLast(states: seq<State>, steps: seq<Step>, cfg: Config, i: nat)
    requires IsRun(states, steps, cfg) && i < |states|
    ensures MetadataSound(states[i])
  {
    if i > 0 {
      MetadataNamesLast(states, steps, cfg, i - 1);
      RunKeeps(states, steps, cfg, i - 1);
      hide Inv, MetadataSound, Next, Enabled;
      MetadataStep(states[i - 1], cfg, steps[i - 1]);
    } else {
      assert Acknowledged(states[0]) == [];
    }
  }

  // ---- The excluded step ----

  lemma CutOffView(s: State, cfg: Config, n: nat, stored: bool)
    requires Inv(s, cfg) && !s.tainted && Stale(s) && Enabled(s, cfg, CutOff(n, stored))
    ensures var ops := EventOps(TheChange(Slot(s).value));
            SameView(Next(s, cfg, CutOff(n, stored)).docs, Once(cfg.policy, Acknowledged(s))) <==> Harmless(ops[..n], ops)
  {
    SlotFacts(s, cfg);
    var acked, c := Acknowledged(s), TheChange(Slot(s).value);
    var ops, ts := EventOps(c), c.sourceTime;
    hide SameView, Absorbed, Harmless, CS.Inv, CS.Holds, OneOpen, Once, EventOps;
    var last := |acked| - 1;
    var base0, base := Once(cfg.policy, acked[..last]), Once(cfg.policy, acked);
    assert acked == acked[..last] + [acked[last]];
    OnceSnoc(cfg.policy, acked[..last], acked[last]);
    OnceOneOpen(cfg.policy, acked[..last]);
    OnceOneOpen(cfg.policy, acked);
    PartReplay(cfg.policy, base0, ops, n, ts);
    var cut, cutBase := ApplyOps(cfg.policy, s.docs, ops[..n], ts), ApplyOps(cfg.policy, base, ops[..n], ts);
    SameViewAfter(cfg.policy, s.docs, base, ops[..n], ts);
    SameViewSym(cut, cutBase);
    if SameView(cut, base) {
      SameViewTrans(cutBase, cut, base);
    }
    if SameView(cutBase, base) {
      SameViewTrans(cut, cutBase, base);
    }
  }

  lemma {:induction false} OnceDated(policy: RetentionPolicy, events: seq<Event>)
    requires Timely(events)
    ensures Dated(Once(policy, events))
    decreases |events|
  {
    hide Dated;
    if events == [] {
      EmptyDated();
    } else {
      var n := |events| - 1;
      OnceDated(policy, events[..n]);
      ProcessDated(policy, Once(policy, events[..n]), events[n]);
    }
  }

  lemma EmptyDated()
    ensures Dated([])
  {
  }

  lemma ProcessDated(policy: RetentionPolicy, docs: seq<Doc>, e: Event)
    requires Dated(docs) && (IsChange(e) ==> TheChange(e).sourceTime <= MAX_TIMESTAMP)
    ensures Dated(Process(policy, docs, e))
  {
    EmptyDated();
    hide Dated, EventOps;
    if IsChange(e) {
      DatedKept(policy, docs, EventOps(TheChange(e)), TheChange(e).sourceTime);
    }
  }

  lemma StepDated(s: State, cfg: Config, step: Step)
    requires Inv(s, cfg) && Enabled(s, cfg, step) && Dated(s.docs)
    ensures Dated(Next(s, cfg, step).docs)
  {
    EmptyDated();
    hide Dated, EventOps, CS.Inv, CS.Next, CS.Holds, OneOpen, Sound, ApplyOps;
    if step.CutOff? || step.Record? {
      SlotFacts(s, cfg);
      var c := TheChange(Slot(s).value);
      DatedKept(s.policy.value, s.docs, if step.CutOff? then EventOps(c)[..step.calls] else EventOps(c), c.sourceTime);
    }
  }

  lemma {:induction false} RunDated(states: seq<State>, steps: seq<Step>, cfg: Config, i: nat)
    requires IsRun(states, steps, cfg) && i < |states|
    ensures Dated(states[i].docs)
  {
    hide Inv, Dated, Next, Enabled;
    if i == 0 {
      EmptyDated();
    } else {
      RunDated(states, steps, cfg, i - 1);
      RunKeeps(states, steps, cfg, i - 1);
      StepDated(states[i - 1], cfg, steps[i - 1]);
    }
  }

  /**
   The excluded step, exactly: ending a replay of the last acknowledged event after n calls keeps
   every read right if and only if each key that these calls touched ends as the event leaves it.
   */
  lemma UnnoticedAckExact(states: seq<State>, steps: seq<Step>, cfg: Config, i: nat, n: nat, stored: bool)
    requires IsRun(states, steps, cfg) && i < |states| && !states[i].tainted && Stale(states[i])
    requires Enabled(states[i], cfg, CutOff(n, stored))
    ensures var s, s' := states[i], Next(states[i], cfg, CutOff(n, stored));
            var ops := EventOps(TheChange(Slot(s).value));
            (ExactlyOnce(s', cfg) <==> Harmless(ops[..n], ops)) && (s'.tainted <==> !Harmless(ops[..n], ops))
  {
    var s, s' := states[i], Next(states[i], cfg, CutOff(n, stored));
    RunKeeps(states, steps, cfg, i);
    RunDated(states, steps, cfg, i);
    CutOffTaints(s, cfg, n, stored);
    CutOffView(s, cfg, n, stored);
    CutOffKeeps(s, cfg, n, stored);
    StepDated(s, cfg, CutOff(n, stored));
    InvParts(s, cfg);
    InvParts(s', cfg);
    hide *;
    SameViewExact(s'.docs, Once(cfg.policy, Acknowledged(s)));
  }

  lemma InvParts(s: State, cfg: Config)
    requires Inv(s, cfg)
    ensures OneOpen(s.docs) && OneOpen(Once(cfg.policy, Acknowledged(s))) && Dated(Once(cfg.policy, Acknowledged(s)))
  {
    hide CS.Inv, Sound, OneOpen, Dated, Timely;
    AcknowledgedTimely(s, cfg);
    OnceOneOpen(cfg.policy, Acknowledged(s));
    OnceDated(cfg.policy, Acknowledged(s));
  }

  lemma CutOffTaints(s: State, cfg: Config, n: nat, stored: bool)
    requires !s.tainted && Stale(s) && Enabled(s, cfg, CutOff(n, stored))
    ensures var ops, s' := EventOps(TheChange(Slot(s).value)), Next(s, cfg, CutOff(n, stored));
            Acknowledged(s') == Acknowledged(s) && (s'.tainted <==> !Harmless(ops[..n], ops))
  {
    hide Harmless, EventOps, ApplyOps;
  }

  // ---- A run that loses a row ----

  /** An update that closes and reopens one key. */
  datatype Regrouping = Regrouping(before: Row, after: Row, keys: seq<string>, ts: int) {
    function Key(): RowKey { HashGroupingValues(after, keys) }

    function Ops(): seq<RowOp> { [Close(Key()), Put(Key(), after)] }

    function TheEvent(): Event {
      CS.Entry(1, Some(ChangeEvent(Change(1, ts, [], [UpdatePayload(Some(before), Some(after), Some(keys))], []))))
    }

    function Written(): Doc { Doc(Key(), after, ts, MAX_TIMESTAMP) }

    predicate Valid() {
      ts < MAX_TIMESTAMP && HashGroupingValues(before, keys) == HashGroupingValues(after, keys)
    }
  }

  lemma RegroupingEvent(r: Regrouping)
    requires r.Valid()
    ensures IsChange(r.TheEvent()) && r.TheEvent().id == 1 && TheChange(r.TheEvent()).sourceTime == r.ts
    ensures TheChange(r.TheEvent()).sequence == 1
    ensures EventOps(TheChange(r.TheEvent())) == r.Ops() && |r.Ops()| == 2
  {
    var u := UpdatePayload(Some(r.before), Some(r.after), Some(r.keys));
    assert UpdateOp(u) == r.Ops();
    assert [u][..0] == [];
    assert UpdateOps([u]) == UpdateOps([u][..0]) + UpdateOp(u);
  }

  lemma RegroupingDocs(r: Regrouping, policy: RetentionPolicy)
    requires r.Valid()
    ensures ApplyOps(policy, [], r.Ops(), r.ts) == [r.Written()]
    ensures ApplyOps(policy, [r.Written()], r.Ops()[..1], r.ts) == ApplyOp(policy, [r.Written()], Close(r.Key()), r.ts)
    ensures Find(ApplyOp(policy, [r.Written()], Close(r.Key()), r.ts), r.ts) == []
    ensures Find([r.Written()], r.ts) == [r.Written()]
  {
    var docs := [r.Written()];
    assert r.Ops()[..1] == [Close(r.Key())];
    ApplyOne(policy, [], Close(r.Key()), r.ts);
    ApplyOne(policy, docs, Close(r.Key()), r.ts);
    assert FindOpen(docs, r.Key()) == Some(0);
    var cut := ApplyOp(policy, docs, Close(r.Key()), r.ts);
    assert cut == if policy.Latest? then [] else [r.Written().(to := r.ts - 1)];
    assert cut != [] ==> cut[..0] == [];
    assert docs[..0] == [];
  }

  lemma RegroupingHarmful(r: Regrouping)
    requires r.Valid()
    ensures !Harmless(r.Ops()[..1], r.Ops())
  {
    assert r.Ops()[..1] == [Close(r.Key())];
    assert LastOp([Close(r.Key())], r.Key()) == Some(Close(r.Key()));
  }

  /** The event is recorded and acknowledged, the reply is lost, and its replay ends after one call. */
  function LossStepAt(r: Regrouping, i: nat): Step
    requires i < 9
  {
    if i == 0 then Append(r.TheEvent())
    else if i == 1 then Start
    else if i == 2 then Reader(CS.ReadPending)
    else if i == 3 then Reader(CS.ReadNew(1))
    else if i == 4 then Reader(CS.Push)
    else if i == 5 then Receive
    else if i == 6 then Record
    else if i == 7 then Acked(CS.AckUnanswered)
    else CutOff(1, false)
  }

  function LossStateAt(r: Regrouping, policy: RetentionPolicy, i: nat): State {
    var e := r.TheEvent();
    var logged, claimed, acked := CS.Group([e], 0, [], []), CS.Group([e], 1, [e], []), CS.Group([e], 1, [], [e]);
    if i == 0 then State(CS.State(CS.Group([], 0, [], []), None), None, [], None, false, [], false, false)
    else if i == 1 then State(CS.State(logged, None), None, [], None, false, [], false, false)
    else if i == 2 then Waiting(policy, logged, CS.OpenSession())
    else if i == 3 then Waiting(policy, logged, CS.Session(CS.Following, [], [], None, []))
    else if i == 4 then Waiting(policy, claimed, CS.Session(CS.Following, [e], [], None, []))
    else if i == 5 then Waiting(policy, claimed, CS.Session(CS.Following, [], [e], None, []))
    else if i == 6 then Waiting(policy, claimed, CS.Session(CS.Following, [], [], Some(e), []))
    else if i == 7 then Waiting(policy, claimed, CS.Session(CS.Following, [], [], Some(e), [])).(
                          docs := [r.Written()], metadata := Some(Metadata(1, r.ts, None)),
                          processed := true, tried := r.Ops(), begun := true)
    else if i == 8 then Waiting(policy, acked, CS.Session(CS.Following, [], [], Some(e), [])).(
                          docs := [r.Written()], metadata := Some(Metadata(1, r.ts, None)))
    else State(CS.State(acked, None), Some(policy), ApplyOp(policy, [r.Written()], Close(r.Key()), r.ts),
               Some(Metadata(1, r.ts, None)), false, [], false, true)
  }

  /** A worker at work on an empty view. */
  function Waiting(policy: RetentionPolicy, g: CS.Group<ResultEvent>, ss: CS.Session<ResultEvent>): State {
    State(CS.State(g, Some(ss)), Some(policy), [], None, false, [], false, false)
  }

  ghost predicate LossStep(r: Regrouping, cfg: Config, i: nat)
    requires i < 9
  {
    && Enabled(LossStateAt(r, cfg.policy, i), cfg, LossStepAt(r, i))
    && LossStateAt(r, cfg.policy, i + 1) == Next(LossStateAt(r, cfg.policy, i), cfg, LossStepAt(r, i))
  }

  lemma LossOpens(r: Regrouping, cfg: Config)
    requires r.Valid() && cfg.limits.bufferSize > 0 && cfg.limits.fetchBatchSize > 0
    ensures LossStep(r, cfg, 0) && LossStep(r, cfg, 1) && LossStep(r, cfg, 2)
  {
    RegroupingEvent(r);
    hide Regrouping.TheEvent, Regrouping.Ops, Regrouping.Written, EventOps, ApplyOps, ApplyOp, Find, Harmless;
    var e, nothing: seq<Event> := r.TheEvent(), [];
    assert nothing + [e] == [e] && CS.After(nothing, 0) == [];
  }

  lemma LossReads(r: Regrouping, cfg: Config)
    requires r.Valid() && cfg.limits.bufferSize > 0 && cfg.limits.fetchBatchSize > 0
    ensures LossStep(r, cfg, 3) && LossStep(r, cfg, 4) && LossStep(r, cfg, 5)
  {
    RegroupingEvent(r);
    hide Regrouping.TheEvent, Regrouping.Ops, Regrouping.Written, EventOps, ApplyOps, ApplyOp, Find, Harmless;
    hide CS.After;
    var e, nothing: seq<Event> := r.TheEvent(), [];
    assert nothing + [e] == [e] && [e][0..1] == [e] && [e][1..] == nothing;
  }

  lemma LossRecords(r: Regrouping, cfg: Config)
    requires r.Valid() && cfg.limits.bufferSize > 0 && cfg.limits.fetchBatchSize > 0
    ensures LossStep(r, cfg, 6)
  {
    RegroupingEvent(r);
    hide Regrouping.TheEvent, Regrouping.Ops, Regrouping.Written, EventOps, ApplyOps, ApplyOp, Find, Harmless;
    hide CS.Next, CS.Enabled;
    RegroupingDocs(r, cfg.policy);
    assert [] + r.Ops() == r.Ops();
  }

  lemma LossAcks(r: Regrouping, cfg: Config)
    requires r.Valid() && cfg.limits.bufferSize > 0 && cfg.limits.fetchBatchSize > 0
    ensures LossStep(r, cfg, 7)
  {
    RegroupingEvent(r);
    hide Regrouping.TheEvent, Regrouping.Ops, Regrouping.Written, EventOps, ApplyOps, ApplyOp, Find, Harmless;
    hide CS.After;
    var e := r.TheEvent();
    assert CS.FindPending([e], e.id) == Some(0);
    assert [e][..0] + [e][1..] == [];
  }

  /** What a replay cut off after n calls leaves behind. */
  lemma CutOffNext(s: State, cfg: Config, n: nat)
    requires Serving(s) && Stale(s) && IsChange(Slot(s).value) && s.policy.Some? && !s.tainted
    requires n <= |EventOps(TheChange(Slot(s).value))|
    ensures Enabled(s, cfg, CutOff(n, false))
    ensures var c := TheChange(Slot(s).value);
            Next(s, cfg, CutOff(n, false)) ==
            EndSession(s.(docs := ApplyOps(s.policy.value, s.docs, EventOps(c)[..n], c.sourceTime),
                          tainted := !Harmless(EventOps(c)[..n], EventOps(c))))
  {
    hide Harmless, EventOps, ApplyOps;
  }

  /** The state before the cut, and the one after it. */
  lemma LossBeforeCut(r: Regrouping, policy: RetentionPolicy)
    ensures var s := LossStateAt(r, policy, 8);
            && Serving(s) && Stale(s) && Slot(s) == Some(r.TheEvent()) && s.policy == Some(policy) && !s.tainted
            && s.docs == [r.Written()]
            && LossStateAt(r, policy, 9) ==
               EndSession(s.(docs := ApplyOp(policy, [r.Written()], Close(r.Key()), r.ts), tainted := true))
  {
    hide Regrouping.TheEvent, Regrouping.Written, Regrouping.Key, ApplyOp;
  }

  lemma LossCuts(r: Regrouping, cfg: Config)
    requires r.Valid()
    ensures LossStep(r, cfg, 8)
  {
    RegroupingEvent(r);
    RegroupingDocs(r, cfg.policy);
    RegroupingHarmful(r);
    LossBeforeCut(r, cfg.policy);
    CutOffNext(LossStateAt(r, cfg.policy, 8), cfg, 1);
    assert LossStepAt(r, 8) == CutOff(1, false);
    hide Regrouping.TheEvent, Regrouping.Ops, Regrouping.Written, EventOps, ApplyOps, ApplyOp, Harmless;
    hide Next, Enabled, LossStateAt, LossStepAt, Fresh, Stale, EndSession;
  }

  lemma LossIsRun(r: Regrouping, cfg: Config) returns (states: seq<State>, steps: seq<Step>)
    requires r.Valid() && cfg.limits.bufferSize > 0 && cfg.limits.fetchBatchSize > 0
    ensures IsRun(states, steps, cfg) && |states| == 10 && states[9] == LossStateAt(r, cfg.policy, 9)
  {
    LossOpens(r, cfg);
    LossReads(r, cfg);
    LossRecords(r, cfg);
    LossAcks(r, cfg);
    LossCuts(r, cfg);
    assert Init(LossStateAt(r, cfg.policy, 0)) by {
      hide Regrouping.TheEvent, Regrouping.Ops, Regrouping.Written, ApplyOp;
    }
    hide LossStateAt, LossStepAt, Enabled, Next, Init;
    states := seq(10, i requires 0 <= i < 10 => LossStateAt(r, cfg.policy, i));
    steps := seq(9, i requires 0 <= i < 9 => LossStepAt(r, i));
    forall i | 0 <= i < 9 ensures LossStep(r, cfg, i) {
    }
  }

  lemma LossOnce(r: Regrouping, policy: RetentionPolicy)
    requires r.Valid()
    ensures Once(policy, [r.TheEvent()]) == [r.Written()]
  {
    RegroupingEvent(r);
    RegroupingDocs(r, policy);
    var e := r.TheEvent();
    hide EventOps, ApplyOps, ApplyOp, Find, Regrouping.TheEvent, Regrouping.Ops, Regrouping.Written;
    assert [e][..0] == [];
    assert Once(policy, [e][..0]) == [];
  }

  /**
   The excluded step does happen, and does lose a row: the whole log is acknowledged, and no read
   after the event shows what it wrote.
   */
  lemma UnnoticedAckLosesRow(r: Regrouping, cfg: Config) returns (states: seq<State>, steps: seq<Step>)
    requires r.Valid() && cfg.limits.bufferSize > 0 && cfg.limits.fetchBatchSize > 0
    ensures IsRun(states, steps, cfg) && states != []
    ensures var last := states[|states| - 1];
            && Acknowledged(last) == last.stream.group.log == [r.TheEvent()]
            && Find(last.docs, r.ts) == [] && Find(Once(cfg.policy, Acknowledged(last)), r.ts) == [r.Written()]
            && !ExactlyOnce(last, cfg)
  {
    states, steps := LossIsRun(r, cfg);
    LossOnce(r, cfg.policy);
    RegroupingDocs(r, cfg.policy);
    hide IsRun, EventOps, ApplyOps, ApplyOp, Find, Once, SameReads, Regrouping.TheEvent, Regrouping.Ops, Regrouping.Written;
    LossEnd(r, cfg.policy);
    hide LossStateAt;
    DifferentReads(states[9].docs, [r.Written()], r.ts, r.Written());
  }

  lemma LossEnd(r: Regrouping, policy: RetentionPolicy)
    ensures var last := LossStateAt(r, policy, 9);
            && Acknowledged(last) == last.stream.group.log == [r.TheEvent()]
            && last.docs == ApplyOp(policy, [r.Written()], Close(r.Key()), r.ts)
  {
    hide ApplyOp, Regrouping.TheEvent, Regrouping.Written;
  }

  lemma DifferentReads(a: seq<Doc>, b: seq<Doc>, t: int, d: Doc)
    requires Find(a, t) == [] && Find(b, t) == [d]
    ensures !SameReads(a, b)
  {
    assert multiset([d])[d] == 1;
  }

  /**
   Deleting the view also forgets its policy: until the worker starts again, no change is recorded,
   and a change that is served in the meantime is rejected.
   */
  lemma {:induction false} RejectedUntilRestart(states: seq<State>, steps: seq<Step>, cfg: Config, i: nat, j: nat)
    requires IsRun(states, steps, cfg) && i < j < |states| && steps[i].Drop?
    requires forall l :: i < l < j ==> !steps[l].Start?
    ensures states[j].policy.None? && !Enabled(states[j], cfg, Record)
    ensures Serving(states[j]) && IsChange(Slot(states[j]).value) ==> Enabled(states[j], cfg, Reject)
    decreases j
  {
    assert states[j] == Next(states[j - 1], cfg, steps[j - 1]);
    if i < j - 1 {
      RejectedUntilRestart(states, steps, cfg, i, j - 1);
    }
  }

  lemma SameViewSym(a: seq<Doc>, b: seq<Doc>)
    requires SameView(a, b)
    ensures SameView(b, a)
  {
  }
}
