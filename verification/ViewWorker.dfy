/**
 The view worker as a program over the stream object and the view store: one life of the worker,
 from initializing the view to its end. Whatever happens meanwhile on the stream, and whichever call
 fails, a life is a run of the machine in ViewService, so its exactly-once effect holds of the rows
 in the store.
 */
module ViewWorker {
  import opened Wrappers
  import opened Results
  import opened ViewCollection
  import opened ViewStore
  import opened RedisChangeStream
  import CS = ChangeStream
  import VS = ViewService

  type ResultStream = RedisChangeStream<ResultEvent>
  type ResultGroup = ConsumerGroup<ResultEvent>

  datatype ShutdownReason = Deactivated | Error

  /** What one message comes to. */
  datatype Outcome =
    | Processed       // the acknowledgement was sent; its failure is ignored
    | Undecodable     // the loop is left
    | Failed          // the worker ends with an error

  /** What happens during a life: something on the stream, a message served, a command. */
  datatype Happening =
    | OnStream(step: CS.Step<ResultEvent>)
    | Message(fault: Fault, reply: Reply)
    | Shutdown

  // ---- Runs of the machine, from any state ----

  ghost function After(s: VS.State, cfg: VS.Config, steps: seq<VS.Step>): Option<VS.State>
    decreases |steps|
  {
    if steps == [] then Some(s)
    else
      var mid := After(s, cfg, steps[..|steps| - 1]);
      var step := steps[|steps| - 1];
      if mid.Some? && VS.Enabled(mid.value, cfg, step) then Some(VS.Next(mid.value, cfg, step)) else None
  }

  ghost predicate Reaches(s: VS.State, cfg: VS.Config, s': VS.State) {
    exists steps: seq<VS.Step> :: After(s, cfg, steps) == Some(s')
  }

  lemma ReachesSelf(s: VS.State, cfg: VS.Config)
    ensures Reaches(s, cfg, s)
  {
    assert After(s, cfg, []) == Some(s);
  }

  lemma ReachesStep(s: VS.State, cfg: VS.Config, mid: VS.State, step: VS.Step)
    requires Reaches(s, cfg, mid) && VS.Enabled(mid, cfg, step)
    ensures Reaches(s, cfg, VS.Next(mid, cfg, step))
  {
    hide VS.Enabled, VS.Next;
    var steps: seq<VS.Step> :| After(s, cfg, steps) == Some(mid);
    assert (steps + [step])[..|steps|] == steps;
    assert After(s, cfg, steps + [step]) == Some(VS.Next(mid, cfg, step));
  }

  lemma {:induction false} AfterConcat(s: VS.State, cfg: VS.Config, a: seq<VS.Step>, mid: VS.State, b: seq<VS.Step>)
    requires After(s, cfg, a) == Some(mid)
    ensures After(s, cfg, a + b) == After(mid, cfg, b)
    decreases |b|
  {
    hide VS.Enabled, VS.Next;
    if b == [] {
      assert a + b == a;
    } else {
      var front := b[..|b| - 1];
      assert (a + b)[..|a + b| - 1] == a + front;
      AfterConcat(s, cfg, a, mid, front);
    }
  }

  lemma ReachesTrans(s: VS.State, cfg: VS.Config, mid: VS.State, s': VS.State)
    requires Reaches(s, cfg, mid) && Reaches(mid, cfg, s')
    ensures Reaches(s, cfg, s')
  {
    var a: seq<VS.Step> :| After(s, cfg, a) == Some(mid);
    var b: seq<VS.Step> :| After(mid, cfg, b) == Some(s');
    AfterConcat(s, cfg, a, mid, b);
  }

  /** What is reached from the start is reached by a run. */
  lemma {:induction false} RunOf(s: VS.State, cfg: VS.Config, steps: seq<VS.Step>) returns (states: seq<VS.State>)
    requires VS.Init(s) && cfg.limits.fetchBatchSize > 0 && After(s, cfg, steps).Some?
    ensures VS.IsRun(states, steps, cfg) && states[|steps|] == After(s, cfg, steps).value
    decreases |steps|
  {
    hide VS.Enabled, VS.Next, VS.Init;
    if steps == [] {
      states := [s];
    } else {
      var n := |steps| - 1;
      var before := RunOf(s, cfg, steps[..n]);
      states := before + [After(s, cfg, steps).value];
      forall i | 0 <= i < |steps|
        ensures VS.Enabled(states[i], cfg, steps[i]) && states[i + 1] == VS.Next(states[i], cfg, steps[i])
      {
        assert i < n ==> steps[..n][i] == steps[i];
      }
    }
  }

  /** Exactly once, at the end of any lives that lead to s. */
  lemma ReachedIsExact(s: VS.State, cfg: VS.Config, s': VS.State)
    requires VS.Init(s) && cfg.limits.fetchBatchSize > 0 && Reaches(s, cfg, s')
    requires !s'.tainted && (!s'.begun || |VS.Acknowledged(s')| == |s'.stream.group.log|)
    ensures VS.ExactlyOnce(s', cfg)
  {
    var steps: seq<VS.Step> :| After(s, cfg, steps) == Some(s');
    var states := RunOf(s, cfg, steps);
    hide VS.Inv, VS.HarmfulCut, VS.ExactlyOnce, VS.IsRun, VS.Next, VS.Enabled;
    forall j | 0 <= j < |steps| ensures !VS.HarmfulCut(states[j], steps[j]) {
      if VS.HarmfulCut(states[j], steps[j]) {
        VS.HarmTaints(states, steps, cfg, j, |steps|);
      }
    }
    VS.ExactlyOnceEffect(states, steps, cfg, |steps|);
  }

  // ---- A life, as steps of the machine ----

  /** What processing the held event comes to. A failure after the last row call is cut off late. */
  ghost function Processing(s: VS.State, e: VS.Event, fault: Fault): VS.Step {
    if VS.IsChange(e) then
      var calls := |EventOps(VS.TheChange(e))| + 1;
      if s.policy.None? then VS.Reject
      else if fault.Hits(calls) then
        if fault.Applied(calls) < calls then VS.CutOff(fault.Applied(calls), false) else VS.CutOff(calls - 1, true)
      else VS.Record
    else if VS.Clears(e) then
      if fault.Hits(1) then VS.DropFails(fault.Applied(1) == 1) else VS.Drop
    else VS.SetState(fault.Applied(1) == 1)
  }

  function Acknowledging(reply: Reply): VS.Step {
    match reply
    case Confirmed => VS.Acked(CS.Step.Ack)
    case Lost => VS.Acked(CS.AckUnanswered)
    case Refused => VS.AckRefused
  }

  ghost function Received(s: VS.State, cfg: VS.Config): VS.State {
    if VS.Enabled(s, cfg, VS.Receive) then VS.Next(s, cfg, VS.Receive) else s
  }

  /** One message: received, processed, acknowledged. Without one there is no outcome. */
  ghost function Turned(s: VS.State, cfg: VS.Config, fault: Fault, reply: Reply): (Option<Outcome>, VS.State) {
    var held := Received(s, cfg);
    if !VS.Serving(held) then
      if held == s then (None, s) else (Some(Undecodable), VS.EndSession(held))
    else
      var step := Processing(held, VS.Slot(held).value, fault);
      var done := VS.Next(held, cfg, step);
      if done.processed then (Some(Processed), VS.Next(done, cfg, Acknowledging(reply))) else (Some(Failed), done)
  }

  function Background(step: CS.Step<ResultEvent>): VS.Step {
    match step
    case Append(e) => VS.Append(e)
    case _ => VS.Reader(step)
  }

  /** A step of the reader or the producer, if it can happen. */
  ghost function Listened(s: VS.State, cfg: VS.Config, step: CS.Step<ResultEvent>): VS.State {
    if VS.Enabled(s, cfg, Background(step)) then VS.Next(s, cfg, Background(step)) else s
  }

  /** The loop, and how it ends: with a reason, or without one when the process ends. */
  ghost function Looped(s: VS.State, cfg: VS.Config, script: seq<Happening>): (Option<ShutdownReason>, VS.State)
    decreases |script|
  {
    if script == [] then (None, VS.EndSession(s))
    else match script[0]
      case Shutdown => (Some(Deactivated), VS.EndSession(s))
      case OnStream(step) => Looped(Listened(s, cfg, step), cfg, script[1..])
      case Message(fault, reply) =>
        var (outcome, s') := Turned(s, cfg, fault, reply);
        if outcome == Some(Failed) then (Some(Error), s')
        else if outcome == Some(Undecodable) then (Some(Deactivated), s')
        else Looped(s', cfg, script[1..])
  }

  ghost function Lived(s: VS.State, cfg: VS.Config, initFault: Fault, script: seq<Happening>): (Option<ShutdownReason>, VS.State)
    requires s.stream.session.None?
  {
    var started := VS.Next(s, cfg, VS.Start);
    if initFault.Hits(1) then (Some(Error), VS.EndSession(started)) else Looped(started, cfg, script)
  }

  /** What the step does to the store's part of the state. */
  lemma ProcessingStores(s: VS.State, cfg: VS.Config, e: VS.Event, fault: Fault)
    requires e.data.Some? && VS.Serving(s) && VS.Slot(s) == Some(e)
    ensures VS.Enabled(s, cfg, Processing(s, e, fault))
    ensures var s', applied := VS.Next(s, cfg, Processing(s, e, fault)), fault.Applied(1) == 1;
            match e.data.value
            case ChangeEvent(change) =>
              var calls := |EventOps(change)| + 1;
              && s'.policy == s.policy && (s'.processed <==> s.policy.Some? && !fault.Hits(calls))
              && Collection(s'.docs, s'.metadata) ==
                 if s.policy.None? then Collection(s.docs, s.metadata)
                 else Recorded(s.policy.value, Collection(s.docs, s.metadata), change, fault.Applied(calls))
            case ControlEvent(sequence, sourceTime, signal) =>
              if signal.BootstrapStarted? || signal.QueryDeleted? then
                && s'.policy == None && (s'.processed <==> !fault.Hits(1))
                && Collection(s'.docs, s'.metadata) == if applied then EMPTY else Collection(s.docs, s.metadata)
              else
                && s'.policy == s.policy && s'.docs == s.docs && s'.processed
                && s'.metadata == if applied then Some(Metadata(sequence, sourceTime, Some(Display(signal)))) else s.metadata
  {
    hide ApplyOps, UpdateOps, DeleteOps, AddOps, VS.Fresh, CS.Next, CS.Enabled;
    if e.data.value.ChangeEvent? {
      var ops := EventOps(e.data.value.change);
      assert ops[..|ops|] == ops;
    }
    hide EventOps;
  }

  class Worker {
    const store: MongoViewStore
    const redis: ResultGroup
    const queryId: string
    const limits: CS.Limits

    constructor (store: MongoViewStore, redis: ResultGroup, queryId: string, limits: CS.Limits)
      ensures this.store == store && this.redis == redis && this.queryId == queryId && this.limits == limits
    {
      this.store, this.redis, this.queryId, this.limits := store, redis, queryId, limits;
    }

    function Policy(): Option<RetentionPolicy>
      reads store
    {
      if queryId in store.retentionPolicy then Some(store.retentionPolicy[queryId]) else None
    }

    function Docs(): seq<Doc>
      reads store
    {
      store.Get(queryId).docs
    }

    function TheMetadata(): Option<Metadata>
      reads store
    {
      store.Get(queryId).metadata
    }

    /** The store and the stream stand as the state says. */
    ghost predicate Shows(s: VS.State, session: Option<CS.Session<ResultEvent>>)
      reads store, redis
    {
      && s.stream == CS.State(redis.group, session) && s.policy == Policy()
      && s.docs == Docs() && s.metadata == TheMetadata()
    }

    ghost predicate Reading(s: VS.State, stream: ResultStream)
      reads store, redis, stream
    {
      && stream.redis == redis && stream.limits == limits && Shows(s, Some(stream.TheSession())) && !s.processed
      && stream.dropped == [] && (stream.unackItem.Some? ==> stream.unackItem.value.data.Some?)
    }

    /** Records a change, deletes the view, or stores the query's state, as the event asks. */
    method Process(e: VS.Event, fault: Fault, ghost s: VS.State, ghost cfg: VS.Config) returns (ok: bool)
      requires e.data.Some? && VS.Serving(s) && VS.Slot(s) == Some(e)
      requires s.policy == Policy() && s.docs == Docs() && s.metadata == TheMetadata()
      modifies store
      ensures store.OthersUnchanged(queryId)
      ensures VS.Enabled(s, cfg, Processing(s, e, fault))
      ensures var s' := VS.Next(s, cfg, Processing(s, e, fault));
              s'.policy == Policy() && s'.docs == Docs() && s'.metadata == TheMetadata() && s'.processed == ok
      ensures e.data.value.ChangeEvent? ==>
                var change := e.data.value.change;
                && Policy() == old(Policy()) && (ok <==> Policy().Some? && !fault.Hits(|EventOps(change)| + 1))
                && (ok ==> Docs() == ApplyOps(Policy().value, old(Docs()), EventOps(change), change.sourceTime)
                           && TheMetadata().Some? && TheMetadata().value.sequence == change.sequence
                           && TheMetadata().value.ts == change.sourceTime)
      ensures e.data.value.ControlEvent? && e.data.value.signal in {BootstrapStarted, QueryDeleted} ==>
                && Policy() == None && (ok <==> !fault.Hits(1))
                && (ok ==> Docs() == [] && TheMetadata() == None)
      ensures e.data.value.ControlEvent? && e.data.value.signal in {Running, Stopped, BootstrapCompleted} ==>
                && ok && Policy() == old(Policy()) && Docs() == old(Docs())
                && (!fault.Hits(1) ==>
                      TheMetadata() == Some(Metadata(e.data.value.sequence, e.data.value.sourceTime,
                        Some(match e.data.value.signal
                             case Running => "running"
                             case Stopped => "stopped"
                             case _ => "bootstrap complete"))))
    {
      ProcessingStores(s, cfg, e, fault);
      hide VS.Next, VS.Enabled, VS.Serving, VS.Slot, Processing, EventOps, ApplyOps;
      match e.data.value
      case ChangeEvent(change) =>
        var r := store.RecordChange(queryId, change, fault);
        ok := r.Success?;
      case ControlEvent(sequence, sourceTime, signal) =>
        if signal.BootstrapStarted? || signal.QueryDeleted? {
          var r := store.DeleteView(queryId, fault);
          ok := r.Success?;
        } else {
          var _ := store.SetState(queryId, sequence, sourceTime, Display(signal), fault);
          ok := true;
        }
    }

    /** Serves the held event again, or takes the next one. */
    method Receive(stream: ResultStream, ghost s: VS.State, ghost cfg: VS.Config) returns (r: Result<VS.Event, StreamError>)
      requires Reading(s, stream)
      requires stream.unackItem.None? ==> stream.buffer != []
      modifies stream
      ensures redis.group == old(redis.group)
      ensures var held := Received(s, cfg);
              && (r.Success? ==>
                    Reading(held, stream) && VS.Serving(held) && VS.Slot(held) == Some(r.value) && r.value.data.Some?)
              && (r.Failure? ==>
                    Shows(held, Some(stream.TheSession())) && !VS.Serving(held) && held != s)
    {
      r := stream.Recv();
    }

    /** Acknowledges the event just processed; a failure is ignored. */
    method Acknowledge(stream: ResultStream, id: nat, reply: Reply, ghost s: VS.State, ghost cfg: VS.Config)
      requires Reading(s.(processed := false), stream) && s.processed && limits == cfg.limits
      requires VS.Slot(s).Some? && VS.Slot(s).value.id == id
      modifies stream, redis
      ensures VS.Enabled(s, cfg, Acknowledging(reply)) && Reading(VS.Next(s, cfg, Acknowledging(reply)), stream)
    {
      hide EventOps;
      var _ := stream.Ack(id, reply);
    }

    /** Receive, process, acknowledge. */
    method Turn(stream: ResultStream, fault: Fault, reply: Reply, ghost s: VS.State, ghost cfg: VS.Config)
      returns (outcome: Outcome)
      requires Reading(s, stream) && limits == cfg.limits
      requires stream.unackItem.None? ==> stream.buffer != []
      modifies store, stream, redis
      ensures store.OthersUnchanged(queryId)
      ensures var (o, s') := Turned(s, cfg, fault, reply);
              && o == Some(outcome)
              && if outcome.Processed? then Reading(s', stream)
                 else Shows(s', None) && redis.group == old(redis.group)
    {
      hide EventOps, ApplyOps;
      var received := Receive(stream, s, cfg);
      if received.Failure? {
        return Undecodable;
      }
      ghost var held := Received(s, cfg);
      ProcessingFacts(held, cfg, fault);
      hide Processing, VS.Next, VS.Enabled;
      var ok := Process(received.value, fault, held, cfg);
      if !ok {
        return Failed;
      }
      Acknowledge(stream, received.value.id, reply, VS.Next(held, cfg, Processing(held, received.value, fault)), cfg);
      return Processed;
    }

    /** The reader takes a step, or a result is published, if that can happen now. */
    method Listen(stream: ResultStream, step: CS.Step<ResultEvent>, ghost s: VS.State, ghost cfg: VS.Config)
      requires Reading(s, stream) && limits == cfg.limits
      modifies stream, redis
      ensures Reading(Listened(s, cfg, step), stream)
    {
      var timely := step.Append? && VS.IsChange(step.entry) ==> VS.TheChange(step.entry).sourceTime <= MAX_TIMESTAMP;
      if timely && CS.Enabled(stream.TheState(), limits, step) {
        match step
        case Append(e) => redis.Append(e);
        case ReadPending => stream.ReadPendingBatch();
        case ReadNew(count) => stream.ReadNewBatch(count);
        case Push => stream.PushNext();
        case _ =>
      }
    }

    /** A life: the policy, then a session, then the loop. */
    method Start(policy: RetentionPolicy, initFault: Fault, script: seq<Happening>, ghost s: VS.State, ghost cfg: VS.Config)
      returns (reason: Option<ShutdownReason>)
      requires Shows(s, None) && cfg == VS.Config(policy, limits)
      modifies store, redis
      ensures store.OthersUnchanged(queryId)
      ensures reason == Lived(s, cfg, initFault, script).0 && Shows(Lived(s, cfg, initFault, script).1, None)
    {
      hide EventOps, ApplyOps, Turned, Listened;
      ghost var now := VS.Next(s, cfg, VS.Start);
      var r := store.InitView(queryId, policy, initFault);
      if r.Failure? {
        return Some(Error);
      }
      var stream := new RedisChangeStream(redis, limits);
      for i := 0 to |script|
        invariant Reading(now, stream) && store.OthersUnchanged(queryId)
        invariant Looped(now, cfg, script[i..]) == Lived(s, cfg, initFault, script)
      {
        assert script[i..][1..] == script[i + 1..];
        match script[i]
        case Shutdown =>
          return Some(Deactivated);
        case OnStream(step) =>
          Listen(stream, step, now, cfg);
          now := Listened(now, cfg, step);
        case Message(fault, reply) =>
          if stream.unackItem.Some? || stream.buffer != [] {
            var outcome := Turn(stream, fault, reply, now, cfg);
            now := Turned(now, cfg, fault, reply).1;
            if !outcome.Processed? {
              return Some(if outcome.Failed? then Error else Deactivated);
            }
          } else {
            NothingToServe(now, cfg, fault, reply);
          }
      }
      return None;
    }
  }

  lemma NothingToServe(s: VS.State, cfg: VS.Config, fault: Fault, reply: Reply)
    requires s.stream.session.Some? && s.stream.session.value.unackItem.None? && s.stream.session.value.buffer == []
    ensures Turned(s, cfg, fault, reply) == (None, s)
  {
  }

  // ---- A life is a run ----

  predicate GoesOn(outcome: Option<Outcome>) { outcome.None? || outcome.value.Processed? }

  lemma ProcessingFacts(s: VS.State, cfg: VS.Config, fault: Fault)
    requires VS.Serving(s)
    ensures var step := Processing(s, VS.Slot(s).value, fault);
            && VS.Enabled(s, cfg, step)
            && var done := VS.Next(s, cfg, step);
            && (done.processed ==> done.stream == s.stream)
            && (!done.processed ==> done.stream == CS.State(s.stream.group, None))
  {
    hide EventOps, ApplyOps;
  }

  lemma AcknowledgingFacts(s: VS.State, cfg: VS.Config, reply: Reply)
    requires VS.Slot(s).Some? && s.processed
    ensures VS.Enabled(s, cfg, Acknowledging(reply))
    ensures VS.Next(s, cfg, Acknowledging(reply)).stream.session.Some? && !VS.Next(s, cfg, Acknowledging(reply)).processed
  {
    hide EventOps, ApplyOps;
  }

  lemma ReceivedFacts(s: VS.State, cfg: VS.Config)
    requires s.stream.session.Some? && !s.processed
    ensures Reaches(s, cfg, Received(s, cfg))
    ensures Received(s, cfg).stream.session.Some? && !Received(s, cfg).processed
    ensures VS.Enabled(Received(s, cfg), cfg, VS.Crash)
    ensures VS.Next(Received(s, cfg), cfg, VS.Crash) == VS.EndSession(Received(s, cfg))
  {
    hide Reaches, EventOps, ApplyOps;
    ReachesSelf(s, cfg);
    if VS.Enabled(s, cfg, VS.Receive) {
      ReachesStep(s, cfg, s, VS.Receive);
    }
  }

  lemma TurnedReaches(s: VS.State, cfg: VS.Config, fault: Fault, reply: Reply)
    requires s.stream.session.Some? && !s.processed
    ensures Reaches(s, cfg, Turned(s, cfg, fault, reply).1)
    ensures GoesOn(Turned(s, cfg, fault, reply).0) ==>
              var s' := Turned(s, cfg, fault, reply).1;
              s'.stream.session.Some? && !s'.processed
  {
    hide Reaches, Received, Processing, Acknowledging, VS.Enabled, VS.Next, VS.EndSession;
    var held := Received(s, cfg);
    ReceivedFacts(s, cfg);
    if VS.Serving(held) {
      var step := Processing(held, VS.Slot(held).value, fault);
      ProcessingFacts(held, cfg, fault);
      ReachesStep(s, cfg, held, step);
      var done := VS.Next(held, cfg, step);
      if done.processed {
        AcknowledgingFacts(done, cfg, reply);
        ReachesStep(s, cfg, done, Acknowledging(reply));
      }
    } else {
      ReachesStep(s, cfg, held, VS.Crash);
    }
  }

  lemma {:induction false} LoopedReaches(s: VS.State, cfg: VS.Config, script: seq<Happening>)
    requires s.stream.session.Some? && !s.processed
    ensures Reaches(s, cfg, Looped(s, cfg, script).1)
    decreases |script|
  {
    hide Reaches, Turned, EventOps, ApplyOps;
    ReachesSelf(s, cfg);
    ReachesStep(s, cfg, s, VS.Crash);
    if script != [] {
      match script[0]
      case Shutdown =>
      case OnStream(step) =>
        var next := Listened(s, cfg, step);
        if VS.Enabled(s, cfg, Background(step)) {
          ReachesStep(s, cfg, s, Background(step));
        }
        LoopedReaches(next, cfg, script[1..]);
        ReachesTrans(s, cfg, next, Looped(s, cfg, script).1);
      case Message(fault, reply) =>
        TurnedReaches(s, cfg, fault, reply);
        var (outcome, next) := Turned(s, cfg, fault, reply);
        if GoesOn(outcome) {
          LoopedReaches(next, cfg, script[1..]);
          ReachesTrans(s, cfg, next, Looped(s, cfg, script).1);
        }
    }
  }

  /** Every life is a run of the machine, which ends with no session left. */
  lemma LivedReaches(s: VS.State, cfg: VS.Config, initFault: Fault, script: seq<Happening>)
    requires s.stream.session.None?
    ensures Reaches(s, cfg, Lived(s, cfg, initFault, script).1)
  {
    hide Reaches, Looped, EventOps, ApplyOps;
    ReachesSelf(s, cfg);
    ReachesStep(s, cfg, s, VS.Start);
    var started := VS.Next(s, cfg, VS.Start);
    ReachesStep(s, cfg, started, VS.Crash);
    LoopedReaches(started, cfg, script);
    if !initFault.Hits(1) {
      ReachesTrans(s, cfg, started, Looped(started, cfg, script).1);
    }
  }

  // ---- Life after life ----

  datatype Episode = Life(initFault: Fault, script: seq<Happening>) | Published(e: VS.Event)

  /** Lives one after the other, with results published in between. */
  ghost function AfterEpisodes(s: VS.State, cfg: VS.Config, episodes: seq<Episode>): VS.State
    requires s.stream.session.None?
    decreases |episodes|
  {
    if episodes == [] then s
    else match episodes[0]
      case Life(initFault, script) =>
        LivedEnds(s, cfg, initFault, script);
        AfterEpisodes(Lived(s, cfg, initFault, script).1, cfg, episodes[1..])
      case Published(e) => AfterEpisodes(Listened(s, cfg, CS.Append(e)), cfg, episodes[1..])
  }

  lemma TurnedEnds(s: VS.State, cfg: VS.Config, fault: Fault, reply: Reply)
    ensures !GoesOn(Turned(s, cfg, fault, reply).0) ==> Turned(s, cfg, fault, reply).1.stream.session.None?
  {
    hide EventOps, ApplyOps;
  }

  lemma {:induction false} LoopedEnds(s: VS.State, cfg: VS.Config, script: seq<Happening>)
    ensures Looped(s, cfg, script).1.stream.session.None?
    decreases |script|
  {
    hide Listened, Turned;
    if script != [] {
      match script[0]
      case Shutdown =>
      case OnStream(step) => LoopedEnds(Listened(s, cfg, step), cfg, script[1..]);
      case Message(fault, reply) =>
        TurnedEnds(s, cfg, fault, reply);
        LoopedEnds(Turned(s, cfg, fault, reply).1, cfg, script[1..]);
    }
  }

  lemma LivedEnds(s: VS.State, cfg: VS.Config, initFault: Fault, script: seq<Happening>)
    requires s.stream.session.None?
    ensures Lived(s, cfg, initFault, script).1.stream.session.None?
  {
    hide Looped;
    LoopedEnds(VS.Next(s, cfg, VS.Start), cfg, script);
  }

  lemma {:induction false} EpisodesReach(s: VS.State, cfg: VS.Config, episodes: seq<Episode>)
    requires s.stream.session.None?
    ensures Reaches(s, cfg, AfterEpisodes(s, cfg, episodes))
    decreases |episodes|
  {
    hide Reaches, Lived;
    ReachesSelf(s, cfg);
    if episodes != [] {
      match episodes[0]
      case Life(initFault, script) =>
        LivedEnds(s, cfg, initFault, script);
        LivedReaches(s, cfg, initFault, script);
        var next := Lived(s, cfg, initFault, script).1;
        EpisodesReach(next, cfg, episodes[1..]);
        ReachesTrans(s, cfg, next, AfterEpisodes(s, cfg, episodes));
      case Published(e) =>
        var next := Listened(s, cfg, CS.Append(e));
        if VS.Enabled(s, cfg, VS.Append(e)) {
          ReachesStep(s, cfg, s, VS.Append(e));
        }
        EpisodesReach(next, cfg, episodes[1..]);
        ReachesTrans(s, cfg, next, AfterEpisodes(s, cfg, episodes));
    }
  }

  /** However many lives it took, and however they ended, the rows are those of the log applied once. */
  lemma LivesAreExact(s: VS.State, cfg: VS.Config, episodes: seq<Episode>)
    requires VS.Init(s) && cfg.limits.fetchBatchSize > 0
    requires var s' := AfterEpisodes(s, cfg, episodes);
             !s'.tainted && (!s'.begun || |VS.Acknowledged(s')| == |s'.stream.group.log|)
    ensures VS.ExactlyOnce(AfterEpisodes(s, cfg, episodes), cfg)
  {
    hide Reaches, AfterEpisodes, VS.ExactlyOnce;
    EpisodesReach(s, cfg, episodes);
    ReachedIsExact(s, cfg, AfterEpisodes(s, cfg, episodes));
  }

  /** What is acknowledged between two states holds no change. */
  ghost predicate NoChangeAcked(s: VS.State, s': VS.State) {
    && VS.Acknowledged(s) <= VS.Acknowledged(s')
    && forall k :: |VS.Acknowledged(s)| <= k < |VS.Acknowledged(s')| ==> !VS.IsChange(VS.Acknowledged(s')[k])
  }

  /** The rows are as before, or gone. */
  predicate NothingWritten(s: VS.State, s': VS.State) {
    s'.docs == s.docs || s'.docs == []
  }

  /** The policy is gone, or goes with the event at hand. */
  predicate Dropping(s: VS.State) {
    s.policy.None? || (VS.Serving(s) && VS.Clears(VS.Slot(s).value))
  }

  /** A change that is served then fails, whatever else goes well, and stays as pending as it was. */
  lemma RejectTurn(s: VS.State, cfg: VS.Config, fault: Fault, reply: Reply)
    requires s.policy.None? && VS.Serving(Received(s, cfg)) && VS.IsChange(VS.Slot(Received(s, cfg)).value)
    ensures var (outcome, s') := Turned(s, cfg, fault, reply);
            && outcome == Some(Failed) && s'.docs == s.docs && s'.policy.None?
            && s'.stream == CS.State(s.stream.group, None)
  {
    hide EventOps, ApplyOps;
  }

  lemma ReceivedStream(s: VS.State, cfg: VS.Config)
    requires CS.Inv(s.stream, cfg.limits) && cfg.limits.fetchBatchSize > 0
    ensures CS.Inv(Received(s, cfg).stream, cfg.limits) && Received(s, cfg).stream.group == s.stream.group
    ensures Received(s, cfg).docs == s.docs && Received(s, cfg).policy == s.policy
    ensures VS.Serving(s) ==> Received(s, cfg) == s
  {
    hide CS.Inv, EventOps, ApplyOps;
    if VS.Enabled(s, cfg, VS.Receive) {
      CS.StepKeeps(s.stream, cfg.limits, CS.Recv);
      CS.RecvEffect(s.stream, cfg.limits);
    }
  }

  /** Processing anything else without a policy. */
  lemma OtherProcessing(held: VS.State, cfg: VS.Config, fault: Fault)
    requires CS.Inv(held.stream, cfg.limits)
    requires VS.Serving(held) && !VS.IsChange(VS.Slot(held).value) && Dropping(held)
    ensures var done := VS.Next(held, cfg, Processing(held, VS.Slot(held).value, fault));
            && done.policy.None? && NothingWritten(held, done) && CS.Inv(done.stream, cfg.limits)
            && (if done.processed then done.stream == held.stream
                else done.stream == CS.State(held.stream.group, None))
  {
    hide CS.Inv, EventOps, ApplyOps;
    EndedStream(held, cfg);
  }

  /** Acknowledging what is not a change. */
  lemma OtherAcked(done: VS.State, cfg: VS.Config, reply: Reply)
    requires CS.Inv(done.stream, cfg.limits) && cfg.limits.fetchBatchSize > 0
    requires VS.Slot(done).Some? && done.processed && !VS.IsChange(VS.Slot(done).value)
    ensures var s' := VS.Next(done, cfg, Acknowledging(reply));
            && s'.policy == done.policy && s'.docs == done.docs && CS.Inv(s'.stream, cfg.limits) && NoChangeAcked(done, s')
            && s'.stream.session.Some? && !s'.processed
  {
    hide CS.Inv, CS.Holds, CS.Next, EventOps, ApplyOps;
    if !reply.Refused? {
      var r := if reply.Lost? then CS.AckUnanswered else CS.Step.Ack;
      CS.AckEffect(done.stream, cfg.limits, r);
      CS.StepKeeps(done.stream, cfg.limits, r);
      CS.ServesNext(done.stream, cfg.limits);
    }
  }

  lemma TurnedByWork(s: VS.State, cfg: VS.Config, fault: Fault, reply: Reply)
    requires VS.Serving(Received(s, cfg))
    ensures var held, (outcome, s') := Received(s, cfg), Turned(s, cfg, fault, reply);
            var done := VS.Next(held, cfg, Processing(held, VS.Slot(held).value, fault));
            if done.processed then outcome == Some(Processed) && s' == VS.Next(done, cfg, Acknowledging(reply))
            else outcome == Some(Failed) && s' == done
  {
    hide EventOps, ApplyOps;
  }

  /** A turn on an event that is no change. */
  lemma OtherTurn(s: VS.State, cfg: VS.Config, fault: Fault, reply: Reply)
    requires CS.Inv(s.stream, cfg.limits) && cfg.limits.fetchBatchSize > 0
    requires var held := Received(s, cfg);
             VS.Serving(held) && !VS.IsChange(VS.Slot(held).value) && Dropping(held)
    ensures var (outcome, s') := Turned(s, cfg, fault, reply);
            && s'.policy.None? && NothingWritten(s, s') && CS.Inv(s'.stream, cfg.limits) && NoChangeAcked(s, s')
            && (GoesOn(outcome) ==> s'.stream.session.Some? && !s'.processed)
  {
    var held := Received(s, cfg);
    ProcessingFacts(held, cfg, fault);
    var done := VS.Next(held, cfg, Processing(held, VS.Slot(held).value, fault));
    TurnedByWork(s, cfg, fault, reply);
    ReceivedStream(s, cfg);
    OtherProcessing(held, cfg, fault);
    NothingAcked(s, done);
    if done.processed {
      SameSlot(held, done);
      AcknowledgingFacts(done, cfg, reply);
      OtherAcked(done, cfg, reply);
      AckedAfter(s, done, VS.Next(done, cfg, Acknowledging(reply)));
    }
    hide CS.Inv, Turned, Received, Processing, Acknowledging, VS.Next, VS.Enabled, VS.Slot, VS.Serving, VS.IsChange, VS.Clears;
    hide NoChangeAcked, Dropping;
  }

  lemma SameSlot(s: VS.State, s': VS.State)
    requires s'.stream == s.stream
    ensures VS.Slot(s') == VS.Slot(s)
  {
  }

  /** A turn on a change, when there is no policy. */
  lemma ChangeTurn(s: VS.State, cfg: VS.Config, fault: Fault, reply: Reply)
    requires CS.Inv(s.stream, cfg.limits) && s.policy.None?
    requires var held := Received(s, cfg); VS.Serving(held) && VS.IsChange(VS.Slot(held).value)
    ensures var (outcome, s') := Turned(s, cfg, fault, reply);
            && s'.policy.None? && s'.docs == s.docs && CS.Inv(s'.stream, cfg.limits) && NoChangeAcked(s, s')
            && outcome == Some(Failed)
  {
    RejectTurn(s, cfg, fault, reply);
    EndedStream(s, cfg);
    hide CS.Inv, Turned, Received;
  }

  lemma NoPolicyTurn(s: VS.State, cfg: VS.Config, fault: Fault, reply: Reply)
    requires CS.Inv(s.stream, cfg.limits) && cfg.limits.fetchBatchSize > 0
    requires s.stream.session.Some? && !s.processed && Dropping(s)
    ensures var (outcome, s') := Turned(s, cfg, fault, reply);
            && (outcome.Some? || VS.Serving(s) || s.policy.None? ==> s'.policy.None?)
            && NothingWritten(s, s') && CS.Inv(s'.stream, cfg.limits) && NoChangeAcked(s, s')
            && (GoesOn(outcome) ==> s'.stream.session.Some? && !s'.processed)
  {
    var held := Received(s, cfg);
    ReceivedStream(s, cfg);
    ReceivedFacts(s, cfg);
    EndFacts(held, cfg);
    NothingAcked(s, held);
    NothingAcked(s, VS.EndSession(held));
    hide CS.Inv, Reaches, Received, Processing, Acknowledging, VS.Next, VS.Enabled, VS.EndSession, VS.Clears, NoChangeAcked;
    if !VS.Serving(held) {
    } else if VS.IsChange(VS.Slot(held).value) {
      NoClear(held);
      ChangeTurn(s, cfg, fault, reply);
    } else {
      OtherTurn(s, cfg, fault, reply);
    }
  }

  lemma NothingAcked(s: VS.State, s': VS.State)
    requires VS.Acknowledged(s') == VS.Acknowledged(s)
    ensures NoChangeAcked(s, s')
  {
  }

  lemma AckedAfter(s: VS.State, mid: VS.State, s': VS.State)
    requires NoChangeAcked(s, mid) && NoChangeAcked(mid, s')
    ensures NoChangeAcked(s, s')
  {
  }

  lemma NoClear(s: VS.State)
    requires VS.Serving(s) && VS.IsChange(VS.Slot(s).value)
    ensures !VS.Clears(VS.Slot(s).value)
  {
  }

  lemma EndFacts(s: VS.State, cfg: VS.Config)
    requires CS.Inv(s.stream, cfg.limits)
    ensures var s' := VS.EndSession(s);
            && CS.Inv(s'.stream, cfg.limits) && s'.stream.session.None?
            && s'.policy == s.policy && s'.docs == s.docs && s'.stream.group == s.stream.group
  {
    VS.EndKeeps(s, cfg);
  }

  lemma EndedStream(s: VS.State, cfg: VS.Config)
    requires CS.Inv(s.stream, cfg.limits)
    ensures CS.Inv(CS.State(s.stream.group, None), cfg.limits)
  {
    hide CS.GroupInv;
  }

  lemma ListenedStream(s: VS.State, cfg: VS.Config, step: CS.Step<ResultEvent>)
    requires CS.Inv(s.stream, cfg.limits) && cfg.limits.fetchBatchSize > 0 && s.stream.session.Some?
    ensures var s' := Listened(s, cfg, step);
            && CS.Inv(s'.stream, cfg.limits) && NoChangeAcked(s, s')
            && s'.stream.session.Some? && s'.processed == s.processed && s'.docs == s.docs && s'.policy == s.policy
  {
    hide CS.Inv, CS.Next, CS.Enabled, EventOps, ApplyOps;
    if VS.Enabled(s, cfg, Background(step)) {
      CS.QuietStep(s.stream, cfg.limits, step);
      CS.StepKeeps(s.stream, cfg.limits, step);
    }
  }

  lemma {:induction false} NoPolicyLoop(s: VS.State, cfg: VS.Config, script: seq<Happening>)
    requires CS.Inv(s.stream, cfg.limits) && cfg.limits.fetchBatchSize > 0
    requires s.stream.session.Some? && !s.processed && s.policy.None?
    ensures var s' := Looped(s, cfg, script).1;
            s'.policy.None? && NothingWritten(s, s') && NoChangeAcked(s, s')
    decreases |script|
  {
    hide CS.Inv, EventOps, ApplyOps, Turned, Listened;
    if script != [] {
      match script[0]
      case Shutdown =>
      case OnStream(step) =>
        ListenedStream(s, cfg, step);
        NoPolicyLoop(Listened(s, cfg, step), cfg, script[1..]);
      case Message(fault, reply) =>
        NoPolicyTurn(s, cfg, fault, reply);
        var (outcome, next) := Turned(s, cfg, fault, reply);
        if GoesOn(outcome) {
          NoPolicyLoop(next, cfg, script[1..]);
        }
    }
  }

  /**
   From the start of a bootstrap to the end of the same life no change is recorded or acknowledged,
   whatever is served and whatever fails: deleting the view has deleted its policy.
   */
  lemma ChangeAfterDropRejected(s: VS.State, cfg: VS.Config, sequence: nat, ts: int, signal: ControlSignal,
                                fault: Fault, reply: Reply, script: seq<Happening>)
    requires CS.Inv(s.stream, cfg.limits) && cfg.limits.fetchBatchSize > 0
    requires VS.Serving(s) && VS.Slot(s).value.data == Some(ControlEvent(sequence, ts, signal))
    requires signal == BootstrapStarted || signal == QueryDeleted
    ensures var s' := Looped(s, cfg, [Message(fault, reply)] + script).1;
            s'.policy.None? && NothingWritten(s, s') && NoChangeAcked(s, s')
  {
    hide CS.Inv, EventOps, ApplyOps, Turned;
    NoPolicyTurn(s, cfg, fault, reply);
    var (outcome, next) := Turned(s, cfg, fault, reply);
    assert ([Message(fault, reply)] + script)[1..] == script;
    if GoesOn(outcome) {
      NoPolicyLoop(next, cfg, script);
    }
  }

  /** How a loop ends: with an error after an event that could not be recorded or cleared, without one otherwise. */
  lemma LoopEndings(s: VS.State, cfg: VS.Config, fault: Fault, reply: Reply, script: seq<Happening>)
    requires s.stream.session.Some? && !s.processed && s.stream.session.value.dropped == []
    ensures Looped(s, cfg, []).0 == None && Looped(s, cfg, [Shutdown] + script).0 == Some(Deactivated)
    ensures var session, life := s.stream.session.value, Looped(s, cfg, [Message(fault, reply)] + script);
            var next := if session.unackItem.Some? then session.unackItem
                        else if session.buffer != [] then Some(session.buffer[0]) else None;
            next.Some? ==>
              match next.value.data
              case None => session.unackItem.None? ==> life.0 == Some(Deactivated)
              case Some(ChangeEvent(change)) =>
                s.policy.None? || fault.Hits(|EventOps(change)| + 1) ==> life.0 == Some(Error)
              case Some(ControlEvent(_, _, signal)) =>
                signal in {BootstrapStarted, QueryDeleted} && fault.Hits(1) ==> life.0 == Some(Error)
  {
    TurnEndings(s, cfg, fault, reply);
    hide Turned, EventOps;
    assert ([Shutdown] + script)[0] == Shutdown;
    assert ([Message(fault, reply)] + script)[0] == Message(fault, reply);
  }

  lemma TurnEndings(s: VS.State, cfg: VS.Config, fault: Fault, reply: Reply)
    requires s.stream.session.Some? && !s.processed && s.stream.session.value.dropped == []
    ensures var session, outcome := s.stream.session.value, Turned(s, cfg, fault, reply).0;
            var next := if session.unackItem.Some? then session.unackItem
                        else if session.buffer != [] then Some(session.buffer[0]) else None;
            next.Some? ==>
              match next.value.data
              case None => session.unackItem.None? ==> outcome == Some(Undecodable)
              case Some(ChangeEvent(change)) =>
                s.policy.None? || fault.Hits(|EventOps(change)| + 1) ==> outcome == Some(Failed)
              case Some(ControlEvent(_, _, signal)) =>
                signal in {BootstrapStarted, QueryDeleted} && fault.Hits(1) ==> outcome == Some(Failed)
  {
    hide EventOps, ApplyOps;
  }

  /** Two steps of a new session's reader put the first pending entry where it is served from. */
  lemma FirstPendingBuffered(s: VS.State, cfg: VS.Config)
    requires CS.Inv(s.stream, cfg.limits) && s.stream.session.None? && cfg.limits.bufferSize > 0 && cfg.limits.fetchBatchSize > 0
    requires s.stream.group.pending != []
    ensures var s' := Listened(Listened(VS.Next(s, cfg, VS.Start), cfg, CS.ReadPending), cfg, CS.Push);
            && s'.stream.session.Some? && s'.stream.session.value.unackItem.None?
            && s'.stream.session.value.buffer == [s.stream.group.pending[0]] && s'.stream.session.value.dropped == []
            && s'.stream.group == s.stream.group && s'.docs == s.docs && s'.policy == Some(cfg.policy) && !s'.processed
  {
    hide CS.After;
    CS.OpenFacts(s.stream.group);
  }

  /** The next life records it. */
  lemma NextLifeRecords(s: VS.State, cfg: VS.Config)
    requires CS.Inv(s.stream, cfg.limits) && s.stream.session.None? && cfg.limits.bufferSize > 0 && cfg.limits.fetchBatchSize > 0
    requires var pending := s.stream.group.pending; pending != [] && VS.IsChange(pending[0])
    ensures var e := s.stream.group.pending[0];
            var (_, s') := Lived(s, cfg, NoFault, [OnStream(CS.ReadPending), OnStream(CS.Push), Message(NoFault, Confirmed)]);
            && VS.Acknowledged(s') == VS.Acknowledged(s) + [e]
            && s'.docs == VS.Process(cfg.policy, s.docs, e)
  {
    hide EventOps, ApplyOps, CS.Inv, Listened;
    FirstPendingBuffered(s, cfg);
    var script := [OnStream(CS.ReadPending), OnStream(CS.Push), Message(NoFault, Confirmed)];
    var started := VS.Next(s, cfg, VS.Start);
    var read := Listened(started, cfg, CS.ReadPending);
    var ready := Listened(read, cfg, CS.Push);
    hide VS.Next;
    ServedAndRecorded(ready, cfg);
    hide Turned, VS.Process;
    assert script[1..][1..] == [Message(NoFault, Confirmed)];
    assert Looped(started, cfg, script) == Looped(read, cfg, script[1..]);
    assert Looped(read, cfg, script[1..]) == Looped(ready, cfg, [Message(NoFault, Confirmed)]);
    assert [Message(NoFault, Confirmed)][1..] == [];
  }

  lemma ServedAndRecorded(s: VS.State, cfg: VS.Config)
    requires s.stream.session.Some? && s.stream.session.value.unackItem.None? && s.stream.session.value.dropped == []
    requires s.stream.session.value.buffer != [] && s.policy.Some? && !s.processed
    requires s.stream.group.pending != [] && s.stream.group.pending[0] == s.stream.session.value.buffer[0]
    requires VS.IsChange(s.stream.session.value.buffer[0])
    ensures var e := s.stream.session.value.buffer[0];
            var (outcome, s') := Turned(s, cfg, NoFault, Confirmed);
            && outcome == Some(Processed)
            && VS.Acknowledged(s') == VS.Acknowledged(s) + [e]
            && s'.docs == VS.Process(s.policy.value, s.docs, e)
  {
    hide EventOps, ApplyOps;
  }
}
