/**
 The query worker's message loop as a program over the stream object and the result topic. A life
 of the loop is a run of the machine in QueryHost, and its inputs are those that QueryWorker derives
 the publications and the final state from.
 */
module QueryLoop {
  import opened Wrappers
  import opened Results
  import opened RedisChangeStream
  import CS = ChangeStream
  import QH = QueryHost
  import QW = QueryWorker

  type SourceStream = RedisChangeStream<QH.ChangeMessage>
  type SourceGroup = ConsumerGroup<QH.ChangeMessage>

  /** What becomes of a publication: it is answered, or arrives without an answer, or neither. */
  datatype Publication = Attempted(answer: QH.Answer) | Unreached {
    /** Any answer counts as a success, whatever its status. */
    predicate TakenForSuccess() { Attempted? && !answer.NoAnswer? }
  }

  /** What processing a change comes to. */
  datatype Work = Fails | Reports(results: seq<QueryContext>, publication: Publication)

  datatype Outcome = Processed | Undecodable | Failed

  datatype Happening =
    | OnStream(step: CS.Step<QH.ChangeMessage>)
    | Message(work: Work, reply: Reply)
    | Shutdown

  /** The results published so far, oldest first. */
  class ResultTopic {
    var entries: seq<(QH.Entry, seq<QueryContext>)>

    constructor ()
      ensures entries == []
    {
      entries := [];
    }
  }

  // ---- A life, as steps of the machine ----

  /** What has arrived in the topic. */
  function Arrivals(history: seq<QH.Trace>): seq<(QH.Entry, seq<QueryContext>)> {
    if history == [] then []
    else
      var h, before := history[|history| - 1], Arrivals(history[..|history| - 1]);
      if h.Sent? && h.answer.Arrived() then before + [(h.entry, h.results)] else before
  }

  function Received(s: QH.State, queryId: string, limits: CS.Limits): QH.State {
    if QH.Enabled(s, queryId, limits, QH.Receive) then QH.Next(s, queryId, limits, QH.Receive) else s
  }

  /** What the work on the held entry comes to. */
  function Worked(s: QH.State, queryId: string, limits: CS.Limits, work: Work): QH.State
    requires QH.Serving(s) && s.reported == []
  {
    if !QH.Names(queryId, QH.Slot(s).value) then QH.Next(s, queryId, limits, QH.Skip)
    else match work
      case Fails => QH.Next(s, queryId, limits, QH.Fail)
      case Reports(results, publication) =>
        var ran := QH.Next(s, queryId, limits, QH.Process(results));
        if results == [] then ran
        else if publication.Unreached? then QH.Next(ran, queryId, limits, QH.Fail)
        else QH.Next(ran, queryId, limits, QH.Send(publication.answer))
  }

  function Acknowledging(reply: Reply): QH.Step {
    match reply
    case Confirmed => QH.Acked(CS.Step.Ack)
    case Lost => QH.Acked(CS.AckUnanswered)
    case Refused => QH.AckRefused
  }

  /** One message: received, processed, published, acknowledged. Without one there is no outcome. */
  function Turned(s: QH.State, queryId: string, limits: CS.Limits, work: Work, reply: Reply): (Option<Outcome>, QH.State)
    requires s.reported == []
  {
    var held := Received(s, queryId, limits);
    if !QH.Serving(held) then
      if held == s then (None, s) else (Some(Undecodable), QH.EndSession(held))
    else
      var done := Worked(held, queryId, limits, work);
      if done.processed then (Some(Processed), QH.Next(done, queryId, limits, Acknowledging(reply))) else (Some(Failed), done)
  }

  function Background(step: CS.Step<QH.ChangeMessage>): QH.Step {
    match step
    case Append(e) => QH.Append(e)
    case _ => QH.Reader(step)
  }

  /** A step of the reader or the producers, if it can happen. */
  function Listened(s: QH.State, queryId: string, limits: CS.Limits, step: CS.Step<QH.ChangeMessage>): QH.State {
    if QH.Enabled(s, queryId, limits, Background(step)) then QH.Next(s, queryId, limits, Background(step)) else s
  }

  /** How the loop is left; without an end the process has ended. */
  datatype End = ByCommand | ByError

  function Looped(s: QH.State, queryId: string, limits: CS.Limits, script: seq<Happening>): (Option<End>, QH.State)
    decreases |script|
  {
    if script == [] then (None, QH.EndSession(s))
    else match script[0]
      case Shutdown => (Some(ByCommand), QH.EndSession(s))
      case OnStream(step) => Looped(Listened(s, queryId, limits, step), queryId, limits, script[1..])
      case Message(work, reply) =>
        if s.reported != [] then (None, QH.EndSession(s))
        else
          var (outcome, s') := Turned(s, queryId, limits, work, reply);
          if outcome.None? || outcome.value.Processed? then Looped(s', queryId, limits, script[1..])
          else (Some(ByError), s')
  }

  function Lived(s: QH.State, queryId: string, limits: CS.Limits, script: seq<Happening>): (Option<End>, QH.State)
    requires s.stream.session.None?
  {
    Looped(QH.Next(s, queryId, limits, QH.Start), queryId, limits, script)
  }

  lemma ArrivalsSnoc(history: seq<QH.Trace>, h: QH.Trace)
    ensures Arrivals(history + [h]) ==
            if h.Sent? && h.answer.Arrived() then Arrivals(history) + [(h.entry, h.results)] else Arrivals(history)
  {
    assert (history + [h])[..|history|] == history;
  }

  /** The effect of the work: what it adds to the history, and whether the entry is dealt with. */
  lemma WorkedFacts(s: QH.State, queryId: string, limits: CS.Limits, work: Work)
    requires QH.Serving(s) && s.reported == []
    ensures var e, s' := QH.Slot(s).value, Worked(s, queryId, limits, work);
            var tries := QH.Names(queryId, e) && work.Reports?;
            var sends := tries && work.results != [] && work.publication.Attempted?;
            && s'.history ==
               (if !tries then s.history
                else if !sends then s.history + [QH.Ran(e, work.results)]
                else s.history + [QH.Ran(e, work.results)] + [QH.Sent(e, work.results, work.publication.answer)])
            && s'.processed == (!QH.Names(queryId, e)
                                || (tries && (work.results == [] || work.publication.TakenForSuccess())))
            && s'.reported == []
            && s'.stream == if s'.processed then s.stream else s.stream.(session := None)
  {
  }

  class Host {
    const redis: SourceGroup
    const topic: ResultTopic
    const queryId: string
    const limits: CS.Limits

    constructor (redis: SourceGroup, topic: ResultTopic, queryId: string, limits: CS.Limits)
      ensures this.redis == redis && this.topic == topic && this.queryId == queryId && this.limits == limits
    {
      this.redis, this.topic, this.queryId, this.limits := redis, topic, queryId, limits;
    }

    /** The source stream and the result topic stand as the state says. */
    ghost predicate Shows(s: QH.State, session: Option<CS.Session<QH.ChangeMessage>>)
      reads redis, topic
    {
      s.stream == CS.State(redis.group, session) && topic.entries == Arrivals(s.history) && s.reported == []
    }

    ghost predicate Reading(s: QH.State, stream: SourceStream)
      reads redis, topic, stream
    {
      && stream.redis == redis && stream.limits == limits && Shows(s, Some(stream.TheSession())) && !s.processed
      && stream.dropped == [] && (stream.unackItem.Some? ==> stream.unackItem.value.data.Some?)
    }

    /** Runs the query on a change that names it, and publishes what it reports. */
    method ProcessChange(e: QH.Entry, work: Work, ghost s: QH.State) returns (ok: bool)
      requires e.data.Some? && QH.Serving(s) && QH.Slot(s) == Some(e) && s.reported == []
      requires topic.entries == Arrivals(s.history)
      modifies topic
      ensures var s' := Worked(s, queryId, limits, work);
              && topic.entries == Arrivals(s'.history) && s'.processed == ok && s'.reported == []
              && s'.stream == if ok then s.stream else s.stream.(session := None)
      ensures queryId !in e.data.value.queries || (work.Reports? && work.results == []) ==>
                ok && topic.entries == old(topic.entries)
      ensures queryId in e.data.value.queries && work.Fails? ==> !ok && topic.entries == old(topic.entries)
      ensures queryId in e.data.value.queries && work.Reports? && work.results != [] ==>
                var arrived := old(topic.entries) + [(e, work.results)];
                match work.publication
                case Unreached => !ok && topic.entries == old(topic.entries)
                case Attempted(Success) => ok && topic.entries == arrived
                case Attempted(ErrorStatus(there)) => ok && topic.entries == if there then arrived else old(topic.entries)
                case Attempted(NoAnswer) => !ok && topic.entries == arrived
    {
      WorkedFacts(s, queryId, limits, work);
      hide Worked, Arrivals, QH.Serving;
      if queryId !in e.data.value.queries {
        return true;
      }
      match work
      case Fails => return false;
      case Reports(results, publication) =>
        ghost var ran := QH.Ran(e, results);
        ArrivalsSnoc(s.history, ran);
        if results == [] {
          return true;
        }
        if publication.Unreached? {
          return false;
        }
        ArrivalsSnoc(s.history + [ran], QH.Sent(e, results, publication.answer));
        if publication.answer.Arrived() {
          topic.entries := topic.entries + [(e, results)];
        }
        return !publication.answer.NoAnswer?;
    }

    /** Serves the held entry again, or takes the next one. */
    method Receive(stream: SourceStream, ghost s: QH.State) returns (r: Result<QH.Entry, StreamError>)
      requires Reading(s, stream)
      requires stream.unackItem.None? ==> stream.buffer != []
      modifies stream
      ensures redis.group == old(redis.group)
      ensures var held := Received(s, queryId, limits);
              && (r.Success? ==>
                    Reading(held, stream) && QH.Serving(held) && QH.Slot(held) == Some(r.value) && r.value.data.Some?)
              && (r.Failure? ==> Shows(held, Some(stream.TheSession())) && !QH.Serving(held) && held != s)
    {
      hide Arrivals;
      r := stream.Recv();
    }

    /** Acknowledges the entry just processed; a failure is ignored. */
    method Acknowledge(stream: SourceStream, id: nat, reply: Reply, ghost s: QH.State)
      requires Reading(s.(processed := false), stream) && s.processed
      requires QH.Slot(s).Some? && QH.Slot(s).value.id == id
      modifies stream, redis
      ensures QH.Enabled(s, queryId, limits, Acknowledging(reply))
      ensures Reading(QH.Next(s, queryId, limits, Acknowledging(reply)), stream)
    {
      hide Arrivals;
      var _ := stream.Ack(id, reply);
    }

    /** Receive, process, acknowledge. */
    method Turn(stream: SourceStream, work: Work, reply: Reply, ghost s: QH.State) returns (outcome: Outcome)
      requires Reading(s, stream)
      requires stream.unackItem.None? ==> stream.buffer != []
      modifies stream, redis, topic
      ensures var (o, s') := Turned(s, queryId, limits, work, reply);
              && o == Some(outcome)
              && if outcome.Processed? then Reading(s', stream) else Shows(s', None) && redis.group == old(redis.group)
    {
      hide Arrivals, Received, Worked, Acknowledging, QH.Next;
      var received := Receive(stream, s);
      if received.Failure? {
        return Undecodable;
      }
      ghost var held := Received(s, queryId, limits);
      var ok := ProcessChange(received.value, work, held);
      if !ok {
        return Failed;
      }
      Acknowledge(stream, received.value.id, reply, Worked(held, queryId, limits, work));
      return Processed;
    }

    /** The reader takes a step, or a change arrives, if that can happen now. */
    method Listen(stream: SourceStream, step: CS.Step<QH.ChangeMessage>, ghost s: QH.State)
      requires Reading(s, stream)
      modifies stream, redis
      ensures Reading(Listened(s, queryId, limits, step), stream)
    {
      if CS.Enabled(stream.TheState(), limits, step) {
        match step
        case Append(e) => redis.Append(e);
        case ReadPending => stream.ReadPendingBatch();
        case ReadNew(count) => stream.ReadNewBatch(count);
        case Push => stream.PushNext();
        case _ =>
      }
    }

    /** The loop of one life, on a new session. */
    method Loop(script: seq<Happening>, ghost s: QH.State) returns (end: Option<End>)
      requires Shows(s, None)
      modifies redis, topic
      ensures end == Lived(s, queryId, limits, script).0 && Shows(Lived(s, queryId, limits, script).1, None)
    {
      hide Turned, Listened, Arrivals;
      ghost var now := QH.Next(s, queryId, limits, QH.Start);
      var stream := new RedisChangeStream(redis, limits);
      for i := 0 to |script|
        invariant Reading(now, stream)
        invariant Looped(now, queryId, limits, script[i..]) == Lived(s, queryId, limits, script)
      {
        assert script[i..][1..] == script[i + 1..];
        match script[i]
        case Shutdown =>
          return Some(ByCommand);
        case OnStream(step) =>
          Listen(stream, step, now);
          now := Listened(now, queryId, limits, step);
        case Message(work, reply) =>
          if stream.unackItem.Some? || stream.buffer != [] {
            var outcome := Turn(stream, work, reply, now);
            now := Turned(now, queryId, limits, work, reply).1;
            if !outcome.Processed? {
              return Some(ByError);
            }
          } else {
            NothingToServe(now, queryId, limits, work, reply);
          }
      }
      return None;
    }
  }

  lemma NothingToServe(s: QH.State, queryId: string, limits: CS.Limits, work: Work, reply: Reply)
    requires s.stream.session.Some? && s.stream.session.value.unackItem.None? && s.stream.session.value.buffer == []
    requires s.reported == []
    ensures Turned(s, queryId, limits, work, reply) == (None, s)
  {
  }

  // ---- Lives keep the machine's invariant ----

  lemma WorkedKeeps(s: QH.State, queryId: string, limits: CS.Limits, work: Work)
    requires QH.Inv(s, queryId, limits) && limits.fetchBatchSize > 0 && QH.Serving(s) && s.reported == []
    ensures QH.Inv(Worked(s, queryId, limits, work), queryId, limits)
    ensures Worked(s, queryId, limits, work).processed ==> QH.Slot(Worked(s, queryId, limits, work)).Some?
    ensures Worked(s, queryId, limits, work).reported == []
  {
    hide QH.Inv;
    if !QH.Names(queryId, QH.Slot(s).value) {
      QH.StepKeeps(s, queryId, limits, QH.Skip);
    } else {
      match work
      case Fails => QH.StepKeeps(s, queryId, limits, QH.Fail);
      case Reports(results, publication) =>
        QH.StepKeeps(s, queryId, limits, QH.Process(results));
        if results != [] {
          var ran := QH.Next(s, queryId, limits, QH.Process(results));
          QH.StepKeeps(ran, queryId, limits, if publication.Unreached? then QH.Fail else QH.Send(publication.answer));
        }
    }
  }

  lemma TurnedKeeps(s: QH.State, queryId: string, limits: CS.Limits, work: Work, reply: Reply)
    requires QH.Inv(s, queryId, limits) && limits.fetchBatchSize > 0 && s.stream.session.Some? && s.reported == []
    ensures var (outcome, s') := Turned(s, queryId, limits, work, reply);
            && QH.Inv(s', queryId, limits) && s'.reported == []
            && if outcome.None? || outcome.value.Processed? then s'.stream.session.Some? else s'.stream.session.None?
  {
    hide QH.Inv, Worked;
    if QH.Enabled(s, queryId, limits, QH.Receive) {
      QH.StepKeeps(s, queryId, limits, QH.Receive);
    }
    var held := Received(s, queryId, limits);
    if QH.Serving(held) {
      WorkedKeeps(held, queryId, limits, work);
      var done := Worked(held, queryId, limits, work);
      if done.processed {
        QH.StepKeeps(done, queryId, limits, Acknowledging(reply));
      } else {
        WorkEnds(held, queryId, limits, work);
      }
    } else {
      QH.EndKeeps(held, queryId, limits);
    }
  }

  lemma WorkEnds(s: QH.State, queryId: string, limits: CS.Limits, work: Work)
    requires QH.Serving(s) && s.reported == [] && !Worked(s, queryId, limits, work).processed
    ensures Worked(s, queryId, limits, work).stream.session.None?
  {
  }

  lemma {:induction false} LoopedKeeps(s: QH.State, queryId: string, limits: CS.Limits, script: seq<Happening>)
    requires QH.Inv(s, queryId, limits) && limits.fetchBatchSize > 0 && s.stream.session.Some? && s.reported == []
    ensures QH.Inv(Looped(s, queryId, limits, script).1, queryId, limits)
    ensures Looped(s, queryId, limits, script).1.stream.session.None? && Looped(s, queryId, limits, script).1.reported == []
    decreases |script|
  {
    hide QH.Inv, Turned;
    QH.EndKeeps(s, queryId, limits);
    if script != [] {
      match script[0]
      case Shutdown =>
      case OnStream(step) =>
        ListenedKeeps(s, queryId, limits, step);
        hide Listened;
        LoopedKeeps(Listened(s, queryId, limits, step), queryId, limits, script[1..]);
      case Message(work, reply) =>
        TurnedKeeps(s, queryId, limits, work, reply);
        var (outcome, next) := Turned(s, queryId, limits, work, reply);
        if outcome.None? || outcome.value.Processed? {
          LoopedKeeps(next, queryId, limits, script[1..]);
        }
    }
  }

  lemma ListenedKeeps(s: QH.State, queryId: string, limits: CS.Limits, step: CS.Step<QH.ChangeMessage>)
    requires QH.Inv(s, queryId, limits) && limits.fetchBatchSize > 0 && s.reported == []
    ensures QH.Inv(Listened(s, queryId, limits, step), queryId, limits)
    ensures Listened(s, queryId, limits, step).reported == []
    ensures s.stream.session.Some? ==> Listened(s, queryId, limits, step).stream.session.Some?
    ensures s.stream.session.None? ==> Listened(s, queryId, limits, step).stream.session.None?
  {
    hide QH.Inv;
    if QH.Enabled(s, queryId, limits, Background(step)) {
      QH.StepKeeps(s, queryId, limits, Background(step));
    }
  }

  datatype Episode = Life(script: seq<Happening>) | Arrived(e: QH.Entry)

  /** Lives one after the other, with changes that arrive in between. */
  ghost function AfterEpisodes(s: QH.State, queryId: string, limits: CS.Limits, episodes: seq<Episode>): QH.State
    requires QH.Inv(s, queryId, limits) && limits.fetchBatchSize > 0 && s.stream.session.None? && s.reported == []
    decreases |episodes|
  {
    if episodes == [] then s
    else match episodes[0]
      case Life(script) =>
        LivedKeeps(s, queryId, limits, script);
        AfterEpisodes(Lived(s, queryId, limits, script).1, queryId, limits, episodes[1..])
      case Arrived(e) =>
        ListenedKeeps(s, queryId, limits, CS.Append(e));
        AfterEpisodes(Listened(s, queryId, limits, CS.Append(e)), queryId, limits, episodes[1..])
  }

  lemma LivedKeeps(s: QH.State, queryId: string, limits: CS.Limits, script: seq<Happening>)
    requires QH.Inv(s, queryId, limits) && limits.fetchBatchSize > 0 && s.stream.session.None?
    ensures var s' := Lived(s, queryId, limits, script).1;
            QH.Inv(s', queryId, limits) && s'.stream.session.None? && s'.reported == []
  {
    hide QH.Inv, Looped;
    QH.StepKeeps(s, queryId, limits, QH.Start);
    LoopedKeeps(QH.Next(s, queryId, limits, QH.Start), queryId, limits, script);
  }

  lemma {:induction false} EpisodesKeep(s: QH.State, queryId: string, limits: CS.Limits, episodes: seq<Episode>)
    requires QH.Inv(s, queryId, limits) && limits.fetchBatchSize > 0 && s.stream.session.None? && s.reported == []
    ensures QH.Inv(AfterEpisodes(s, queryId, limits, episodes), queryId, limits)
    decreases |episodes|
  {
    hide QH.Inv, Lived, Listened;
    if episodes != [] {
      match episodes[0]
      case Life(script) =>
        LivedKeeps(s, queryId, limits, script);
        EpisodesKeep(Lived(s, queryId, limits, script).1, queryId, limits, episodes[1..]);
      case Arrived(e) =>
        ListenedKeeps(s, queryId, limits, CS.Append(e));
        EpisodesKeep(Listened(s, queryId, limits, CS.Append(e)), queryId, limits, episodes[1..]);
    }
  }

  lemma {:induction false} ArrivalMembers(history: seq<QH.Trace>, e: QH.Entry)
    ensures (exists x <- Arrivals(history) :: x.0 == e)
            <==> (exists h <- history :: h.Sent? && h.entry == e && h.answer.Arrived())
    decreases |history|
  {
    if history != [] {
      var n := |history| - 1;
      ArrivalMembers(history[..n], e);
      var h, before := history[n], Arrivals(history[..n]);
      assert forall x <- history :: x in history[..n] || x == h;
      assert h in history && forall x <- history[..n] :: x in history;
      if h.Sent? && h.answer.Arrived() {
        assert Arrivals(history)[|before|] == (h.entry, h.results);
        assert forall x <- before :: x in Arrivals(history);
      }
    }
  }

  /**
   After any lives, however they ended, an acknowledged change that names the query has results in the
   topic, or the query reported nothing for it, unless what it reported was refused with an error status
   and had not arrived: exactly then no attempt at it has arrived or had nothing to say.
   */
  lemma LivesLoseOnlyRefused(s: QH.State, queryId: string, limits: CS.Limits, episodes: seq<Episode>, e: QH.Entry)
    requires QH.Inv(s, queryId, limits) && limits.fetchBatchSize > 0 && s.stream.session.None? && s.reported == []
    requires var s' := AfterEpisodes(s, queryId, limits, episodes);
             e in QH.Acknowledged(s') && QH.Names(queryId, e)
    ensures var s' := AfterEpisodes(s, queryId, limits, episodes);
            var inTopic := QH.Ran(e, []) in s'.history || exists x <- Arrivals(s'.history) :: x.0 == e;
            && (inTopic <==> QH.Delivered(s'.history, e))
            && (!inTopic ==> exists h <- s'.history :: h.Sent? && h.entry == e && h.answer == QH.ErrorStatus(false))
  {
    EpisodesKeep(s, queryId, limits, episodes);
    hide QH.Inv, AfterEpisodes, Arrivals;
    var s' := AfterEpisodes(s, queryId, limits, episodes);
    QH.AckedCompleted(s', queryId, limits, e);
    ArrivalMembers(s'.history, e);
    var h :| h in s'.history && h.Completes() && h.entry == e;
    assert h.Ran? ==> h == QH.Ran(e, []);
    assert h.Sent? ==> h.answer.Arrived() || h.answer == QH.ErrorStatus(false);
    if QH.Delivered(s'.history, e) {
      var d :| d in s'.history && d.entry == e && d.Delivers();
      assert d.Ran? ==> d == QH.Ran(e, []);
    }
  }

  // ---- The same life as the worker's life sees it ----

  function InputOf(s: QH.State, queryId: string, limits: CS.Limits, work: Work): QW.Input
    requires QH.Serving(Received(s, queryId, limits))
  {
    QW.Message(QH.Names(queryId, QH.Slot(Received(s, queryId, limits)).value),
               match work case Fails => QW.Failed
                          case Reports(results, _) => if results == [] then QW.Nothing else QW.Results)
  }

  /** What a turn takes: its input, whether it tried to publish, and whether that failed. */
  datatype Taken = Taken(inputs: seq<QW.Input>, attempts: nat, failed: bool)

  function TakenBy(s: QH.State, queryId: string, limits: CS.Limits, work: Work): (r: Taken)
    ensures r.attempts <= 1 && (r.failed ==> r.attempts == 1)
  {
    var held := Received(s, queryId, limits);
    if !QH.Serving(held) then Taken(if held == s then [] else [QW.ReceiveError], 0, false)
    else
      var tries := QH.Names(queryId, QH.Slot(held).value) && work.Reports? && work.results != [];
      Taken([InputOf(s, queryId, limits, work)], if tries then 1 else 0, tries && !work.publication.TakenForSuccess())
  }

  function AllTaken(s: QH.State, queryId: string, limits: CS.Limits, script: seq<Happening>): (r: Taken)
    ensures r.failed ==> r.attempts > 0
    decreases |script|
  {
    if script == [] then Taken([], 0, false)
    else match script[0]
      case Shutdown => Taken([QW.ShutdownCommand], 0, false)
      case OnStream(step) => AllTaken(Listened(s, queryId, limits, step), queryId, limits, script[1..])
      case Message(work, reply) =>
        if s.reported != [] then Taken([], 0, false)
        else
          var now, (outcome, s') := TakenBy(s, queryId, limits, work), Turned(s, queryId, limits, work, reply);
          if outcome.None? || outcome.value.Processed? then
            var later := AllTaken(s', queryId, limits, script[1..]);
            Taken(now.inputs + later.inputs, now.attempts + later.attempts, later.failed)
          else now
  }

  /** Which outcome the work leads to. */
  lemma TurnOutcome(s: QH.State, queryId: string, limits: CS.Limits, work: Work, reply: Reply)
    requires s.reported == []
    ensures var held, outcome := Received(s, queryId, limits), Turned(s, queryId, limits, work, reply).0;
            outcome == if !QH.Serving(held) then (if held == s then None else Some(Undecodable))
                       else if !QH.Names(queryId, QH.Slot(held).value)
                         || (work.Reports? && (work.results == [] || work.publication.TakenForSuccess())) then Some(Processed)
                       else Some(Failed)
  {
  }

  lemma TurnInput(s: QH.State, queryId: string, limits: CS.Limits, work: Work, reply: Reply, failing: set<nat>, sequence: nat,
                  later: seq<QW.Input>)
    requires s.reported == []
    requires var now := TakenBy(s, queryId, limits, work); now.attempts == 1 ==> (sequence + 1 in failing <==> now.failed)
    ensures var now := TakenBy(s, queryId, limits, work);
            var (outcome, s') := Turned(s, queryId, limits, work, reply);
            if outcome.None? || outcome.value.Processed?
            then QW.LoopEnding(now.inputs + later, failing, sequence) ==
                 QW.After(now.attempts, QW.LoopEnding(later, failing, sequence + now.attempts))
            else QW.LoopEnding(now.inputs, failing, sequence) == QW.Ending(now.attempts, false, true, QW.TransientError)
  {
    TurnOutcome(s, queryId, limits, work, reply);
    hide Turned, Received, Worked, QH.Serving, QH.Names, QH.Slot;
    var now := TakenBy(s, queryId, limits, work);
    if now.inputs == [] {
      assert now.inputs + later == later;
    } else {
      assert (now.inputs + later)[1..] == later && (now.inputs + later)[0] == now.inputs[0];
      assert now.inputs[1..] == [];
    }
  }

  /**
   The life is the worker's: for the inputs it takes, and with the publications failing that fail
   here, the loop attempts as many publications, is left, and leaves the query in a state, as here.
   */
  lemma {:induction false} SameEnding(s: QH.State, queryId: string, limits: CS.Limits, script: seq<Happening>,
                                      failing: set<nat>, sequence: nat)
    requires s.reported == [] && QH.Inv(s, queryId, limits) && limits.fetchBatchSize > 0 && s.stream.session.Some?
    requires var taken := AllTaken(s, queryId, limits, script);
             forall n: nat | sequence < n <= sequence + taken.attempts ::
               n in failing <==> taken.failed && n == sequence + taken.attempts
    ensures var taken, end := AllTaken(s, queryId, limits, script), Looped(s, queryId, limits, script).0;
            QW.LoopEnding(taken.inputs, failing, sequence) ==
            QW.Ending(taken.attempts, false, end.Some?, if end == Some(ByError) then QW.TransientError else QW.QueryState.Running)
    decreases |script|
  {
    hide QH.Inv, Turned, Listened, TakenBy;
    if script != [] {
      match script[0]
      case Shutdown =>
      case OnStream(step) =>
        ListenedKeeps(s, queryId, limits, step);
        SameEnding(Listened(s, queryId, limits, step), queryId, limits, script[1..], failing, sequence);
      case Message(work, reply) =>
        TurnedKeeps(s, queryId, limits, work, reply);
        var (outcome, next) := Turned(s, queryId, limits, work, reply);
        var now, later := TakenBy(s, queryId, limits, work), AllTaken(next, queryId, limits, script[1..]);
        TakenFacts(s, queryId, limits, work, reply);
        assert AllTaken(s, queryId, limits, script).attempts ==
          if outcome.None? || outcome.value.Processed? then now.attempts + later.attempts else now.attempts;
        if outcome.None? || outcome.value.Processed? {
          SameEnding(next, queryId, limits, script[1..], failing, sequence + now.attempts);
        }
        TurnInput(s, queryId, limits, work, reply, failing, sequence, later.inputs);
    }
  }

  /** If a publication fails, so does the turn. */
  lemma TakenFacts(s: QH.State, queryId: string, limits: CS.Limits, work: Work, reply: Reply)
    requires s.reported == []
    ensures var now, (outcome, _) := TakenBy(s, queryId, limits, work), Turned(s, queryId, limits, work, reply);
            outcome.None? || outcome.value.Processed? ==> !now.failed
  {
  }
}
