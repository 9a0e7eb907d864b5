/**
 The sequential change stream over a Redis consumer group, as the query host and the view service
 use it. A background reader first claims again what earlier sessions left pending, then follows
 the stream, pushing entries into a bounded buffer; the consumer takes one entry at a time and holds
 it until it is acknowledged. Sessions end at any moment; the group's pending list survives them.

 The log holds the entries after the group's start. A read that fails claims nothing.
 */
module ChangeStream {
  import opened Wrappers

  /** `data` is absent when the entry cannot be decoded. Identifiers grow along the stream. */
  datatype Entry<T> = Entry(id: nat, data: Option<T>)

  /** Where the background reader is: rereading pending entries after `startId`, or following the stream. */
  datatype Phase = Recovering(startId: nat) | Following

  datatype Session<T> = Session(
    phase: Phase,
    inflight: seq<Entry<T>>,        // claimed batch, not yet pushed
    buffer: seq<Entry<T>>,
    unackItem: Option<Entry<T>>,
    dropped: seq<Entry<T>>)         // taken from the buffer but impossible to decode

  datatype Group<T> = Group(
    log: seq<Entry<T>>,
    delivered: nat,                 // how many log entries have been claimed by the consumer
    pending: seq<Entry<T>>,         // claimed, not acknowledged
    acked: seq<Entry<T>>)

  datatype Limits = Limits(bufferSize: nat, fetchBatchSize: nat)

  datatype State<T> = State(group: Group<T>, session: Option<Session<T>>)

  // ---- Redis ----

  ghost predicate Increasing<T>(entries: seq<Entry<T>>) {
    && (forall i :: 0 <= i < |entries| ==> entries[i].id > 0)
    && (forall i, j :: 0 <= i < j < |entries| ==> entries[i].id < entries[j].id)
  }

  /** The first position from i on whose identifier lies after `startId`. */
  function Skip<T>(pending: seq<Entry<T>>, startId: nat, i: nat): (r: nat)
    requires i <= |pending|
    ensures i <= r <= |pending| && (r < |pending| ==> startId < pending[r].id)
    ensures forall j :: i <= j < r ==> pending[j].id <= startId
    decreases |pending| - i
  {
    if i < |pending| && pending[i].id <= startId then Skip(pending, startId, i + 1) else i
  }

  /** The pending entries after an identifier. */
  function After<T>(pending: seq<Entry<T>>, startId: nat): seq<Entry<T>> {
    pending[Skip(pending, startId, 0)..]
  }

  function Take<T>(entries: seq<T>, n: nat): (r: seq<T>)
    ensures r <= entries && |r| <= n && (|r| == n || r == entries)
  {
    if |entries| <= n then entries else entries[..n]
  }

  function FindPending<T>(pending: seq<Entry<T>>, id: nat): (r: Option<nat>)
    ensures r.Some? ==> r.value < |pending| && pending[r.value].id == id
    ensures r.None? ==> forall e <- pending :: e.id != id
  {
    if pending == [] then None
    else if pending[0].id == id then Some(0)
    else match FindPending(pending[1..], id)
      case Some(i) => Some(i + 1)
      case None => None
  }

  /** Acknowledging takes an identifier off the pending list; an unknown one changes nothing. */
  function Acknowledge<T>(g: Group<T>, id: nat): Group<T> {
    match FindPending(g.pending, id)
    case Some(i) => g.(pending := g.pending[..i] + g.pending[i + 1..], acked := g.acked + [g.pending[i]])
    case None => g
  }

  // ---- Steps ----

  datatype Step<T> =
    | Append(entry: Entry<T>)
    | Open                      // a new session; its reader starts with the pending entries
    | ReadPending               // one round of the recovery loop
    | ReadNew(count: nat)       // one read of undelivered entries, which returns what is there, up to a batch
    | Push                      // the reader moves one entry into the buffer
    | Recv                      // the consumer takes the next entry
    | Ack                       // the held entry is acknowledged
    | AckUnanswered             // acknowledged in Redis, but the reply is lost and the entry stays held
    | Crash                     // consumer and reader end

  predicate Enabled<T>(s: State<T>, limits: Limits, step: Step<T>) {
    match step
    case Append(e) => e.id > 0 && (s.group.log != [] ==> s.group.log[|s.group.log| - 1].id < e.id)
    case Open => s.session.None?
    case ReadPending => s.session.Some? && s.session.value.phase.Recovering? && s.session.value.inflight == []
    case ReadNew(n) =>
      && s.session.Some? && s.session.value.phase.Following? && s.session.value.inflight == []
      && 0 < n <= limits.fetchBatchSize && s.group.delivered + n <= |s.group.log|
    case Push =>
      && s.session.Some? && s.session.value.inflight != []
      && |s.session.value.buffer| < limits.bufferSize
      // The consumers stop after an entry that cannot be decoded.
    case Recv =>
      && s.session.Some? && s.session.value.unackItem.None? && s.session.value.buffer != []
      && s.session.value.dropped == []
    case Ack => s.session.Some? && s.session.value.unackItem.Some?
    case AckUnanswered => s.session.Some? && s.session.value.unackItem.Some?
    case Crash => s.session.Some?
  }

  function OpenSession<T>(): Session<T> { Session(Recovering(0), [], [], None, []) }

  /** Claims no entry: it only rereads the list, in batches, until a batch comes back empty. */
  function AfterReadPending<T>(ss: Session<T>, pending: seq<Entry<T>>, limits: Limits): Session<T>
    requires ss.phase.Recovering?
  {
    var batch := Take(After(pending, ss.phase.startId), limits.fetchBatchSize);
    if batch == [] then ss.(phase := Following)
    else ss.(phase := Recovering(batch[|batch| - 1].id), inflight := batch)
  }

  function AfterRecv<T>(ss: Session<T>): Session<T>
    requires ss.unackItem.None? && ss.buffer != []
  {
    var e := ss.buffer[0];
    if e.data.Some? then ss.(buffer := ss.buffer[1..], unackItem := Some(e))
    else ss.(buffer := ss.buffer[1..], dropped := ss.dropped + [e])
  }

  function Claim<T>(g: Group<T>, n: nat): Group<T>
    requires g.delivered + n <= |g.log|
  {
    g.(delivered := g.delivered + n, pending := g.pending + g.log[g.delivered..g.delivered + n])
  }

  function Next<T>(s: State<T>, limits: Limits, step: Step<T>): State<T>
    requires Enabled(s, limits, step)
  {
    match step
    case Append(e) => s.(group := s.group.(log := s.group.log + [e]))
    case Open => s.(session := Some(OpenSession()))
    case ReadPending => s.(session := Some(AfterReadPending(s.session.value, s.group.pending, limits)))
    case ReadNew(n) =>
      s.(group := Claim(s.group, n),
         session := Some(s.session.value.(inflight := s.group.log[s.group.delivered..s.group.delivered + n])))
    case Push =>
      var ss := s.session.value;
      s.(session := Some(ss.(inflight := ss.inflight[1..], buffer := ss.buffer + [ss.inflight[0]])))
    case Recv => s.(session := Some(AfterRecv(s.session.value)))
    case Ack =>
      s.(group := Acknowledge(s.group, s.session.value.unackItem.value.id),
         session := Some(s.session.value.(unackItem := None)))
    case AckUnanswered => s.(group := Acknowledge(s.group, s.session.value.unackItem.value.id))
    case Crash => s.(session := None)
  }

  predicate Init<T>(s: State<T>) {
    s == State(Group([], 0, [], []), None)
  }

  // ---- The invariant ----

  /** `part` is what the log holds from position `from` on. */
  ghost predicate Segment<T>(log: seq<Entry<T>>, from: nat, part: seq<Entry<T>>) {
    from + |part| <= |log| && part == log[from..from + |part|]
  }

  /** Whether the held entry is still unacknowledged; the consumer itself cannot tell. */
  predicate Holds<T>(ss: Session<T>, pending: seq<Entry<T>>) {
    ss.unackItem.Some? && pending != [] && pending[0].id == ss.unackItem.value.id
  }

  function Held<T>(ss: Session<T>, pending: seq<Entry<T>>): seq<Entry<T>> {
    if Holds(ss, pending) then [pending[0]] else []
  }

  /** The entries that the recovery loop has still to read. */
  function Unread<T>(ss: Session<T>, pending: seq<Entry<T>>): seq<Entry<T>> {
    match ss.phase
    case Recovering(startId) => After(pending, startId)
    case Following => []
  }

  ghost predicate GroupInv<T>(g: Group<T>) {
    && Increasing(g.log)
    && Segment(g.log, 0, g.acked)
    && Segment(g.log, |g.acked|, g.pending)
    && |g.acked| + |g.pending| == g.delivered <= |g.log|
  }

  ghost predicate SessionInv<T>(ss: Session<T>, g: Group<T>, limits: Limits) {
    var atDropped := |g.acked| + |Held(ss, g.pending)|;
    var atBuffer := atDropped + |ss.dropped|;
    var atInflight := atBuffer + |ss.buffer|;
    && Segment(g.log, atDropped, ss.dropped)
    && Segment(g.log, atBuffer, ss.buffer)
    && Segment(g.log, atInflight, ss.inflight)
    && atInflight + |ss.inflight| + |Unread(ss, g.pending)| == g.delivered
    && (Holds(ss, g.pending) ==> ss.unackItem.value == g.pending[0])
    && (ss.unackItem.Some? && !Holds(ss, g.pending) ==>
          g.acked != [] && g.acked[|g.acked| - 1] == ss.unackItem.value)
    && |ss.dropped| <= 1 && (ss.dropped != [] ==> ss.unackItem.None?)
    && |ss.buffer| <= limits.bufferSize && |ss.inflight| <= limits.fetchBatchSize
  }

  function Bound(limits: Limits): nat { 1 + limits.bufferSize + limits.fetchBatchSize }

  ghost predicate Inv<T>(s: State<T>, limits: Limits) {
    && GroupInv(s.group)
    && |s.group.pending| <= Bound(limits)
    && (s.session.Some? ==> SessionInv(s.session.value, s.group, limits))
  }

  // ---- Segments ----

  lemma SegmentHead<T>(log: seq<Entry<T>>, from: nat, part: seq<Entry<T>>)
    requires Segment(log, from, part) && part != []
    ensures part[0] == log[from] && part[|part| - 1] == log[from + |part| - 1]
    ensures Segment(log, from + 1, part[1..])
    ensures Segment(log, from, [part[0]])
  {
  }

  lemma SegmentConcat<T>(log: seq<Entry<T>>, from: nat, a: seq<Entry<T>>, b: seq<Entry<T>>)
    requires Segment(log, from, a) && Segment(log, from + |a|, b)
    ensures Segment(log, from, a + b)
  {
  }

  lemma SegmentSplit<T>(log: seq<Entry<T>>, from: nat, part: seq<Entry<T>>, n: nat)
    requires Segment(log, from, part) && n <= |part|
    ensures Segment(log, from, part[..n]) && Segment(log, from + n, part[n..])
  {
  }

  lemma SegmentGrows<T>(log: seq<Entry<T>>, e: Entry<T>, from: nat, part: seq<Entry<T>>)
    requires Segment(log, from, part)
    ensures Segment(log + [e], from, part)
  {
  }

  lemma EmptySegment<T>(log: seq<Entry<T>>, from: nat)
    requires from <= |log|
    ensures Segment(log, from, [])
  {
  }

  lemma SegmentIncreasing<T>(log: seq<Entry<T>>, from: nat, part: seq<Entry<T>>)
    requires Increasing(log) && Segment(log, from, part)
    ensures Increasing(part)
  {
    assert forall i :: 0 <= i < |part| ==> part[i] == log[from + i];
  }

  lemma {:induction false} SkipIndex<T>(p: seq<Entry<T>>, i: nat, j: nat)
    requires Increasing(p) && i <= j < |p|
    ensures Skip(p, p[j].id, i) == j + 1
    decreases j - i
  {
    if i < j {
      SkipIndex(p, i + 1, j);
    }
  }

  /** Taking off the head moves every position by one. */
  lemma {:induction false} SkipTail<T>(p: seq<Entry<T>>, startId: nat, i: nat)
    requires i < |p|
    ensures Skip(p[1..], startId, i) + 1 == Skip(p, startId, i + 1)
    decreases |p| - i
  {
    if i + 1 < |p| {
      assert p[1..][i] == p[i + 1];
      SkipTail(p, startId, i + 1);
    }
  }

  lemma PendingFacts<T>(g: Group<T>)
    requires GroupInv(g)
    ensures Increasing(g.pending)
    ensures g.acked != [] && g.pending != [] ==> g.acked[|g.acked| - 1].id < g.pending[0].id
    ensures g.pending != [] ==> |g.acked| < |g.log| && g.pending[0] == g.log[|g.acked|]
    ensures g.acked != [] ==> g.acked[|g.acked| - 1] == g.log[|g.acked| - 1]
  {
    SegmentIncreasing(g.log, |g.acked|, g.pending);
  }

  // ---- Steps keep it ----

  lemma AppendFacts<T>(g: Group<T>, e: Entry<T>)
    requires Increasing(g.log) && e.id > 0 && (g.log != [] ==> g.log[|g.log| - 1].id < e.id)
    ensures Increasing(g.log + [e])
  {
  }

  lemma AppendGroup<T>(g: Group<T>, e: Entry<T>)
    requires GroupInv(g) && e.id > 0 && (g.log != [] ==> g.log[|g.log| - 1].id < e.id)
    ensures GroupInv(g.(log := g.log + [e]))
  {
    hide Increasing, Segment;
    AppendFacts(g, e);
    SegmentGrows(g.log, e, 0, g.acked);
    SegmentGrows(g.log, e, |g.acked|, g.pending);
  }

  lemma AppendSession<T>(ss: Session<T>, g: Group<T>, limits: Limits, e: Entry<T>)
    requires SessionInv(ss, g, limits)
    ensures SessionInv(ss, g.(log := g.log + [e]), limits)
  {
    hide Segment, Held, Holds, Unread;
    var at := |g.acked| + |Held(ss, g.pending)|;
    SegmentGrows(g.log, e, at, ss.dropped);
    SegmentGrows(g.log, e, at + |ss.dropped|, ss.buffer);
    SegmentGrows(g.log, e, at + |ss.dropped| + |ss.buffer|, ss.inflight);
  }

  lemma AppendKeeps<T>(s: State<T>, limits: Limits, e: Entry<T>)
    requires Inv(s, limits) && Enabled(s, limits, Append(e))
    ensures Inv(Next(s, limits, Append(e)), limits)
  {
    hide GroupInv, SessionInv;
    AppendGroup(s.group, e);
    if s.session.Some? {
      AppendSession(s.session.value, s.group, limits, e);
    }
  }

  /** Every identifier lies after "0". */
  lemma OpenFacts<T>(g: Group<T>)
    requires GroupInv(g)
    ensures After(g.pending, 0) == g.pending
  {
    PendingFacts(g);
  }

  lemma OpenKeeps<T>(s: State<T>, limits: Limits)
    requires Inv(s, limits) && s.session.None?
    ensures Inv(Next(s, limits, Open), limits)
    ensures Unread(OpenSession(), s.group.pending) == s.group.pending
  {
    hide Increasing, Segment, After;
    OpenFacts(s.group);
    EmptySegment(s.group.log, |s.group.acked|);
  }

  lemma TakeSegment<T>(log: seq<Entry<T>>, from: nat, part: seq<Entry<T>>, n: nat)
    requires Segment(log, from, part)
    ensures Segment(log, from, Take(part, n)) && |Take(part, n)| == if |part| <= n then |part| else n
    ensures forall i :: 0 <= i < |Take(part, n)| ==> Take(part, n)[i] == part[i]
  {
  }

  lemma AfterSegment<T>(g: Group<T>, startId: nat)
    requires GroupInv(g)
    ensures var from := Skip(g.pending, startId, 0);
            && |After(g.pending, startId)| == |g.pending| - from
            && Segment(g.log, |g.acked| + from, After(g.pending, startId))
  {
    hide Skip, Segment;
    SegmentSplit(g.log, |g.acked|, g.pending, Skip(g.pending, startId, 0));
  }

  /** One round of recovery reads the next stretch of the pending list and moves its start behind it. */
  lemma ReadPendingFacts<T>(g: Group<T>, startId: nat, n: nat)
    requires GroupInv(g) && n > 0
    ensures var rest := After(g.pending, startId);
            var batch := Take(rest, n);
            && |rest| <= |g.pending|
            && (batch == [] <==> rest == [])
            && Segment(g.log, g.delivered - |rest|, batch)
            && (batch != [] ==> |After(g.pending, batch[|batch| - 1].id)| == |rest| - |batch|)
  {
    hide Segment, Skip, Take, Increasing;
    var from, rest := Skip(g.pending, startId, 0), After(g.pending, startId);
    PendingFacts(g);
    AfterSegment(g, startId);
    TakeSegment(g.log, |g.acked| + from, rest, n);
    var batch := Take(rest, n);
    if batch != [] {
      var last := from + |batch| - 1;
      assert batch[|batch| - 1] == rest[|batch| - 1] == g.pending[last];
      SkipIndex(g.pending, 0, last);
    }
  }

  lemma ReadPendingKeeps<T>(s: State<T>, limits: Limits)
    requires Inv(s, limits) && Enabled(s, limits, ReadPending)
    requires limits.fetchBatchSize > 0
    ensures Inv(Next(s, limits, ReadPending), limits)
  {
    hide Increasing, Segment, After;
    ReadPendingFacts(s.group, s.session.value.phase.startId, limits.fetchBatchSize);
  }

  lemma ReadNewFacts<T>(g: Group<T>, n: nat)
    requires GroupInv(g) && 0 < n && g.delivered + n <= |g.log|
    ensures var batch := g.log[g.delivered..g.delivered + n];
            && Segment(g.log, g.delivered, batch)
            && Segment(g.log, |g.acked|, g.pending + batch)
            && (g.acked != [] && g.pending == [] ==> g.acked[|g.acked| - 1].id != batch[0].id)
  {
    var batch := g.log[g.delivered..g.delivered + n];
    SegmentConcat(g.log, |g.acked|, g.pending, batch);
    PendingFacts(g);
  }

  lemma ReadNewKeeps<T>(s: State<T>, limits: Limits, n: nat)
    requires Inv(s, limits) && Enabled(s, limits, ReadNew(n))
    ensures Inv(Next(s, limits, ReadNew(n)), limits)
  {
    hide Increasing, Segment;
    var g, ss := s.group, s.session.value;
    var batch := g.log[g.delivered..g.delivered + n];
    // An entry acknowledged unnoticed may still be held; what is claimed now comes after it.
    ReadNewFacts(g, n);
    assert Holds(ss, g.pending + batch) == Holds(ss, g.pending);
  }

  lemma PushKeeps<T>(s: State<T>, limits: Limits)
    requires Inv(s, limits) && Enabled(s, limits, Push)
    ensures Inv(Next(s, limits, Push), limits)
  {
    hide Increasing, Segment;
    var g, ss := s.group, s.session.value;
    var atBuffer := |g.acked| + |Held(ss, g.pending)| + |ss.dropped|;
    SegmentHead(g.log, atBuffer + |ss.buffer|, ss.inflight);
    SegmentConcat(g.log, atBuffer, ss.buffer, [ss.inflight[0]]);
  }

  lemma RecvKeeps<T>(s: State<T>, limits: Limits)
    requires Inv(s, limits) && Enabled(s, limits, Recv)
    ensures Inv(Next(s, limits, Recv), limits)
  {
    hide Increasing, Segment, After;
    var g, ss := s.group, s.session.value;
    SegmentHead(g.log, |g.acked|, ss.buffer);
    SegmentHead(g.log, |g.acked|, g.pending);
    EmptySegment(g.log, |g.acked| + 1);
    assert ss.dropped + [ss.buffer[0]] == [ss.buffer[0]];
  }

  lemma AcknowledgeHeld<T>(g: Group<T>)
    requires GroupInv(g) && g.pending != []
    ensures Acknowledge(g, g.pending[0].id) == g.(pending := g.pending[1..], acked := g.acked + [g.pending[0]])
    ensures GroupInv(Acknowledge(g, g.pending[0].id))
  {
    hide Increasing, Segment;
    assert FindPending(g.pending, g.pending[0].id) == Some(0);
    assert g.pending[..0] + g.pending[1..] == g.pending[1..];
    SegmentHead(g.log, |g.acked|, g.pending);
    SegmentConcat(g.log, 0, g.acked, [g.pending[0]]);
  }

  lemma AcknowledgeStale<T>(g: Group<T>)
    requires GroupInv(g) && g.acked != []
    ensures Acknowledge(g, g.acked[|g.acked| - 1].id) == g
  {
    PendingFacts(g);
  }

  lemma AckFacts<T>(g: Group<T>)
    requires GroupInv(g)
    ensures |g.pending| > 1 ==> g.pending[0].id != g.pending[1].id
  {
    PendingFacts(g);
  }

  /** Taking off the head does not change what comes after an identifier beyond it. */
  lemma AfterTail<T>(pending: seq<Entry<T>>, startId: nat)
    requires pending != [] && |After(pending, startId)| < |pending|
    ensures After(pending[1..], startId) == After(pending, startId)
  {
    SkipTail(pending, startId, 0);
    var k := Skip(pending[1..], startId, 0);
    hide Skip;
    assert pending[1..][k..] == pending[k + 1..];
  }

  lemma AckKeeps<T>(s: State<T>, limits: Limits, step: Step<T>)
    requires Inv(s, limits) && (step.Ack? || step.AckUnanswered?) && Enabled(s, limits, step)
    ensures Inv(Next(s, limits, step), limits)
  {
    hide Increasing, Segment, After, Acknowledge;
    var g, ss := s.group, s.session.value;
    if Holds(ss, g.pending) {
      AcknowledgeHeld(g);
      AckFacts(g);
      assert !Holds(ss, g.pending[1..]);
      if ss.phase.Recovering? {
        AfterTail(g.pending, ss.phase.startId);
      }
    } else {
      AcknowledgeStale(g);
    }
  }

  lemma StepKeeps<T>(s: State<T>, limits: Limits, step: Step<T>)
    requires Inv(s, limits) && Enabled(s, limits, step) && limits.fetchBatchSize > 0
    ensures Inv(Next(s, limits, step), limits)
  {
    hide GroupInv, SessionInv, Bound;
    match step
    case Append(e) => AppendKeeps(s, limits, e);
    case Open => OpenKeeps(s, limits);
    case ReadPending => ReadPendingKeeps(s, limits);
    case ReadNew(n) => ReadNewKeeps(s, limits, n);
    case Push => PushKeeps(s, limits);
    case Recv => RecvKeeps(s, limits);
    case Ack => AckKeeps(s, limits, step);
    case AckUnanswered => AckKeeps(s, limits, step);
    case Crash =>
  }

  // ---- What each kind of step means to the consumer ----

  /** Appending and the background reader leave the acknowledged entries and the held one alone. */
  lemma QuietStep<T>(s: State<T>, limits: Limits, step: Step<T>)
    requires Inv(s, limits) && Enabled(s, limits, step)
    requires step.Append? || step.ReadPending? || step.ReadNew? || step.Push?
    ensures var s' := Next(s, limits, step);
            && s'.group.acked == s.group.acked && s.group.log <= s'.group.log
            && (step.Append? || s'.group.log == s.group.log)
            && (s'.session.Some? <==> s.session.Some?)
            && (s.session.Some? ==>
                  && s'.session.value.unackItem == s.session.value.unackItem
                  && (Holds(s'.session.value, s'.group.pending) <==> Holds(s.session.value, s.group.pending)))
  {
    hide Increasing, Segment, After;
    if step.ReadNew? {
      ReadNewFacts(s.group, step.count);
    }
  }

  lemma RecvEffect<T>(s: State<T>, limits: Limits)
    requires Inv(s, limits) && Enabled(s, limits, Recv)
    ensures var s' := Next(s, limits, Recv);
            && s'.group == s.group && s'.session.Some? && |s.group.acked| < |s.group.log|
            && s'.session.value.unackItem ==
               (if s.group.log[|s.group.acked|].data.Some? then Some(s.group.log[|s.group.acked|]) else None)
            && (s'.session.value.unackItem.Some? ==> Holds(s'.session.value, s'.group.pending))
  {
    hide Increasing, Segment, After;
    var g, ss := s.group, s.session.value;
    SegmentHead(g.log, |g.acked|, ss.buffer);
    SegmentHead(g.log, |g.acked|, g.pending);
    PendingFacts(g);
  }

  lemma AckEffect<T>(s: State<T>, limits: Limits, step: Step<T>)
    requires Inv(s, limits) && (step.Ack? || step.AckUnanswered?) && Enabled(s, limits, step)
    ensures var g, ss, s' := s.group, s.session.value, Next(s, limits, step);
            && s'.session.Some? && s'.group.log == g.log
            && s'.session.value.unackItem == (if step.Ack? then None else ss.unackItem)
            && !Holds(s'.session.value, s'.group.pending)
            && s'.group.acked == (if Holds(ss, g.pending) then g.acked + [ss.unackItem.value] else g.acked)
            && (!Holds(ss, g.pending) ==> s'.group == g)
  {
    hide Increasing, Segment, After, Acknowledge;
    var g, ss := s.group, s.session.value;
    if Holds(ss, g.pending) {
      AcknowledgeHeld(g);
      AckFacts(g);
    } else {
      AcknowledgeStale(g);
    }
  }

  // ---- Runs ----

  ghost predicate IsRun<T>(states: seq<State<T>>, steps: seq<Step<T>>, limits: Limits) {
    && |states| == |steps| + 1 && Init(states[0])
    && forall i :: 0 <= i < |steps| ==>
         Enabled(states[i], limits, steps[i]) && states[i + 1] == Next(states[i], limits, steps[i])
  }

  lemma {:induction false} RunKeeps<T>(states: seq<State<T>>, steps: seq<Step<T>>, limits: Limits, i: nat)
    requires IsRun(states, steps, limits) && i < |states| && limits.fetchBatchSize > 0
    ensures Inv(states[i], limits)
  {
    if i > 0 {
      RunKeeps(states, steps, limits, i - 1);
      StepKeeps(states[i - 1], limits, steps[i - 1]);
    }
  }

  /**
   In every state of every run the log splits, in order, into what is acknowledged, held, dropped,
   buffered, in flight, still to be reread and not yet claimed. Nothing is skipped or repeated.
   */
  lemma LogDecomposition<T>(states: seq<State<T>>, steps: seq<Step<T>>, limits: Limits, i: nat)
    requires IsRun(states, steps, limits) && i < |states| && limits.fetchBatchSize > 0
    ensures var g := states[i].group;
            && g.delivered <= |g.log|
            && g.acked + g.pending + g.log[g.delivered..] == g.log
            && (states[i].session.Some? ==>
                  var ss := states[i].session.value;
                  g.acked + Held(ss, g.pending) + ss.dropped + ss.buffer + ss.inflight
                  + Unread(ss, g.pending) + g.log[g.delivered..] == g.log)
  {
    RunKeeps(states, steps, limits, i);
    var g := states[i].group;
    var rest := g.log[g.delivered..];
    Whole(g.log, g.acked + g.pending, rest);
    if states[i].session.Some? {
      Decompose(states[i], limits);
    }
  }

  lemma Whole<T>(log: seq<Entry<T>>, a: seq<Entry<T>>, rest: seq<Entry<T>>)
    requires Segment(log, 0, a) && rest == log[|a|..]
    ensures a + rest == log
  {
  }

  lemma UnreadSegment<T>(ss: Session<T>, g: Group<T>)
    requires GroupInv(g)
    ensures |Unread(ss, g.pending)| <= |g.pending|
    ensures Segment(g.log, g.delivered - |Unread(ss, g.pending)|, Unread(ss, g.pending))
    ensures Segment(g.log, |g.acked|, Held(ss, g.pending))
  {
    hide Segment, Increasing, Skip;
    if ss.phase.Recovering? {
      SegmentSplit(g.log, |g.acked|, g.pending, Skip(g.pending, ss.phase.startId, 0));
    }
    EmptySegment(g.log, |g.acked|);
    EmptySegment(g.log, g.delivered);
    if g.pending != [] {
      SegmentHead(g.log, |g.acked|, g.pending);
    }
  }

  lemma Decompose<T>(s: State<T>, limits: Limits)
    requires Inv(s, limits) && s.session.Some?
    ensures var g, ss := s.group, s.session.value;
            g.acked + Held(ss, g.pending) + ss.dropped + ss.buffer + ss.inflight
            + Unread(ss, g.pending) + g.log[g.delivered..] == g.log
  {
    hide Segment, Increasing, Held, Unread;
    var g, ss := s.group, s.session.value;
    var held, unread := Held(ss, g.pending), Unread(ss, g.pending);
    UnreadSegment(ss, g);
    var a1 := g.acked + held;
    SegmentConcat(g.log, 0, g.acked, held);
    var a2 := a1 + ss.dropped;
    SegmentConcat(g.log, 0, a1, ss.dropped);
    var a3 := a2 + ss.buffer;
    SegmentConcat(g.log, 0, a2, ss.buffer);
    var a4 := a3 + ss.inflight;
    SegmentConcat(g.log, 0, a3, ss.inflight);
    SegmentConcat(g.log, 0, a4, unread);
    Whole(g.log, a4 + unread, g.log[g.delivered..]);
  }

  /** Over all sessions and restarts. */
  lemma PrefetchBound<T>(states: seq<State<T>>, steps: seq<Step<T>>, limits: Limits, i: nat)
    requires IsRun(states, steps, limits) && i < |states| && limits.fetchBatchSize > 0
    ensures |states[i].group.pending| <= 1 + limits.bufferSize + limits.fetchBatchSize
  {
    RunKeeps(states, steps, limits, i);
  }

  /**
   What the consumer is handed, first time or again, is the first entry it has not acknowledged; the
   one exception is an entry whose acknowledgement went through without an answer.
   */
  lemma ServesNext<T>(s: State<T>, limits: Limits)
    requires Inv(s, limits) && s.session.Some?
    ensures var g, ss := s.group, s.session.value;
            && (Enabled(s, limits, Recv) ==> |g.acked| < |g.log| && ss.buffer[0] == g.log[|g.acked|])
            && (Holds(ss, g.pending) ==> |g.acked| < |g.log| && ss.unackItem.value == g.log[|g.acked|])
            && (ss.unackItem.Some? && !Holds(ss, g.pending) ==>
                  0 < |g.acked| <= |g.log| && ss.unackItem.value == g.acked[|g.acked| - 1] == g.log[|g.acked| - 1])
            && (ss.dropped != [] ==> |g.acked| < |g.log| && ss.dropped == [g.log[|g.acked|]])
  {
    hide Increasing, Segment;
    var g, ss := s.group, s.session.value;
    PendingFacts(g);
    if Enabled(s, limits, Recv) {
      SegmentHead(g.log, |g.acked|, ss.buffer);
    }
    if ss.dropped != [] {
      SegmentHead(g.log, |g.acked|, ss.dropped);
    }
  }

  /** A new session starts by rereading exactly what no session has acknowledged. */
  lemma RestartServesUnacked<T>(s: State<T>, limits: Limits)
    requires Inv(s, limits) && s.session.None?
    ensures var s' := Next(s, limits, Open);
            && |s.group.acked| <= |s.group.log| && s'.group == s.group
            && s.group.delivered <= |s.group.log|
            && Unread(s'.session.value, s.group.pending) + s.group.log[s.group.delivered..]
               == s.group.log[|s.group.acked|..]
  {
    OpenKeeps(s, limits);
    PendingThenUnclaimed(s.group);
    hide GroupInv, SessionInv, Segment, After;
  }

  lemma PendingThenUnclaimed<T>(g: Group<T>)
    requires GroupInv(g)
    ensures g.pending + g.log[g.delivered..] == g.log[|g.acked|..]
  {
    hide Increasing;
    assert g.log[|g.acked|..][..|g.pending|] == g.pending;
  }

  // ---- The reader is never stuck ----

  /** What an undisturbed session does next while the consumer waits. */
  function Drive<T>(s: State<T>): Step<T>
    requires s.session.Some?
  {
    var ss := s.session.value;
    if ss.buffer != [] then Recv
    else if ss.inflight != [] then Push
    else if ss.phase.Recovering? then ReadPending
    else ReadNew(1)
  }

  function Distance<T>(s: State<T>): nat
    requires s.session.Some?
  {
    var ss := s.session.value;
    if ss.buffer != [] then 0
    else if ss.inflight != [] then 1
    else if ss.phase.Following? || After(s.group.pending, ss.phase.startId) != [] then 2
    else 3
  }

  /** The consumer waits for the entry after the acknowledged ones. */
  ghost predicate Waiting<T>(s: State<T>, limits: Limits) {
    && Inv(s, limits) && limits.fetchBatchSize > 0 && limits.bufferSize > 0
    && s.session.Some? && s.session.value.unackItem.None? && s.session.value.dropped == []
    && |s.group.acked| < |s.group.log|
  }

  lemma DriveEnabled<T>(s: State<T>, limits: Limits)
    requires Waiting(s, limits) && s.session.value.buffer == []
    ensures Enabled(s, limits, Drive(s))
  {
    hide Increasing, Segment, After;
  }

  lemma DriveCloser<T>(s: State<T>, limits: Limits)
    requires s.session.Some? && Enabled(s, limits, Drive(s)) && s.session.value.buffer == [] && limits.fetchBatchSize > 0
    ensures var s' := Next(s, limits, Drive(s));
            && s'.session.Some? && Distance(s') < Distance(s)
            && s'.session.value.unackItem == s.session.value.unackItem
            && s'.session.value.dropped == s.session.value.dropped
            && s'.group.log == s.group.log && s'.group.acked == s.group.acked
  {
  }

  lemma DriveStep<T>(s: State<T>, limits: Limits)
    requires Waiting(s, limits) && s.session.value.buffer == []
    ensures Enabled(s, limits, Drive(s))
    ensures var s' := Next(s, limits, Drive(s));
            && Waiting(s', limits) && Distance(s') < Distance(s)
            && s'.group.log == s.group.log && s'.group.acked == s.group.acked
  {
    hide Inv, Next, Enabled, Drive, Distance;
    DriveEnabled(s, limits);
    StepKeeps(s, limits, Drive(s));
    DriveCloser(s, limits);
  }

  /** An unacknowledged entry reaches an idle consumer after at most four steps of its session. */
  lemma {:induction false} Delivery<T>(s: State<T>, limits: Limits) returns (last: State<T>, count: nat)
    requires Waiting(s, limits)
    ensures count <= Distance(s) + 1 <= 4 && Reaches(s, limits, last, count)
    ensures last.session.Some?
    ensures var next := s.group.log[|s.group.acked|];
            if next.data.Some? then last.session.value.unackItem == Some(next)
            else last.session.value.dropped == [next]
    decreases Distance(s)
  {
    if s.session.value.buffer == [] {
      DriveStep(s, limits);
      last, count := Delivery(Next(s, limits, Drive(s)), limits);
      count := count + 1;
    } else {
      ServesNext(s, limits);
      last, count := Next(s, limits, Drive(s)), 1;
      assert Reaches(last, limits, last, 0);
    }
  }

  /** `last` comes `count` undisturbed steps after s. */
  predicate Reaches<T(==)>(s: State<T>, limits: Limits, last: State<T>, count: nat)
    decreases count
  {
    if count == 0 then s == last
    else
      && s.session.Some? && Enabled(s, limits, Drive(s))
      && Reaches(Next(s, limits, Drive(s)), limits, last, count - 1)
  }
}
