/**
 The client object of one session: the held entry, the buffer and the reader's cursor, which its
 methods update in place, over a consumer group that outlives it. Every method takes the step of
 the protocol that it stands for.
 */
module RedisChangeStream {
  import opened Wrappers
  import opened ChangeStream

  datatype StreamError = MessageError(id: nat) | AckOutOfSequence | IOError

  /** What becomes of one acknowledgement on the wire. */
  datatype Reply = Confirmed | Refused | Lost

  /** The stream and its group, as Redis keeps them. */
  class ConsumerGroup<T> {
    var group: Group<T>

    constructor ()
      ensures group == Group([], 0, [], [])
    {
      group := Group([], 0, [], []);
    }

    /** Redis numbers the entries upwards. */
    method Append(e: Entry<T>)
      requires Enabled(State(group, None), Limits(0, 0), ChangeStream.Append(e))
      modifies this
      ensures group == old(group).(log := old(group).log + [e])
    {
      group := group.(log := group.log + [e]);
    }
  }

  class RedisChangeStream<T> {
    const redis: ConsumerGroup<T>
    const limits: Limits
    var phase: Phase
    var inflight: seq<Entry<T>>
    var buffer: seq<Entry<T>>
    var unackItem: Option<Entry<T>>
    var dropped: seq<Entry<T>>

    function TheSession(): Session<T>
      reads this
    {
      Session(phase, inflight, buffer, unackItem, dropped)
    }

    function TheState(): State<T>
      reads this, redis
    {
      State(redis.group, Some(TheSession()))
    }

    constructor (redis: ConsumerGroup<T>, limits: Limits)
      ensures this.redis == redis && this.limits == limits
      ensures TheState() == Next(State(redis.group, None), limits, Open)
    {
      this.redis, this.limits := redis, limits;
      phase, inflight, buffer, unackItem, dropped := Recovering(0), [], [], None, [];
    }

    /** One round of the recovery loop; an empty batch ends the recovery. */
    method ReadPendingBatch()
      requires Enabled(TheState(), limits, ReadPending)
      modifies this
      ensures TheState() == Next(old(TheState()), limits, ReadPending)
      ensures phase.Following? <==> redis.group.pending == [] || After(redis.group.pending, old(phase.startId)) == []
                                    || limits.fetchBatchSize == 0
      ensures phase.Recovering? ==>
                && inflight != [] && phase.startId == inflight[|inflight| - 1].id
                && inflight == Take(After(redis.group.pending, old(phase.startId)), limits.fetchBatchSize)
    {
      var batch := Take(After(redis.group.pending, phase.startId), limits.fetchBatchSize);
      if |batch| == 0 {
        phase := Following;
      } else {
        phase := Recovering(batch[|batch| - 1].id);
        inflight := batch;
      }
    }

    /** One blocking read that comes back with `count` new entries. */
    method ReadNewBatch(count: nat)
      requires Enabled(TheState(), limits, ReadNew(count))
      modifies this, redis
      ensures TheState() == Next(old(TheState()), limits, ReadNew(count))
      ensures inflight == old(redis.group.log[redis.group.delivered..redis.group.delivered + count])
      ensures redis.group == old(redis.group).(delivered := old(redis.group.delivered) + count,
                                               pending := old(redis.group.pending) + inflight)
    {
      inflight := redis.group.log[redis.group.delivered..redis.group.delivered + count];
      redis.group := Claim(redis.group, count);
    }

    /** The reader hands one entry to the channel, which has room for it. */
    method PushNext()
      requires Enabled(TheState(), limits, Push)
      modifies this
      ensures TheState() == Next(old(TheState()), limits, Push)
      ensures buffer + inflight == old(buffer + inflight) && |buffer| == old(|buffer|) + 1 && unackItem == old(unackItem)
    {
      buffer := buffer + [inflight[0]];
      inflight := inflight[1..];
    }

    /** Serves the held entry again, or else the next one, once the channel has one. */
    method Recv() returns (r: Result<Entry<T>, StreamError>)
      requires unackItem.None? ==> buffer != []
      modifies this
      ensures old(unackItem).Some? ==> r == Success(old(unackItem).value) && TheState() == old(TheState())
      ensures old(unackItem).None? ==>
                && TheState() == old(TheState()).(session := Some(AfterRecv(old(TheSession()))))
                && r == (if old(buffer)[0].data.Some? then Success(old(buffer)[0]) else Failure(MessageError(old(buffer)[0].id)))
    {
      if unackItem.Some? {
        return Success(unackItem.value);
      }
      var data := buffer[0];
      buffer := buffer[1..];
      if data.data.None? {
        dropped := dropped + [data];
        return Failure(MessageError(data.id));
      }
      unackItem := Some(data);
      return Success(data);
    }

    /** Only the held entry can be acknowledged, and it stays held unless Redis confirms. */
    method Ack(id: nat, reply: Reply) returns (r: Result<(), StreamError>)
      modifies this, redis
      ensures var held := old(unackItem).Some? && old(unackItem).value.id == id;
              if !held then r == Failure(AckOutOfSequence) && TheState() == old(TheState())
              else match reply
                case Confirmed => r == Success(()) && TheState() == Next(old(TheState()), limits, Step.Ack)
                case Refused => r == Failure(IOError) && TheState() == old(TheState())
                case Lost => r == Failure(IOError) && TheState() == Next(old(TheState()), limits, AckUnanswered)
      ensures r.Success? ==> unackItem == None
      ensures r.Failure? ==> unackItem == old(unackItem)
      ensures reply == Refused || old(unackItem).None? || old(unackItem).value.id != id ==> redis.group == old(redis.group)
      ensures redis.group.log == old(redis.group).log && redis.group.delivered == old(redis.group).delivered
    {
      if unackItem.None? || unackItem.value.id != id {
        return Failure(AckOutOfSequence);
      }
      if reply != Refused {
        redis.group := Acknowledge(redis.group, id);
      }
      if reply != Confirmed {
        return Failure(IOError);
      }
      unackItem := None;
      return Success(());
    }
  }
}
