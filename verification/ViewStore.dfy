/**
 The view store: one document collection per view, the retention policies of the configured views,
 and the operations that the view worker, the read endpoint and the collector call. Database calls
 may fail; a failed call may or may not have taken effect.
 */
module ViewStore {
  import opened Wrappers
  import opened Results
  import opened ViewCollection
  import opened GarbageCollection

  datatype Collection = Collection(docs: seq<Doc>, metadata: Option<Metadata>)

  const EMPTY := Collection([], None)

  datatype ViewError = NotFound | StoreError

  /** Which database call of an operation fails, counting from zero, and whether it still took effect. */
  datatype Fault = NoFault | Fault(call: nat, applied: bool) {
    predicate Hits(calls: nat) { Fault? && call < calls }

    /** How many of the first `calls` calls take effect. */
    function Applied(calls: nat): nat {
      if Hits(calls) then call + (if applied then 1 else 0) else calls
    }
  }

  datatype Header = Header(sequence: nat, timestamp: int, state: Option<string>)

  function Lookup(database: map<string, Collection>, id: string): Collection {
    if id in database then database[id] else EMPTY
  }

  /** A collection after the first n calls of recording a change; the last call stores the metadata. */
  function Recorded(policy: RetentionPolicy, c: Collection, change: Change, n: nat): Collection {
    var ops := EventOps(change);
    if n <= |ops| then c.(docs := ApplyOps(policy, c.docs, ops[..n], change.sourceTime))
    else Collection(
      ApplyOps(policy, c.docs, ops, change.sourceTime),
      Some(Metadata(change.sequence, change.sourceTime,
                    if c.metadata.Some? then c.metadata.value.state else None)))
  }

  class MongoViewStore {
    var retentionPolicy: map<string, RetentionPolicy>
    var database: map<string, Collection>

    constructor ()
      ensures retentionPolicy == map[] && database == map[]
    {
      retentionPolicy, database := map[], map[];
    }

    function Get(id: string): Collection
      reads this
    {
      Lookup(database, id)
    }

    twostate predicate OthersUnchanged(id: string)
      reads this
    {
      forall other: string :: other != id ==> Lookup(database, other) == old(Lookup(database, other))
    }

    /** Sets the policy, then creates the indexes; the policy stays even when creating them fails. */
    method InitView(id: string, policy: RetentionPolicy, fault: Fault) returns (r: Result<(), ViewError>)
      modifies this`retentionPolicy
      ensures retentionPolicy == old(retentionPolicy)[id := policy]
      ensures r.Failure? <==> fault.Hits(1)
    {
      SetRetentionPolicy(id, policy);
      if fault.Hits(1) {
        return Failure(StoreError);
      }
      return Success(());
    }

    method SetRetentionPolicy(id: string, policy: RetentionPolicy)
      modifies this`retentionPolicy
      ensures retentionPolicy == old(retentionPolicy)[id := policy]
    {
      retentionPolicy := retentionPolicy[id := policy];
    }

    /** Forgets the policy before it drops the collection. */
    method DeleteView(id: string, fault: Fault) returns (r: Result<(), ViewError>)
      modifies this
      ensures retentionPolicy == old(retentionPolicy) - {id}
      ensures OthersUnchanged(id)
      ensures Get(id) == if fault.Applied(1) == 1 then EMPTY else old(Get(id))
      ensures r.Failure? <==> fault.Hits(1)
    {
      retentionPolicy := retentionPolicy - {id};
      if fault.Applied(1) == 1 {
        database := database - {id};
      }
      if fault.Hits(1) {
        return Failure(StoreError);
      }
      return Success(());
    }

    /** The `call`-th call of recording `change`: one find-and-modify, which may fail. */
    method Execute(id: string, policy: RetentionPolicy, op: RowOp, call: nat, fault: Fault,
                   ghost before: Collection, ghost change: Change, ts: int) returns (ok: bool)
      requires call < |EventOps(change)| && op == EventOps(change)[call] && ts == change.sourceTime
      requires !fault.Hits(call) && Get(id) == Recorded(policy, before, change, call)
      modifies this`database
      ensures OthersUnchanged(id)
      ensures ok ==> !fault.Hits(call + 1) && Get(id) == Recorded(policy, before, change, call + 1)
      ensures !ok ==>
                var calls := |EventOps(change)| + 1;
                fault.Hits(calls) && Get(id) == Recorded(policy, before, change, fault.Applied(calls))
    {
      RecordedStep(policy, before, change, call);
      ok := !fault.Hits(call + 1);
      if ok || fault.applied {
        var c := Get(id);
        database := database[id := c.(docs := ApplyOp(policy, c.docs, op, ts))];
      }
    }

    /**
     Deletes, then updates, then adds, then the metadata. The result says whether every call
     succeeded; the collection then holds exactly the calls that took effect.
     */
    method RecordChange(id: string, change: Change, fault: Fault) returns (r: Result<(), ViewError>)
      modifies this`database
      ensures OthersUnchanged(id)
      ensures id !in retentionPolicy ==> r == Failure(NotFound) && Get(id) == old(Get(id))
      ensures id in retentionPolicy ==>
                var calls := |EventOps(change)| + 1;
                && r == (if fault.Hits(calls) then Failure(StoreError) else Success(()))
                && Get(id) == Recorded(retentionPolicy[id], old(Get(id)), change, fault.Applied(calls))
      ensures r.Success? ==>
                var m := old(Get(id)).metadata;
                Get(id).metadata == Some(Metadata(change.sequence, change.sourceTime,
                                                  if m.Some? then m.value.state else None))
    {
      hide EventOps, Recorded, UpdateOps, UpdateOp;
      if id !in retentionPolicy {
        return Failure(NotFound);
      }
      var policy := retentionPolicy[id];
      var ts := change.sourceTime;
      ghost var before := Get(id);
      ghost var ops := EventOps(change);
      var call := 0;
      RecordedEnds(policy, before, change);
      EventOpsAt(change);

      for i := 0 to |change.deleted|
        invariant call == i
        invariant !fault.Hits(call) && OthersUnchanged(id)
        invariant Get(id) == Recorded(policy, before, change, call)
      {
        var ok := Execute(id, policy, CloseOp(change.deleted[i]), call, fault, before, change, ts);
        if !ok {
          return Failure(StoreError);
        }
        call := call + 1;
      }

      for i := 0 to |change.updated|
        invariant call == |change.deleted| + |UpdateOps(change.updated[..i])| <= |ops|
        invariant !fault.Hits(call) && OthersUnchanged(id)
        invariant Get(id) == Recorded(policy, before, change, call)
      {
        var u := change.updated[i];
        UpdateOpsAt(change, i);
        if u.before.Some? {
          var ok := Execute(id, policy, Close(u.KeyOf(u.before.value)), call, fault, before, change, ts);
          if !ok {
            return Failure(StoreError);
          }
          call := call + 1;
        }
        if u.after.Some? {
          var ok := Execute(id, policy, Put(u.KeyOf(u.after.value), u.after.value), call, fault, before, change, ts);
          if !ok {
            return Failure(StoreError);
          }
          call := call + 1;
        }
      }
      assert change.updated[..|change.updated|] == change.updated;

      for i := 0 to |change.added|
        invariant call == |change.deleted| + |UpdateOps(change.updated)| + i
        invariant !fault.Hits(call) && OthersUnchanged(id)
        invariant Get(id) == Recorded(policy, before, change, call)
      {
        var ok := Execute(id, policy, PutOp(change.added[i]), call, fault, before, change, ts);
        if !ok {
          return Failure(StoreError);
        }
        call := call + 1;
      }

      r := SetMetadata(id, change.sequence, ts, None, call, fault);
    }

    /** The upsert of the metadata document; it touches the state only when one is given. */
    method SetMetadata(id: string, sequence: nat, ts: int, state: Option<string>, call: nat, fault: Fault)
      returns (r: Result<(), ViewError>)
      modifies this`database
      ensures OthersUnchanged(id)
      ensures var failed := fault.Fault? && fault.call == call;
              var c := old(Get(id));
              && r == (if failed then Failure(StoreError) else Success(()))
              && Get(id) == if failed && !fault.applied then c
                            else c.(metadata := Some(Metadata(sequence, ts,
                              if state.Some? then state else if c.metadata.Some? then c.metadata.value.state else None)))
    {
      var failed := fault.Fault? && fault.call == call;
      if !failed || fault.applied {
        var c := Get(id);
        var kept := if c.metadata.Some? then c.metadata.value.state else None;
        database := database[id := c.(metadata := Some(Metadata(sequence, ts, if state.Some? then state else kept)))];
      }
      return if failed then Failure(StoreError) else Success(());
    }

    method SetState(id: string, sequence: nat, ts: int, state: string, fault: Fault) returns (r: Result<(), ViewError>)
      modifies this`database
      ensures OthersUnchanged(id)
      ensures r.Failure? <==> fault.Hits(1)
      ensures Get(id).docs == old(Get(id).docs)
      ensures Get(id).metadata == if fault.Applied(1) == 1 then Some(Metadata(sequence, ts, Some(state)))
                                  else old(Get(id).metadata)
    {
      r := SetMetadata(id, sequence, ts, Some(state), 0, fault);
    }

    /**
     The header comes from the metadata; the rows are those valid at the earlier of the metadata
     time and the requested time. Without a timestamp the clock is the requested time.
     */
    method GetView(id: string, timestamp: Option<nat>, now: nat, fault: Fault)
      returns (r: Result<(Header, seq<Row>), ViewError>)
      ensures id !in retentionPolicy ==> r == Failure(NotFound)
      ensures id in retentionPolicy && fault.Hits(1) ==> r == Failure(StoreError)
      ensures id in retentionPolicy && !fault.Hits(1) ==>
                var requested := if timestamp.Some? then timestamp.value else now;
                var policy := retentionPolicy[id];
                if Get(id).metadata.None? || (policy.Expire? && now - requested > 1000 * policy.afterSeconds)
                then r == Failure(NotFound)
                else if fault.Hits(2) then r == Failure(StoreError)
                else
                  var m, docs := Get(id).metadata.value, Get(id).docs;
                  var found := if requested <= m.ts then Find(docs, requested) else Find(docs, m.ts);
                  && r.Success? && r.value.0 == Header(m.sequence, m.ts, m.state)
                  && |r.value.1| == |found| && (forall i :: 0 <= i < |found| ==> r.value.1[i] == found[i].row)
                  && forall d: Doc :: multiset(found)[d] ==
                       if (requested <= m.ts && d.from <= requested <= d.to) || (m.ts < requested && d.from <= m.ts <= d.to)
                       then multiset(docs)[d] else 0
    {
      if id !in retentionPolicy {
        return Failure(NotFound);
      }
      var policy := retentionPolicy[id];
      if fault.Hits(1) {
        return Failure(StoreError);
      }
      var metadata := Get(id).metadata;
      if metadata.None? {
        return Failure(NotFound);
      }
      var requested := if timestamp.Some? then timestamp.value else now;
      var effectiveAt := EffectiveAt(metadata.value.ts, requested);
      if policy.Expire? && now - policy.afterSeconds * 1000 > requested {
        return Failure(NotFound);
      }
      if fault.Hits(2) {
        return Failure(StoreError);
      }
      var found := Find(Get(id).docs, effectiveAt);
      forall d: Doc
        ensures multiset(found)[d] == if d.VisibleAt(effectiveAt) then multiset(Get(id).docs)[d] else 0
      {
        FindCount(Get(id).docs, effectiveAt, d);
      }
      var rows := seq(|found|, i requires 0 <= i < |found| => found[i].row);
      return Success((Header(metadata.value.sequence, metadata.value.ts, metadata.value.state), rows));
    }

    /** One round of the collector over a snapshot of the policies; a failed deletion is skipped. */
    method CollectGarbage(now: int, failing: set<string>)
      modifies this`database
      ensures forall id: string ::
                Get(id) ==
                if id in retentionPolicy && retentionPolicy[id].Expire? && id !in failing
                then old(Get(id)).(docs := Trim(old(Get(id)).docs, Epoch(retentionPolicy[id].afterSeconds, now)))
                else old(Get(id))
      ensures forall id: string, d: Doc ::
                multiset(Get(id).docs)[d] ==
                if id in retentionPolicy && retentionPolicy[id].Expire? && id !in failing
                   && now - d.to > 1000 * retentionPolicy[id].afterSeconds
                then 0
                else old(multiset(Get(id).docs)[d])
      ensures forall id: string :: Get(id).metadata == old(Get(id).metadata)
    {
      var snapshot := retentionPolicy;
      var todo := snapshot.Keys;
      while todo != {}
        invariant todo <= snapshot.Keys
        invariant forall id: string ::
                    Get(id) ==
                    if id in snapshot && id !in todo && snapshot[id].Expire? && id !in failing
                    then old(Get(id)).(docs := Trim(old(Get(id)).docs, Epoch(snapshot[id].afterSeconds, now)))
                    else old(Get(id))
        decreases todo
      {
        var id :| id in todo;
        todo := todo - {id};
        if snapshot[id].Expire? && id !in failing {
          var c := Get(id);
          database := database[id := c.(docs := Trim(c.docs, Epoch(snapshot[id].afterSeconds, now)))];
        }
      }
      forall id: string, d: Doc
        ensures multiset(Get(id).docs)[d] ==
                if id in snapshot && snapshot[id].Expire? && id !in failing
                   && now - d.to > 1000 * snapshot[id].afterSeconds
                then 0
                else old(multiset(Get(id).docs)[d])
      {
        if id in snapshot && snapshot[id].Expire? && id !in failing {
          TrimCount(old(Get(id)).docs, Epoch(snapshot[id].afterSeconds, now), d);
        }
      }
    }
  }

  /** One more call that takes effect. */
  lemma RecordedStep(policy: RetentionPolicy, c: Collection, change: Change, n: nat)
    requires n < |EventOps(change)|
    ensures Recorded(policy, c, change, n + 1) ==
            var r := Recorded(policy, c, change, n);
            r.(docs := ApplyOp(policy, r.docs, EventOps(change)[n], change.sourceTime))
  {
    var ops := EventOps(change);
    assert ops[..n + 1][..n] == ops[..n];
  }

  lemma RecordedEnds(policy: RetentionPolicy, c: Collection, change: Change)
    ensures Recorded(policy, c, change, 0) == c
    ensures var r := Recorded(policy, c, change, |EventOps(change)|);
            && r.metadata == c.metadata
            && Recorded(policy, c, change, |EventOps(change)| + 1) ==
               r.(metadata := Some(Metadata(change.sequence, change.sourceTime,
                                            if c.metadata.Some? then c.metadata.value.state else None)))
  {
    var ops := EventOps(change);
    assert ops[..|ops|] == ops && ops[..0] == [];
  }

  /** The deletes come first, the adds last. */
  lemma EventOpsAt(change: Change)
    ensures var ops, updates := EventOps(change), |UpdateOps(change.updated)|;
            && |ops| == |change.deleted| + updates + |change.added|
            && (forall i :: 0 <= i < |change.deleted| ==> ops[i] == Close(HashValues(change.deleted[i])))
            && (forall i :: 0 <= i < |change.added| ==>
                  ops[|change.deleted| + updates + i] == Put(HashValues(change.added[i]), change.added[i]))
    ensures UpdateOps(change.updated[..0]) == []
  {
    hide UpdateOp;
  }

  /** Where the calls of the i-th update stand among the calls of the event. */
  lemma UpdateOpsAt(change: Change, i: nat)
    requires i < |change.updated|
    ensures var u, ops := change.updated[i], EventOps(change);
            var at := |change.deleted| + |UpdateOps(change.updated[..i])|;
            && |change.deleted| + |UpdateOps(change.updated[..i + 1])| <= |ops|
            && |change.deleted| + |UpdateOps(change.updated[..i + 1])| ==
               at + (if u.before.Some? then 1 else 0) + (if u.after.Some? then 1 else 0)
            && (u.before.Some? ==> ops[at] == Close(u.KeyOf(u.before.value)))
            && (u.after.Some? ==>
                  ops[at + if u.before.Some? then 1 else 0] == Put(u.KeyOf(u.after.value), u.after.value))
  {
    var us, ops := change.updated, EventOps(change);
    var one := UpdateOp(us[i]);
    hide UpdateOp;
    var done, at := UpdateOps(us[..i]), |change.deleted| + |UpdateOps(us[..i])|;
    assert us[..i + 1][..i] == us[..i];
    assert UpdateOps(us[..i + 1]) == done + one;
    UpdateOpsPrefix(us, i + 1);
    forall j | 0 <= j < |one| ensures ops[at + j] == one[j] {
      assert (done + one)[|done| + j] == UpdateOps(us)[|done| + j];
    }
    UpdateOpShape(us[i]);
  }

  lemma UpdateOpShape(u: UpdatePayload)
    ensures |UpdateOp(u)| == (if u.before.Some? then 1 else 0) + if u.after.Some? then 1 else 0
    ensures u.before.Some? ==> UpdateOp(u)[0] == Close(u.KeyOf(u.before.value))
    ensures u.after.Some? ==> UpdateOp(u)[if u.before.Some? then 1 else 0] == Put(u.KeyOf(u.after.value), u.after.value)
  {
  }
}
