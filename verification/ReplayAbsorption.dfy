/**
 What any number of interrupted attempts at one change event leaves behind.

 All calls of an event carry the event's timestamp. For such a batch of calls the first call on a
 key decides whether the row that was open before is kept as history, and the last call decides
 whether the key is open afterwards. Interrupted attempts change neither, so a replayed event has
 the effect of a single one. Only documents with an empty interval, which no read returns, differ.
 */
module ReplayAbsorption {
  import opened Wrappers
  import opened Results
  import opened ViewCollection

  function FirstOp(ops: seq<RowOp>, k: RowKey): (r: Option<RowOp>)
    ensures r.Some? ==> r.value.key == k && r.value in ops
    ensures r.None? ==> forall op <- ops :: op.key != k
  {
    if ops == [] then None
    else if ops[0].key == k then Some(ops[0])
    else FirstOp(ops[1..], k)
  }

  function LastOp(ops: seq<RowOp>, k: RowKey): (r: Option<RowOp>)
    ensures r.Some? ==> r.value.key == k && r.value in ops
    ensures r.None? ==> forall op <- ops :: op.key != k
  {
    if ops == [] then None
    else if ops[|ops| - 1].key == k then Some(ops[|ops| - 1])
    else LastOp(ops[..|ops| - 1], k)
  }

  lemma {:induction false} FirstOpConcat(a: seq<RowOp>, b: seq<RowOp>, k: RowKey)
    ensures FirstOp(a + b, k) == if FirstOp(a, k).Some? then FirstOp(a, k) else FirstOp(b, k)
    decreases |a|
  {
    if a == [] {
      assert a + b == b;
    } else {
      assert (a + b)[1..] == a[1..] + b;
      FirstOpConcat(a[1..], b, k);
    }
  }

  lemma {:induction false} LastOpConcat(a: seq<RowOp>, b: seq<RowOp>, k: RowKey)
    ensures LastOp(a + b, k) == if LastOp(b, k).Some? then LastOp(b, k) else LastOp(a, k)
    decreases |b|
  {
    if b == [] {
      assert a + b == a;
    } else {
      assert (a + b)[..|a| + |b| - 1] == a + b[..|b| - 1];
      LastOpConcat(a, b[..|b| - 1], k);
    }
  }

  lemma TouchedBoth(ops: seq<RowOp>, k: RowKey)
    ensures FirstOp(ops, k).Some? <==> LastOp(ops, k).Some?
  {
  }

  // ---- The effect of a batch of calls at one timestamp ----

  /** The open row of a key after a batch: decided by the last call on that key. */
  function OpenAfter(docs: seq<Doc>, ops: seq<RowOp>, ts: int, k: RowKey): Option<Doc> {
    match LastOp(ops, k)
    case None => OpenDoc(docs, k)
    case Some(Close(_)) => None
    case Some(Put(_, row)) => Some(Doc(k, row, ts, MAX_TIMESTAMP))
  }

  /** One batch turns the row that was open before into the history document d. */
  predicate Archives(policy: RetentionPolicy, docs: seq<Doc>, ops: seq<RowOp>, ts: int, d: Doc) {
    && !policy.Latest?
    && FirstOp(ops, d.key).Some? && FirstOp(ops, d.key).value.Close?
    && OpenDoc(docs, d.key).Some? && OpenDoc(docs, d.key).value.(to := ts - 1) == d
  }

  function ClosedAfter(policy: RetentionPolicy, docs: seq<Doc>, ops: seq<RowOp>, ts: int, d: Doc): nat {
    multiset(docs)[d] + if Archives(policy, docs, ops, ts, d) then 1 else 0
  }

  /** Collections with the same open documents for a key give the same open row. */
  lemma SameOpenDoc(a: seq<Doc>, b: seq<Doc>, k: RowKey)
    requires OneOpen(a) && OneOpen(b)
    requires forall d: Doc | d.key == k && d.Open() :: d in a <==> d in b
    ensures OpenDoc(a, k) == OpenDoc(b, k)
  {
    if OpenDoc(a, k).Some? {
      OpenDocUnique(b, OpenDoc(a, k).value);
    }
  }

  /** Deletes only: no open row of k afterwards, and the closed documents are untouched. */
  lemma DeleteOpenEffect(docs: seq<Doc>, k: RowKey, d: Doc)
    requires OneOpen(docs)
    ensures OpenDoc(DeleteOpen(docs, k), d.key) == if d.key == k then None else OpenDoc(docs, d.key)
    ensures !d.Open() ==> multiset(DeleteOpen(docs, k))[d] == multiset(docs)[d]
  {
    var after := DeleteOpen(docs, k);
    OneOpenStep(Latest, docs, Close(k), 0);
    forall e: Doc ensures e in after <==> e in docs && !(e.key == k && e.Open()) {
      DeleteOpenMember(docs, k, e);
    }
    if d.key != k {
      SameOpenDoc(docs, after, d.key);
    }
    if FindOpen(docs, k).Some? {
      var i := FindOpen(docs, k).value;
      assert docs == docs[..i] + [docs[i]] + docs[i + 1..];
    }
  }

  lemma EndOpenEffect(docs: seq<Doc>, k: RowKey, ts: int, d: Doc)
    requires OneOpen(docs) && ts <= MAX_TIMESTAMP
    ensures OpenDoc(EndOpen(docs, k, ts), d.key) == if d.key == k then None else OpenDoc(docs, d.key)
    ensures !d.Open() ==>
              multiset(EndOpen(docs, k, ts))[d] ==
              multiset(docs)[d] + if OpenDoc(docs, k).Some? && OpenDoc(docs, k).value.(to := ts - 1) == d then 1 else 0
  {
    var after := EndOpen(docs, k, ts);
    OneOpenStep(All, docs, Close(k), ts);
    forall e: Doc | e.Open() ensures e in after <==> e in docs && e.key != k {
      EndOpenMember(docs, k, ts, e);
    }
    if d.key != k {
      SameOpenDoc(docs, after, d.key);
    }
    if FindOpen(docs, k).Some? {
      var i := FindOpen(docs, k).value;
      assert multiset(after) == multiset(docs) - multiset{docs[i]} + multiset{after[i]};
    }
  }

  lemma UpsertEffect(docs: seq<Doc>, k: RowKey, row: Row, ts: int, d: Doc)
    requires OneOpen(docs) && ts <= MAX_TIMESTAMP
    ensures OpenDoc(Upsert(docs, k, row, ts), d.key) ==
            if d.key == k then Some(Doc(k, row, ts, MAX_TIMESTAMP)) else OpenDoc(docs, d.key)
    ensures !d.Open() ==> multiset(Upsert(docs, k, row, ts))[d] == multiset(docs)[d]
  {
    var after := Upsert(docs, k, row, ts);
    OneOpenStep(All, docs, Put(k, row), ts);
    forall e: Doc ensures e in after <==>
      (e in docs && !(e.key == k && e.Open())) || e == Doc(k, row, ts, MAX_TIMESTAMP)
    {
      UpsertMember(docs, k, row, ts, e);
    }
    if d.key == k {
      OpenDocUnique(after, Doc(k, row, ts, MAX_TIMESTAMP));
    } else {
      SameOpenDoc(docs, after, d.key);
    }
    if FindOpen(docs, k).Some? {
      var i := FindOpen(docs, k).value;
      assert multiset(after) == multiset(docs) - multiset{docs[i]} + multiset{after[i]};
    }
  }

  /** One call: the open rows of the other keys and the history already there stay as they are. */
  lemma StepEffect(policy: RetentionPolicy, docs: seq<Doc>, op: RowOp, ts: int, d: Doc)
    requires OneOpen(docs) && ts <= MAX_TIMESTAMP
    ensures OpenDoc(ApplyOp(policy, docs, op, ts), d.key) == OpenAfter(docs, [op], ts, d.key)
    ensures !d.Open() ==> multiset(ApplyOp(policy, docs, op, ts))[d] == ClosedAfter(policy, docs, [op], ts, d)
  {
    hide DeleteOpen, EndOpen, Upsert, OpenDoc, OneOpen;
    match op
    case Close(k) =>
      if policy.Latest? {
        DeleteOpenEffect(docs, k, d);
      } else {
        EndOpenEffect(docs, k, ts, d);
      }
    case Put(k, row) =>
      UpsertEffect(docs, k, row, ts, d);
  }

  /** The effect of a whole batch on the open row of a key and on a history document that reads can see. */
  lemma {:induction false} BatchEffect(policy: RetentionPolicy, docs: seq<Doc>, ops: seq<RowOp>, ts: int, d: Doc)
    requires OneOpen(docs) && ts <= MAX_TIMESTAMP
    ensures OpenDoc(ApplyOps(policy, docs, ops, ts), d.key) == OpenAfter(docs, ops, ts, d.key)
    ensures !d.Open() && d.NonEmpty() ==>
              multiset(ApplyOps(policy, docs, ops, ts))[d] == ClosedAfter(policy, docs, ops, ts, d)
    decreases |ops|
  {
    hide ApplyOp, OpenDoc, OneOpen;
    if ops != [] {
      var n := |ops| - 1;
      var mid := ApplyOps(policy, docs, ops[..n], ts);
      BatchEffect(policy, docs, ops[..n], ts, d);
      OneOpenKept(policy, docs, ops[..n], ts);
      StepEffect(policy, mid, ops[n], ts, d);
      assert ops == ops[..n] + [ops[n]];
      FirstOpConcat(ops[..n], [ops[n]], d.key);
      LastOpConcat(ops[..n], [ops[n]], d.key);
      TouchedBoth(ops[..n], d.key);
    }
  }

  // ---- Equality up to documents that no read returns ----

  /** Same open rows, and the same history apart from documents with an empty interval. */
  ghost predicate SameView(a: seq<Doc>, b: seq<Doc>) {
    && (forall k: RowKey :: OpenDoc(a, k) == OpenDoc(b, k))
    && (forall d: Doc :: !d.Open() && d.NonEmpty() ==> multiset(a)[d] == multiset(b)[d])
  }

  /** Collections that agree this way answer every read the same. */
  lemma SameViewReads(a: seq<Doc>, b: seq<Doc>, t: int)
    requires OneOpen(a) && OneOpen(b) && SameView(a, b)
    ensures multiset(Find(a, t)) == multiset(Find(b, t))
  {
    forall d: Doc ensures multiset(Find(a, t))[d] == multiset(Find(b, t))[d] {
      FindCount(a, t, d);
      FindCount(b, t, d);
      if d.Open() {
        OpenCount(a, d);
        OpenCount(b, d);
        assert OpenDoc(a, d.key) == OpenDoc(b, d.key);
      }
    }
  }

  /** Every read, at whatever time, gives the same rows. */
  ghost predicate SameReads(a: seq<Doc>, b: seq<Doc>) {
    forall t :: multiset(Find(a, t)) == multiset(Find(b, t))
  }

  /** No row starts after the end of time. */
  ghost predicate Dated(docs: seq<Doc>) {
    forall d <- docs :: d.from <= MAX_TIMESTAMP
  }

  /** A document that some read returns occurs as often in both. */
  lemma SameReadsCount(a: seq<Doc>, b: seq<Doc>, d: Doc)
    requires Dated(a) && Dated(b) && SameReads(a, b) && (d.Open() || d.NonEmpty())
    ensures multiset(a)[d] == multiset(b)[d]
  {
    assert d in a <==> multiset(a)[d] > 0;
    assert d in b <==> multiset(b)[d] > 0;
    if d.VisibleAt(d.from) {
      FindCount(a, d.from, d);
      FindCount(b, d.from, d);
      assert multiset(Find(a, d.from)) == multiset(Find(b, d.from));
    }
  }

  /** Reads tell everything else apart: only documents with an empty interval are beyond them. */
  lemma SameViewExact(a: seq<Doc>, b: seq<Doc>)
    requires OneOpen(a) && OneOpen(b) && Dated(a) && Dated(b)
    ensures SameView(a, b) <==> SameReads(a, b)
  {
    if SameView(a, b) {
      forall t ensures multiset(Find(a, t)) == multiset(Find(b, t)) {
        SameViewReads(a, b, t);
      }
    }
    if SameReads(a, b) {
      forall k: RowKey ensures OpenDoc(a, k) == OpenDoc(b, k) {
        SameReadsOpen(a, b, k);
        SameReadsOpen(b, a, k);
      }
      forall d: Doc | !d.Open() && d.NonEmpty() ensures multiset(a)[d] == multiset(b)[d] {
        SameReadsCount(a, b, d);
      }
    }
  }

  lemma SameReadsOpen(a: seq<Doc>, b: seq<Doc>, k: RowKey)
    requires OneOpen(b) && Dated(a) && Dated(b) && SameReads(a, b)
    ensures OpenDoc(a, k).Some? ==> OpenDoc(b, k) == OpenDoc(a, k)
  {
    if OpenDoc(a, k).Some? {
      var d := OpenDoc(a, k).value;
      SameReadsCount(a, b, d);
      assert d in a <==> multiset(a)[d] > 0;
      assert d in b <==> multiset(b)[d] > 0;
      OpenDocUnique(b, d);
    }
  }

  lemma DatedStep(policy: RetentionPolicy, docs: seq<Doc>, op: RowOp, ts: int)
    requires Dated(docs) && ts <= MAX_TIMESTAMP
    ensures Dated(ApplyOp(policy, docs, op, ts))
  {
    var after := ApplyOp(policy, docs, op, ts);
    match FindOpen(docs, op.key)
    case None =>
    case Some(i) =>
      forall j | 0 <= j < |after| ensures after[j].from <= MAX_TIMESTAMP {
        assert docs[if j < i || |after| == |docs| then j else j + 1] in docs;
      }
  }

  lemma {:induction false} DatedKept(policy: RetentionPolicy, docs: seq<Doc>, ops: seq<RowOp>, ts: int)
    requires Dated(docs) && ts <= MAX_TIMESTAMP
    ensures Dated(ApplyOps(policy, docs, ops, ts))
    decreases |ops|
  {
    hide Dated, ApplyOp;
    if ops != [] {
      var n := |ops| - 1;
      DatedKept(policy, docs, ops[..n], ts);
      DatedStep(policy, ApplyOps(policy, docs, ops[..n], ts), ops[n], ts);
    }
  }

  /** The first calls of e on the keys that s touches are of the same kinds as those of s. */
  ghost predicate Absorbed(s: seq<RowOp>, e: seq<RowOp>) {
    forall k: RowKey :: FirstOp(s, k).Some? ==>
      FirstOp(e, k).Some? && (FirstOp(s, k).value.Close? <==> FirstOp(e, k).value.Close?)
  }

  /**
   Two batches that agree on the last call of every key, and on the kind of the first one if there is
   history to keep, leave the same view.
   */
  lemma SameBatches(policy: RetentionPolicy, a: seq<Doc>, b: seq<Doc>, s: seq<RowOp>, e: seq<RowOp>, ts: int)
    requires OneOpen(a) && OneOpen(b) && SameView(a, b) && ts <= MAX_TIMESTAMP
    requires forall k: RowKey :: LastOp(s, k) == LastOp(e, k)
    requires policy.Latest? || Absorbed(s, e)
    ensures SameView(ApplyOps(policy, a, s, ts), ApplyOps(policy, b, e, ts))
  {
    var sa, eb := ApplyOps(policy, a, s, ts), ApplyOps(policy, b, e, ts);
    forall k: RowKey ensures OpenDoc(sa, k) == OpenDoc(eb, k) {
      var d := Doc(k, [], 0, 0);
      BatchEffect(policy, a, s, ts, d);
      BatchEffect(policy, b, e, ts, d);
      assert OpenDoc(a, k) == OpenDoc(b, k);
      assert LastOp(s, k) == LastOp(e, k);
    }
    forall d: Doc | !d.Open() && d.NonEmpty() ensures multiset(sa)[d] == multiset(eb)[d] {
      BatchEffect(policy, a, s, ts, d);
      BatchEffect(policy, b, e, ts, d);
      TouchedBoth(s, d.key);
      TouchedBoth(e, d.key);
      assert LastOp(s, d.key) == LastOp(e, d.key);
      assert OpenDoc(a, d.key) == OpenDoc(b, d.key);
    }
  }

  // ---- Replays: what interrupted attempts at the calls e have issued is absorbed by e ----

  /** One more attempt, cut off after n calls, is absorbed as well. */
  lemma AttemptAbsorbed(s: seq<RowOp>, e: seq<RowOp>, n: nat)
    requires Absorbed(s, e) && n <= |e|
    ensures Absorbed(s + e[..n], e)
  {
    forall k: RowKey | FirstOp(s + e[..n], k).Some?
      ensures FirstOp(e, k).Some? && (FirstOp(s + e[..n], k).value.Close? <==> FirstOp(e, k).value.Close?)
    {
      FirstOpConcat(s, e[..n], k);
      assert e == e[..n] + e[n..];
      FirstOpConcat(e[..n], e[n..], k);
    }
  }

  /**
   Whatever attempts came before, the complete event then leaves what it leaves when applied once,
   to the same or an equivalent collection, under every retention policy.
   */
  lemma ReplayAbsorbed(policy: RetentionPolicy, a: seq<Doc>, b: seq<Doc>, s: seq<RowOp>, e: seq<RowOp>, ts: int)
    requires OneOpen(a) && OneOpen(b) && SameView(a, b) && Absorbed(s, e) && ts <= MAX_TIMESTAMP
    ensures SameView(ApplyOps(policy, ApplyOps(policy, a, s, ts), e, ts), ApplyOps(policy, b, e, ts))
  {
    ApplyOpsConcat(policy, a, s, e, ts);
    forall k: RowKey ensures LastOp(s + e, k) == LastOp(e, k) {
      LastOpConcat(s, e, k);
      TouchedBoth(s, k);
      TouchedBoth(e, k);
    }
    forall k: RowKey | FirstOp(s + e, k).Some?
      ensures FirstOp(e, k).Some? && (FirstOp(s + e, k).value.Close? <==> FirstOp(e, k).value.Close?)
    {
      FirstOpConcat(s, e, k);
    }
    SameBatches(policy, a, b, s + e, e, ts);
  }

  /** The special case of one interrupted attempt, as every timestamp sees it. */
  lemma PrefixThenWhole(policy: RetentionPolicy, docs: seq<Doc>, e: seq<RowOp>, n: nat, ts: int, t: int)
    requires OneOpen(docs) && n <= |e| && ts <= MAX_TIMESTAMP
    ensures var once := ApplyOps(policy, docs, e, ts);
            var twice := ApplyOps(policy, ApplyOps(policy, docs, e[..n], ts), e, ts);
            multiset(Find(twice, t)) == multiset(Find(once, t))
  {
    var cut := ApplyOps(policy, docs, e[..n], ts);
    assert [] + e[..n] == e[..n];
    AttemptAbsorbed([], e, n);
    ReplayAbsorbed(policy, docs, docs, e[..n], e, ts);
    OneOpenKept(policy, docs, e[..n], ts);
    OneOpenKept(policy, cut, e, ts);
    OneOpenKept(policy, docs, e, ts);
    SameViewReads(ApplyOps(policy, cut, e, ts), ApplyOps(policy, docs, e, ts), t);
  }

  // ---- An attempt that is never completed ----

  /** Every key that p touches is left by p as the complete calls e leave it. */
  ghost predicate Harmless(p: seq<RowOp>, e: seq<RowOp>) {
    forall k: RowKey :: LastOp(p, k).Some? ==> LastOp(p, k) == LastOp(e, k)
  }

  lemma AbandonedView(policy: RetentionPolicy, docs: seq<Doc>, e: seq<RowOp>, p: seq<RowOp>, ts: int)
    requires OneOpen(docs) && Absorbed(p, e) && ts <= MAX_TIMESTAMP
    ensures SameView(ApplyOps(policy, ApplyOps(policy, docs, e, ts), p, ts), ApplyOps(policy, docs, e, ts))
            <==> Harmless(p, e)
  {
    var once := ApplyOps(policy, docs, e, ts);
    var again := ApplyOps(policy, once, p, ts);
    ApplyOpsConcat(policy, docs, e, p, ts);
    if Harmless(p, e) {
      forall k: RowKey ensures LastOp(e + p, k) == LastOp(e, k) {
        LastOpConcat(e, p, k);
      }
      forall k: RowKey | FirstOp(e + p, k).Some?
        ensures FirstOp(e, k).Some? && (FirstOp(e + p, k).value.Close? <==> FirstOp(e, k).value.Close?)
      {
        FirstOpConcat(e, p, k);
      }
      SameBatches(policy, docs, docs, e + p, e, ts);
    } else {
      var k: RowKey :| LastOp(p, k).Some? && LastOp(p, k) != LastOp(e, k);
      TouchedBoth(p, k);
      TouchedBoth(e, k);
      LastOpConcat(e, p, k);
      BatchEffect(policy, docs, e + p, ts, Doc(k, [], 0, 0));
      BatchEffect(policy, docs, e, ts, Doc(k, [], 0, 0));
      assert OpenDoc(again, k) != OpenDoc(once, k);
    }
  }

  /**
   Calls p repeated after the complete event and then abandoned are seen by no read exactly when they
   are harmless. An event that closes and reopens one key, cut off between the two, is not.
   */
  lemma AbandonedReplay(policy: RetentionPolicy, docs: seq<Doc>, e: seq<RowOp>, p: seq<RowOp>, ts: int)
    requires OneOpen(docs) && Dated(docs) && Absorbed(p, e) && ts <= MAX_TIMESTAMP
    ensures SameReads(ApplyOps(policy, ApplyOps(policy, docs, e, ts), p, ts), ApplyOps(policy, docs, e, ts))
            <==> Harmless(p, e)
  {
    hide SameView, SameReads, Dated, OneOpen, Absorbed, Harmless, ApplyOps;
    var once := ApplyOps(policy, docs, e, ts);
    OneOpenKept(policy, docs, e, ts);
    DatedKept(policy, docs, e, ts);
    OneOpenKept(policy, once, p, ts);
    DatedKept(policy, once, p, ts);
    AbandonedView(policy, docs, e, p, ts);
    SameViewExact(ApplyOps(policy, once, p, ts), once);
  }
}
