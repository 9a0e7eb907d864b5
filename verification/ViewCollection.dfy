/**
 The document collection behind one view: rows kept as validity intervals, and the three
 find-and-modify calls that the view store makes on it.
 */
module ViewCollection {
  import opened Wrappers
  import opened Results

  const MAX_TIMESTAMP: int := 253402300799999

  datatype RetentionPolicy = Latest | Expire(afterSeconds: nat) | All

  /** A row valid at every timestamp in [from, to]; it is open while `to` is MAX_TIMESTAMP. */
  datatype Doc = Doc(key: RowKey, row: Row, from: int, to: int) {
    predicate Open() { to == MAX_TIMESTAMP }
    predicate VisibleAt(t: int) { from <= t <= to }
    predicate NonEmpty() { from <= to }
  }

  /** The document that says what the rows are as of; the last call of recording a change stores it. */
  datatype Metadata = Metadata(sequence: nat, ts: int, state: Option<string>)

  function FindOpen(docs: seq<Doc>, k: RowKey): (r: Option<nat>)
    ensures r.Some? ==> r.value < |docs| && docs[r.value].key == k && docs[r.value].Open()
    ensures r.None? ==> forall d <- docs :: !(d.key == k && d.Open())
  {
    if docs == [] then None
    else
      var n := |docs| - 1;
      if docs[n].key == k && docs[n].Open() then Some(n) else FindOpen(docs[..n], k)
  }

  /** The open row of a key, if it has one. */
  function OpenDoc(docs: seq<Doc>, k: RowKey): (r: Option<Doc>)
    ensures r.Some? ==> r.value in docs && r.value.key == k && r.value.Open()
    ensures r.None? ==> forall d <- docs :: !(d.key == k && d.Open())
  {
    match FindOpen(docs, k)
    case Some(i) => Some(docs[i])
    case None => None
  }

  function DeleteOpen(docs: seq<Doc>, k: RowKey): seq<Doc> {
    match FindOpen(docs, k)
    case Some(i) => docs[..i] + docs[i + 1..]
    case None => docs
  }

  function EndOpen(docs: seq<Doc>, k: RowKey, ts: int): seq<Doc> {
    match FindOpen(docs, k)
    case Some(i) => docs[i := docs[i].(to := ts - 1)]
    case None => docs
  }

  function Upsert(docs: seq<Doc>, k: RowKey, row: Row, ts: int): seq<Doc> {
    match FindOpen(docs, k)
    case Some(i) => docs[i := Doc(k, row, ts, MAX_TIMESTAMP)]
    case None => docs + [Doc(k, row, ts, MAX_TIMESTAMP)]
  }

  function ApplyOp(policy: RetentionPolicy, docs: seq<Doc>, op: RowOp, ts: int): seq<Doc> {
    match op
    case Close(k) => if policy.Latest? then DeleteOpen(docs, k) else EndOpen(docs, k, ts)
    case Put(k, row) => Upsert(docs, k, row, ts)
  }

  function ApplyOps(policy: RetentionPolicy, docs: seq<Doc>, ops: seq<RowOp>, ts: int): seq<Doc> {
    if ops == [] then docs
    else
      var n := |ops| - 1;
      ApplyOp(policy, ApplyOps(policy, docs, ops[..n], ts), ops[n], ts)
  }

  lemma ApplyOne(policy: RetentionPolicy, docs: seq<Doc>, op: RowOp, ts: int)
    ensures ApplyOps(policy, docs, [op], ts) == ApplyOp(policy, docs, op, ts)
  {
    assert [op][..0] == [];
    assert ApplyOps(policy, docs, [op][..0], ts) == docs;
  }

  lemma {:induction false} ApplyOpsConcat(policy: RetentionPolicy, docs: seq<Doc>, a: seq<RowOp>, b: seq<RowOp>, ts: int)
    ensures ApplyOps(policy, docs, a + b, ts) == ApplyOps(policy, ApplyOps(policy, docs, a, ts), b, ts)
    decreases |b|
  {
    hide ApplyOp;
    if b == [] {
      assert a + b == a;
    } else {
      var n := |b| - 1;
      assert (a + b)[..|a| + n] == a + b[..n];
      ApplyOpsConcat(policy, docs, a, b[..n], ts);
    }
  }

  // ---- At most one open row per key ----

  ghost predicate OneOpen(docs: seq<Doc>) {
    forall i, j :: 0 <= i < j < |docs| && docs[i].Open() && docs[j].Open() ==> docs[i].key != docs[j].key
  }

  lemma OneOpenStep(policy: RetentionPolicy, docs: seq<Doc>, op: RowOp, ts: int)
    requires OneOpen(docs) && ts <= MAX_TIMESTAMP
    ensures OneOpen(ApplyOp(policy, docs, op, ts))
  {
  }

  lemma {:induction false} OneOpenKept(policy: RetentionPolicy, docs: seq<Doc>, ops: seq<RowOp>, ts: int)
    requires OneOpen(docs) && ts <= MAX_TIMESTAMP
    ensures OneOpen(ApplyOps(policy, docs, ops, ts))
    decreases |ops|
  {
    if ops != [] {
      var n := |ops| - 1;
      OneOpenKept(policy, docs, ops[..n], ts);
      OneOpenStep(policy, ApplyOps(policy, docs, ops[..n], ts), ops[n], ts);
    }
  }

  lemma SplitMember(docs: seq<Doc>, i: nat, d: Doc)
    requires i < |docs|
    ensures d in docs <==> d in docs[..i] || d == docs[i] || d in docs[i + 1..]
  {
    assert docs == docs[..i] + [docs[i]] + docs[i + 1..];
  }

  /** Around an open row there is no other open row of its key. */
  lemma OnlyOpen(docs: seq<Doc>, i: nat, d: Doc)
    requires OneOpen(docs) && i < |docs| && docs[i].Open()
    requires d in docs[..i] || d in docs[i + 1..]
    ensures !(d.key == docs[i].key && d.Open())
  {
  }

  /** Which document a find-one call meets does not matter: there is only one candidate. */
  lemma OpenDocUnique(docs: seq<Doc>, d: Doc)
    requires OneOpen(docs) && d in docs && d.Open()
    ensures OpenDoc(docs, d.key) == Some(d)
    ensures multiset(docs)[d] == 1
  {
    var i := FindOpen(docs, d.key).value;
    assert docs == docs[..i] + [docs[i]] + docs[i + 1..];
    SplitMember(docs, i, d);
    if d in docs[..i] || d in docs[i + 1..] {
      OnlyOpen(docs, i, d);
    }
  }

  /** How often an open document occurs is decided by the open row of its key. */
  lemma OpenCount(docs: seq<Doc>, d: Doc)
    requires OneOpen(docs) && d.Open()
    ensures multiset(docs)[d] == if OpenDoc(docs, d.key) == Some(d) then 1 else 0
  {
    if d in docs {
      OpenDocUnique(docs, d);
    }
  }

  // ---- Membership after one call ----

  lemma DeleteOpenMember(docs: seq<Doc>, k: RowKey, d: Doc)
    requires OneOpen(docs)
    ensures d in DeleteOpen(docs, k) <==> d in docs && !(d.key == k && d.Open())
  {
    match FindOpen(docs, k)
    case None =>
    case Some(i) =>
      SplitMember(docs, i, d);
      if d in docs[..i] || d in docs[i + 1..] {
        OnlyOpen(docs, i, d);
      }
      assert d in docs[..i] + docs[i + 1..] <==> d in docs[..i] || d in docs[i + 1..];
  }

  lemma ReplaceMember(docs: seq<Doc>, i: nat, x: Doc, d: Doc)
    requires OneOpen(docs) && i < |docs| && docs[i].Open()
    ensures d in docs[i := x] <==> (d in docs && !(d.key == docs[i].key && d.Open())) || d == x
  {
    var after := docs[i := x];
    SplitMember(docs, i, d);
    SplitMember(after, i, d);
    assert after[..i] == docs[..i] && after[i + 1..] == docs[i + 1..];
    if d in docs[..i] || d in docs[i + 1..] {
      OnlyOpen(docs, i, d);
    }
  }

  lemma EndOpenMember(docs: seq<Doc>, k: RowKey, ts: int, d: Doc)
    requires OneOpen(docs)
    ensures d in EndOpen(docs, k, ts) <==>
            || (d in docs && !(d.key == k && d.Open()))
            || (OpenDoc(docs, k).Some? && d == OpenDoc(docs, k).value.(to := ts - 1))
  {
    match FindOpen(docs, k)
    case None =>
    case Some(i) => ReplaceMember(docs, i, docs[i].(to := ts - 1), d);
  }

  lemma UpsertMember(docs: seq<Doc>, k: RowKey, row: Row, ts: int, d: Doc)
    requires OneOpen(docs)
    ensures d in Upsert(docs, k, row, ts) <==>
            (d in docs && !(d.key == k && d.Open())) || d == Doc(k, row, ts, MAX_TIMESTAMP)
  {
    match FindOpen(docs, k)
    case None =>
    case Some(i) => ReplaceMember(docs, i, Doc(k, row, ts, MAX_TIMESTAMP), d);
  }

  // ---- Reading ----

  function Min(a: int, b: int): int { if a <= b then a else b }

  /** No read looks beyond the metadata time. */
  function EffectiveAt(metadataTime: int, requested: int): (at: int)
    ensures at <= metadataTime && at <= requested && (at == metadataTime || at == requested)
  {
    Min(metadataTime, requested)
  }

  /** The query of `get_view`: documents whose interval contains t, in storage order. */
  function Find(docs: seq<Doc>, t: int): (r: seq<Doc>) {
    if docs == [] then []
    else
      var n := |docs| - 1;
      Find(docs[..n], t) + if docs[n].VisibleAt(t) then [docs[n]] else []
  }

  lemma {:induction false} FindCount(docs: seq<Doc>, t: int, d: Doc)
    ensures multiset(Find(docs, t))[d] == if d.VisibleAt(t) then multiset(docs)[d] else 0
    decreases |docs|
  {
    if docs != [] {
      var n := |docs| - 1;
      FindCount(docs[..n], t, d);
      assert docs == docs[..n] + [docs[n]];
    }
  }

  lemma FindMember(docs: seq<Doc>, t: int, d: Doc)
    ensures d in Find(docs, t) <==> d in docs && d.VisibleAt(t)
  {
    FindCount(docs, t, d);
    assert d in Find(docs, t) <==> multiset(Find(docs, t))[d] > 0;
    assert d in docs <==> multiset(docs)[d] > 0;
  }
}
