/**
 Reading a view at a past timestamp.

 A timeline lists the row operations issued on one collection since it was created, each with the
 timestamp of its event. It covers complete events, interrupted ones and replays alike. With
 nondecreasing timestamps a read at t shows exactly the rows that the operations up to t leave
 alive, for every t, if and only if no write ever hits a row that was opened earlier.
 */
module TimeTravel {
  import opened Wrappers
  import opened Results
  import opened ViewCollection
  import opened ReplayAbsorption

  datatype TimedOp = TimedOp(op: RowOp, at: int)

  function Run(policy: RetentionPolicy, line: seq<TimedOp>): seq<Doc> {
    if line == [] then []
    else
      var n := |line| - 1;
      ApplyOp(policy, Run(policy, line[..n]), line[n].op, line[n].at)
  }

  function ApplyLive(m: map<RowKey, Row>, op: RowOp): map<RowKey, Row> {
    match op
    case Close(k) => m - {k}
    case Put(k, row) => m[k := row]
  }

  /** The rows alive at t: the plain fold of the operations with a timestamp of at most t. */
  function Live(line: seq<TimedOp>, t: int): map<RowKey, Row> {
    if line == [] then map[]
    else
      var n := |line| - 1;
      if line[n].at <= t then ApplyLive(Live(line[..n], t), line[n].op) else Live(line[..n], t)
  }

  ghost predicate Chronological(line: seq<TimedOp>) {
    && (forall i, j :: 0 <= i <= j < |line| ==> line[i].at <= line[j].at)
    && (forall x <- line :: x.at <= MAX_TIMESTAMP)
  }

  /** A read result names each live row once and nothing else. */
  ghost predicate Exactly(found: seq<Doc>, m: map<RowKey, Row>) {
    && (forall i, j :: 0 <= i < j < |found| ==> found[i].key != found[j].key)
    && (forall d <- found :: d.key in m && m[d.key] == d.row)
    && (forall k <- m :: exists d :: d in found && d.key == k)
  }

  // ---- Interval invariant ----

  ghost predicate Disjoint(a: Doc, b: Doc) {
    a.key == b.key && a.NonEmpty() && b.NonEmpty() ==> a.to < b.from || b.to < a.from
  }

  /** One open row per key, nothing from the future, and disjoint intervals per key. */
  ghost predicate Intervals(docs: seq<Doc>, now: int) {
    && OneOpen(docs)
    && (forall d <- docs :: d.from <= now && (d.Open() || d.to < now))
    && AllDisjoint(docs)
  }

  ghost predicate AllDisjoint(docs: seq<Doc>) {
    forall i, j :: 0 <= i < j < |docs| ==> Disjoint(docs[i], docs[j])
  }

  lemma DisjointWithout(docs: seq<Doc>, o: nat)
    requires AllDisjoint(docs) && o < |docs|
    ensures AllDisjoint(docs[..o] + docs[o + 1..])
  {
    var after := docs[..o] + docs[o + 1..];
    hide Disjoint;
    forall i, j | 0 <= i < j < |after| ensures Disjoint(after[i], after[j]) {
      assert Disjoint(docs[if i < o then i else i + 1], docs[if j < o then j else j + 1]);
    }
  }

  /** Replacing one document by one that meets no other. */
  lemma DisjointReplaced(docs: seq<Doc>, o: nat, d: Doc)
    requires AllDisjoint(docs) && o < |docs|
    requires forall i :: 0 <= i < |docs| && i != o ==> Disjoint(docs[i], d) && Disjoint(d, docs[i])
    ensures AllDisjoint(docs[o := d])
  {
    hide Disjoint;
  }

  lemma DisjointStep(policy: RetentionPolicy, docs: seq<Doc>, now: int, op: RowOp, ts: int)
    requires Intervals(docs, now) && now <= ts <= MAX_TIMESTAMP
    ensures AllDisjoint(ApplyOp(policy, docs, op, ts))
  {
    match FindOpen(docs, op.key)
    case None =>
    case Some(o) =>
      assert forall i :: 0 <= i < |docs| ==> docs[i] in docs;
      if op.Close? && policy.Latest? {
        DisjointWithout(docs, o);
      } else if op.Close? {
        forall i | 0 <= i < |docs| && i != o
          ensures Disjoint(docs[i], docs[o].(to := ts - 1)) && Disjoint(docs[o].(to := ts - 1), docs[i])
        {
          assert if i < o then Disjoint(docs[i], docs[o]) else Disjoint(docs[o], docs[i]);
        }
        DisjointReplaced(docs, o, docs[o].(to := ts - 1));
      } else {
        DisjointReplaced(docs, o, Doc(op.key, op.row, ts, MAX_TIMESTAMP));
      }
  }

  lemma IntervalsStep(policy: RetentionPolicy, docs: seq<Doc>, now: int, op: RowOp, ts: int)
    requires Intervals(docs, now) && now <= ts <= MAX_TIMESTAMP
    ensures Intervals(ApplyOp(policy, docs, op, ts), ts)
  {
    OneOpenStep(policy, docs, op, ts);
    DisjointStep(policy, docs, now, op, ts);
    StepMembers(policy, docs, op, ts);
    hide ApplyOp, OneOpen, Disjoint;
    forall d | d in ApplyOp(policy, docs, op, ts) ensures d.from <= ts && (d.Open() || d.to < ts) {
      assert MemberAfter(policy, docs, op, ts, d);
    }
  }

  function Now(line: seq<TimedOp>, start: int): int {
    if line == [] then start else line[|line| - 1].at
  }

  /** Every collection reached over nondecreasing times, whatever the policy. */
  lemma {:induction false} IntervalInvariant(policy: RetentionPolicy, line: seq<TimedOp>, start: int)
    requires Chronological(line)
    ensures Intervals(Run(policy, line), Now(line, start))
    decreases |line|
  {
    if line != [] {
      var n := |line| - 1;
      IntervalInvariant(policy, line[..n], line[n].at);
      IntervalsStep(policy, Run(policy, line[..n]), Now(line[..n], line[n].at), line[n].op, line[n].at);
    }
  }

  /** The open rows do not depend on the retention policy, nor on the order of the timestamps. */
  lemma {:induction false} OpenRowsPolicyFree(p: RetentionPolicy, q: RetentionPolicy, line: seq<TimedOp>, k: RowKey)
    requires forall x <- line :: x.at <= MAX_TIMESTAMP
    ensures OneOpen(Run(p, line)) && OneOpen(Run(q, line))
    ensures OpenDoc(Run(p, line), k) == OpenDoc(Run(q, line), k)
    decreases |line|
  {
    if line != [] {
      var n := |line| - 1;
      OpenRowsPolicyFree(p, q, line[..n], k);
      var d := Doc(k, [], 0, 0);
      StepEffect(p, Run(p, line[..n]), line[n].op, line[n].at, d);
      StepEffect(q, Run(q, line[..n]), line[n].op, line[n].at, d);
      OneOpenStep(p, Run(p, line[..n]), line[n].op, line[n].at);
      OneOpenStep(q, Run(q, line[..n]), line[n].op, line[n].at);
    }
  }

  // ---- From the collection to a read result ----

  /** The collection, before filtering, shows m at t. */
  ghost predicate Shows(docs: seq<Doc>, t: int, m: map<RowKey, Row>) {
    && (forall d <- docs :: d.VisibleAt(t) ==> d.key in m && m[d.key] == d.row)
    && (forall k <- m :: exists d :: d in docs && d.VisibleAt(t) && d.key == k)
  }

  lemma {:induction false} FindDistinct(docs: seq<Doc>, t: int)
    requires AllDisjoint(docs)
    ensures forall i, j :: 0 <= i < j < |Find(docs, t)| ==> Find(docs, t)[i].key != Find(docs, t)[j].key
    decreases |docs|
  {
    if docs != [] {
      var n := |docs| - 1;
      FindDistinct(docs[..n], t);
      forall d | d in Find(docs[..n], t) && docs[n].VisibleAt(t) ensures d.key != docs[n].key {
        FindMember(docs[..n], t, d);
        var i :| 0 <= i < n && docs[i] == d;
        assert Disjoint(docs[i], docs[n]);
      }
    }
  }

  lemma ShownIsFound(docs: seq<Doc>, now: int, t: int, m: map<RowKey, Row>)
    requires Intervals(docs, now)
    ensures Exactly(Find(docs, t), m) <==> Shows(docs, t, m)
  {
    FindDistinct(docs, t);
    forall d: Doc ensures d in Find(docs, t) <==> d in docs && d.VisibleAt(t) {
      FindMember(docs, t, d);
    }
  }

  // ---- One operation, seen from t ----

  /** d is in the collection after one call: it was not the open row in question, or the call made it. */
  predicate MemberAfter(policy: RetentionPolicy, docs: seq<Doc>, op: RowOp, ts: int, d: Doc) {
    || (d in docs && !(d.key == op.key && d.Open()))
    || (op.Put? && d == Doc(op.key, op.row, ts, MAX_TIMESTAMP))
    || (op.Close? && !policy.Latest? && OpenDoc(docs, op.key).Some? && d == OpenDoc(docs, op.key).value.(to := ts - 1))
  }

  lemma StepMembers(policy: RetentionPolicy, docs: seq<Doc>, op: RowOp, ts: int)
    requires OneOpen(docs)
    ensures forall d: Doc :: d in ApplyOp(policy, docs, op, ts) <==> MemberAfter(policy, docs, op, ts, d)
  {
    hide OneOpen, DeleteOpen, EndOpen, Upsert;
    forall d: Doc ensures d in ApplyOp(policy, docs, op, ts) <==> MemberAfter(policy, docs, op, ts, d) {
      match op
      case Close(k) =>
        if policy.Latest? {
          DeleteOpenMember(docs, k, d);
        } else {
          EndOpenMember(docs, k, ts, d);
        }
      case Put(k, row) => UpsertMember(docs, k, row, ts, d);
    }
  }

  /** The call takes an open row away without keeping it as history. */
  predicate Removes(policy: RetentionPolicy, docs: seq<Doc>, op: RowOp) {
    (op.Put? || policy.Latest?) && OpenDoc(docs, op.key).Some?
  }

  /** A write that meets no open row, or one opened at the same instant. */
  predicate KeepsPast(docs: seq<Doc>, op: RowOp, ts: int) {
    op.Put? && OpenDoc(docs, op.key).Some? ==> OpenDoc(docs, op.key).value.from == ts
  }

  /** Earlier reads do not notice a call, unless it removes an open row that they show. */
  lemma PastStep(policy: RetentionPolicy, docs: seq<Doc>, now: int, op: RowOp, ts: int, t: int, m: map<RowKey, Row>)
    requires Intervals(docs, now) && now <= ts <= MAX_TIMESTAMP && t < ts
    requires Removes(policy, docs, op) ==> OpenDoc(docs, op.key).value.from > t
    requires Shows(docs, t, m)
    ensures Shows(ApplyOp(policy, docs, op, ts), t, m)
  {
    hide ApplyOp;
    var after := ApplyOp(policy, docs, op, ts);
    StepMembers(policy, docs, op, ts);
    forall k | k in m ensures exists d :: d in after && d.VisibleAt(t) && d.key == k {
      var d :| d in docs && d.VisibleAt(t) && d.key == k;
      if k == op.key && d.Open() {
        OpenDocUnique(docs, d);
        assert MemberAfter(policy, docs, op, ts, d.(to := ts - 1));
      } else {
        assert MemberAfter(policy, docs, op, ts, d);
      }
    }
    forall d | d in after && d.VisibleAt(t) ensures d.key in m && m[d.key] == d.row {
      assert MemberAfter(policy, docs, op, ts, d);
      if d !in docs {
        assert OpenDoc(docs, op.key).value.VisibleAt(t);
      }
    }
  }

  /** Seen from t: no row starts later, and what has ended had ended before. */
  ghost predicate Behind(docs: seq<Doc>, t: int) {
    OneOpen(docs) && forall d <- docs :: d.from <= t && (d.Open() || d.to < t)
  }

  lemma IntervalsBehind(docs: seq<Doc>, now: int, t: int)
    requires Intervals(docs, now) && now <= t
    ensures Behind(docs, t)
  {
    hide AllDisjoint, OneOpen;
  }

  lemma BehindStep(policy: RetentionPolicy, docs: seq<Doc>, op: RowOp, ts: int, t: int)
    requires Behind(docs, t) && ts <= t <= MAX_TIMESTAMP
    ensures Behind(ApplyOp(policy, docs, op, ts), t)
  {
    OneOpenStep(policy, docs, op, ts);
    StepMembers(policy, docs, op, ts);
    hide ApplyOp, OneOpen;
    forall d | d in ApplyOp(policy, docs, op, ts) ensures d.from <= t && (d.Open() || d.to < t) {
      assert MemberAfter(policy, docs, op, ts, d);
    }
  }

  /** A call at or before t is seen from t, whatever the order of the calls before it. */
  lemma PresentStep(policy: RetentionPolicy, docs: seq<Doc>, op: RowOp, ts: int, t: int, m: map<RowKey, Row>)
    requires Behind(docs, t) && ts <= t <= MAX_TIMESTAMP && Shows(docs, t, m)
    ensures Shows(ApplyOp(policy, docs, op, ts), t, ApplyLive(m, op))
  {
    hide ApplyOp;
    var after, m' := ApplyOp(policy, docs, op, ts), ApplyLive(m, op);
    StepMembers(policy, docs, op, ts);
    forall k | k in m' ensures exists d :: d in after && d.VisibleAt(t) && d.key == k {
      if k == op.key {
        assert MemberAfter(policy, docs, op, ts, Doc(k, op.row, ts, MAX_TIMESTAMP));
      } else {
        var d :| d in docs && d.VisibleAt(t) && d.key == k;
        assert MemberAfter(policy, docs, op, ts, d);
      }
    }
    forall d | d in after && d.VisibleAt(t) ensures d.key in m' && m'[d.key] == d.row {
      assert MemberAfter(policy, docs, op, ts, d);
    }
  }

  // ---- Whole timelines ----

  lemma {:induction false} OpenFindsDistinct(docs: seq<Doc>, t: int)
    requires Behind(docs, t)
    ensures forall i, j :: 0 <= i < j < |Find(docs, t)| ==> Find(docs, t)[i].key != Find(docs, t)[j].key
    decreases |docs|
  {
    if docs != [] {
      var n := |docs| - 1;
      OpenFindsDistinct(docs[..n], t);
      forall d | d in Find(docs[..n], t) && docs[n].VisibleAt(t) ensures d.key != docs[n].key {
        FindMember(docs[..n], t, d);
        var i :| 0 <= i < n && docs[i] == d;
      }
    }
  }

  lemma ShownIsFoundOpen(docs: seq<Doc>, t: int, m: map<RowKey, Row>)
    requires Behind(docs, t)
    ensures Exactly(Find(docs, t), m) <==> Shows(docs, t, m)
  {
    OpenFindsDistinct(docs, t);
    forall d: Doc ensures d in Find(docs, t) <==> d in docs && d.VisibleAt(t) {
      FindMember(docs, t, d);
    }
  }

  /**
   Under every retention policy a read at or after all operations shows the plain fold. The times of
   the operations need not be in order.
   */
  lemma {:induction false} PresentReads(policy: RetentionPolicy, line: seq<TimedOp>, t: int)
    requires (forall x <- line :: x.at <= t) && t <= MAX_TIMESTAMP
    ensures Behind(Run(policy, line), t) && Shows(Run(policy, line), t, Live(line, t))
    ensures Exactly(Find(Run(policy, line), t), Live(line, t))
    decreases |line|
  {
    if line != [] {
      var n := |line| - 1;
      PresentReads(policy, line[..n], t);
      assert line[n] in line;
      hide ApplyOp, Behind;
      BehindStep(policy, Run(policy, line[..n]), line[n].op, line[n].at, t);
      PresentStep(policy, Run(policy, line[..n]), line[n].op, line[n].at, t, Live(line[..n], t));
    }
    ShownIsFoundOpen(Run(policy, line), t, Live(line, t));
  }

  /** No write of the timeline hits a row that was opened at an earlier timestamp. */
  ghost predicate KeepsHistory(policy: RetentionPolicy, line: seq<TimedOp>) {
    line == [] ||
    (var n := |line| - 1;
     KeepsHistory(policy, line[..n]) && KeepsPast(Run(policy, line[..n]), line[n].op, line[n].at))
  }

  lemma {:induction false} HistoryReads(policy: RetentionPolicy, line: seq<TimedOp>, t: int)
    requires Chronological(line) && !policy.Latest? && KeepsHistory(policy, line) && t <= MAX_TIMESTAMP
    ensures Shows(Run(policy, line), t, Live(line, t))
    ensures Exactly(Find(Run(policy, line), t), Live(line, t))
    decreases |line|
  {
    if line != [] {
      var n := |line| - 1;
      HistoryReads(policy, line[..n], t);
      IntervalInvariant(policy, line[..n], line[n].at);
      var docs, now := Run(policy, line[..n]), Now(line[..n], line[n].at);
      if t < line[n].at {
        PastStep(policy, docs, now, line[n].op, line[n].at, t, Live(line[..n], t));
      } else {
        IntervalsBehind(docs, now, t);
        PresentStep(policy, docs, line[n].op, line[n].at, t, Live(line[..n], t));
      }
    }
    IntervalInvariant(policy, line, t);
    ShownIsFound(Run(policy, line), Now(line, t), t, Live(line, t));
  }

  // ---- What an overwrite loses ----

  lemma {:induction false} OpenIsLive(policy: RetentionPolicy, line: seq<TimedOp>, k: RowKey, t: int)
    requires Chronological(line)
    requires OpenDoc(Run(policy, line), k).Some? && OpenDoc(Run(policy, line), k).value.from <= t
    ensures k in Live(line, t)
    decreases |line|
  {
    hide ApplyOp, AllDisjoint;
    var n := |line| - 1;
    IntervalInvariant(policy, line[..n], line[n].at);
    StepEffect(policy, Run(policy, line[..n]), line[n].op, line[n].at, Doc(k, [], 0, 0));
    if line[n].op.key != k {
      OpenIsLive(policy, line[..n], k, t);
    }
  }

  ghost predicate Invisible(docs: seq<Doc>, k: RowKey, t: int) {
    forall d <- docs :: d.key == k ==> !d.VisibleAt(t)
  }

  /** Removing a row opened before ts takes it out of the reads between its start and ts. */
  lemma RemovalHides(policy: RetentionPolicy, docs: seq<Doc>, now: int, op: RowOp, ts: int)
    requires Intervals(docs, now) && now <= ts <= MAX_TIMESTAMP
    requires Removes(policy, docs, op) && OpenDoc(docs, op.key).value.from != ts
    ensures Invisible(ApplyOp(policy, docs, op, ts), op.key, OpenDoc(docs, op.key).value.from)
  {
    hide ApplyOp;
    var i := FindOpen(docs, op.key).value;
    StepMembers(policy, docs, op, ts);
    forall d | d in docs && d.key == op.key && !d.Open() ensures !d.VisibleAt(docs[i].from) {
      var j :| 0 <= j < |docs| && docs[j] == d;
      assert if i < j then Disjoint(docs[i], docs[j]) else Disjoint(docs[j], docs[i]);
    }
    forall d | d in ApplyOp(policy, docs, op, ts) && d.key == op.key ensures !d.VisibleAt(docs[i].from) {
      assert MemberAfter(policy, docs, op, ts, d);
    }
  }

  lemma InvisibleStep(policy: RetentionPolicy, docs: seq<Doc>, k: RowKey, t: int, op: RowOp, ts: int)
    requires OneOpen(docs) && Invisible(docs, k, t) && t < ts <= MAX_TIMESTAMP
    ensures Invisible(ApplyOp(policy, docs, op, ts), k, t)
  {
    hide ApplyOp;
    StepMembers(policy, docs, op, ts);
    forall d | d in ApplyOp(policy, docs, op, ts) && d.key == k ensures !d.VisibleAt(t) {
      assert MemberAfter(policy, docs, op, ts, d);
      if d !in docs && op.Close? {
        assert !OpenDoc(docs, op.key).value.VisibleAt(t);
      }
    }
  }

  /** What an overwrite loses stays lost, and stays alive in the fold. */
  lemma {:induction false} LossLasts(policy: RetentionPolicy, line: seq<TimedOp>) returns (k: RowKey, t: int)
    requires Chronological(line) && !KeepsHistory(policy, line)
    ensures t < line[|line| - 1].at
    ensures Invisible(Run(policy, line), k, t) && k in Live(line, t)
    decreases |line|
  {
    var n := |line| - 1;
    var docs, now, op, ts := Run(policy, line[..n]), Now(line[..n], line[n].at), line[n].op, line[n].at;
    IntervalInvariant(policy, line[..n], ts);
    if KeepsHistory(policy, line[..n]) {
      k, t := op.key, OpenDoc(docs, op.key).value.from;
      RemovalHides(policy, docs, now, op, ts);
      OpenIsLive(policy, line[..n], k, t);
    } else {
      k, t := LossLasts(policy, line[..n]);
      InvisibleStep(policy, docs, k, t, op, ts);
    }
  }

  /** Reads at every timestamp are right if and only if no write hit a row opened earlier. */
  lemma TimeTravelExact(policy: RetentionPolicy, line: seq<TimedOp>)
    requires Chronological(line) && !policy.Latest?
    ensures (forall t | t <= MAX_TIMESTAMP :: Exactly(Find(Run(policy, line), t), Live(line, t)))
            <==> KeepsHistory(policy, line)
  {
    if KeepsHistory(policy, line) {
      forall t | t <= MAX_TIMESTAMP ensures Exactly(Find(Run(policy, line), t), Live(line, t)) {
        HistoryReads(policy, line, t);
      }
    } else {
      var k, t := LossLasts(policy, line);
      IntervalInvariant(policy, line, t);
      ShownIsFound(Run(policy, line), Now(line, t), t, Live(line, t));
    }
  }

  // ---- One call, seen by a reader that looks no later than m ----

  /**
   The call takes no row away that was opened by m, and at its own time, if that is m, it changes
   nothing.
   */
  predicate Unseen(policy: RetentionPolicy, docs: seq<Doc>, op: RowOp, ts: int, m: int, rows: map<RowKey, Row>) {
    && !(Removes(policy, docs, op) && OpenDoc(docs, op.key).value.from <= m && OpenDoc(docs, op.key).value.from < ts)
    && (m < ts || ApplyLive(rows, op) == rows)
  }

  /** What a collection shows at a time is unique. */
  lemma ShowsOne(docs: seq<Doc>, t: int, a: map<RowKey, Row>, b: map<RowKey, Row>)
    requires Shows(docs, t, a) && Shows(docs, t, b)
    ensures a == b
  {
    forall k: RowKey ensures (k in a <==> k in b) && (k in a ==> a[k] == b[k]) {
      if k in a {
        var d :| d in docs && d.VisibleAt(t) && d.key == k;
      }
      if k in b {
        var d :| d in docs && d.VisibleAt(t) && d.key == k;
      }
    }
  }

  /** Reads at all times up to m stay right over one call if and only if the call is unseen from m. */
  lemma CallUnseenExact(policy: RetentionPolicy, docs: seq<Doc>, now: int, op: RowOp, ts: int, m: int,
                        rows: int -> map<RowKey, Row>)
    requires Intervals(docs, now) && now <= ts <= MAX_TIMESTAMP && m <= ts
    requires forall t | t <= m :: Shows(docs, t, rows(t))
    ensures (forall t | t <= m :: Shows(ApplyOp(policy, docs, op, ts), t, rows(t)))
            <==> Unseen(policy, docs, op, ts, m, rows(m))
  {
    hide ApplyOp, Intervals, Shows, ApplyLive;
    var after := ApplyOp(policy, docs, op, ts);
    if m == ts {
      IntervalsBehind(docs, now, m);
      PresentStep(policy, docs, op, ts, m, rows(m));
    }
    if Unseen(policy, docs, op, ts, m, rows(m)) {
      forall t | t <= m ensures Shows(after, t, rows(t)) {
        if t < ts {
          PastStep(policy, docs, now, op, ts, t, rows(t));
        }
      }
    } else if forall t | t <= m :: Shows(after, t, rows(t)) {
      if m == ts && ApplyLive(rows(m), op) != rows(m) {
        ShowsOne(after, m, rows(m), ApplyLive(rows(m), op));
        assert false;
      }
      var from := OpenDoc(docs, op.key).value.from;
      RemovalHides(policy, docs, now, op, ts);
      OpenShown(docs, now, op.key, rows(from));
      NotShown(after, op.key, from, rows(from));
    }
  }

  lemma OpenedByNow(docs: seq<Doc>, now: int, k: RowKey)
    requires Intervals(docs, now) && OpenDoc(docs, k).Some?
    ensures OpenDoc(docs, k).value.from <= now
  {
    hide AllDisjoint;
  }

  lemma OpenShown(docs: seq<Doc>, now: int, k: RowKey, rows: map<RowKey, Row>)
    requires Intervals(docs, now) && now <= MAX_TIMESTAMP && OpenDoc(docs, k).Some?
    requires Shows(docs, OpenDoc(docs, k).value.from, rows)
    ensures k in rows
  {
    OpenedByNow(docs, now, k);
  }

  lemma NotShown(docs: seq<Doc>, k: RowKey, t: int, rows: map<RowKey, Row>)
    requires Invisible(docs, k, t) && Shows(docs, t, rows)
    ensures k !in rows
  {
  }
}
