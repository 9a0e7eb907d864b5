/**
 The result table of the command line tool: rows in slots, and an index from the hash of a row to
 its slot. Deleted rows leave a nil slot behind, and the table starts with a hundred nil slots. A
 lookup that misses yields slot 0, as a missing key of a Go map does.

 The first result of each group of an aggregation is published without a row to replace, so the
 lookup for it misses. One such row fits into slot 0; the next one takes the slot from it.
 */
module ResultTable {
  import opened Wrappers
  import opened Results
  import opened ReplayAbsorption
  import opened TimeTravel
  import opened SnapshotReads
  import opened Splitting

  const INITIAL_SLOTS: nat := 100

  datatype Updated = Updated(before: Option<Row>, after: Row) {
    /** A nil row is hashed like a row without fields. The hash is modelled as the row itself. */
    function BeforeKey(): Row { if before.Some? then before.value else [] }
  }

  datatype Table = Table(resultKeys: map<Row, nat>, results: seq<Option<Row>>) {
    /** Enough for the operations not to fail. */
    ghost predicate InRange() {
      results != [] && forall row <- resultKeys :: resultKeys[row] < |results|
    }

    function Rows(): set<Row> { resultKeys.Keys }

    function Slot(key: Row): nat { if key in resultKeys then resultKeys[key] else 0 }
  }

  /** Every row is indexed at exactly its slot, and nothing else is in the slots. */
  ghost predicate IndexExact(t: Table) {
    && (forall row <- t.resultKeys :: t.resultKeys[row] < |t.results| && t.results[t.resultKeys[row]] == Some(row))
    && (forall i :: 0 <= i < |t.results| && t.results[i].Some? ==>
          t.results[i].value in t.resultKeys && t.resultKeys[t.results[i].value] == i)
  }

  // ---- The calls, as functions ----

  datatype Call = AddRow(row: Row) | ReplaceRow(update: Updated) | DeleteRow(row: Row)

  function Apply(t: Table, call: Call): (r: Table)
    requires t.InRange()
    ensures r.InRange()
  {
    match call
    case AddRow(row) => Table(t.resultKeys[row := |t.results|], t.results + [Some(row)])
    case ReplaceRow(u) =>
      var idx := t.Slot(u.BeforeKey());
      Table((t.resultKeys - {u.BeforeKey()})[u.after := idx], t.results[idx := Some(u.after)])
    case DeleteRow(row) => Table(t.resultKeys - {row}, t.results[t.Slot(row) := None])
  }

  function ApplyCalls(t: Table, calls: seq<Call>): (r: Table)
    requires t.InRange()
    ensures r.InRange()
  {
    if calls == [] then t else Apply(ApplyCalls(t, calls[..|calls| - 1]), calls[|calls| - 1])
  }

  datatype Message = Message(added: seq<Row>, updated: seq<Updated>, deleted: seq<Row>)

  function AddCalls(rows: seq<Row>): seq<Call> { seq(|rows|, i requires 0 <= i < |rows| => AddRow(rows[i])) }

  function ReplaceCalls(updates: seq<Updated>): seq<Call> {
    seq(|updates|, i requires 0 <= i < |updates| => ReplaceRow(updates[i]))
  }

  function DeleteCalls(rows: seq<Row>): seq<Call> { seq(|rows|, i requires 0 <= i < |rows| => DeleteRow(rows[i])) }

  /** Adds, then updates, then deletes. */
  function Calls(m: Message): seq<Call> { AddCalls(m.added) + ReplaceCalls(m.updated) + DeleteCalls(m.deleted) }

  function ApplyMessages(t: Table, messages: seq<Message>): (r: Table)
    requires t.InRange()
    ensures r.InRange()
  {
    if messages == [] then t
    else ApplyCalls(ApplyMessages(t, messages[..|messages| - 1]), Calls(messages[|messages| - 1]))
  }

  function NewTable(): (t: Table)
    ensures t.InRange() && IndexExact(t)
  {
    Table(map[], seq(INITIAL_SLOTS, _ => None))
  }

  /** The slots in order, without the nil ones. */
  function NonNil(results: seq<Option<Row>>): seq<Row> {
    if results == [] then []
    else NonNil(results[..|results| - 1]) + match results[|results| - 1] case Some(row) => [row] case None => []
  }

  lemma ApplySnoc(t: Table, calls: seq<Call>, i: nat)
    requires t.InRange() && i < |calls|
    ensures ApplyCalls(t, calls[..i + 1]) == Apply(ApplyCalls(t, calls[..i]), calls[i])
  {
    assert calls[..i + 1][..i] == calls[..i];
  }

  lemma CallAt(m: Message)
    ensures var calls, a, u := Calls(m), |m.added|, |m.updated|;
            && |calls| == a + u + |m.deleted|
            && (forall i :: 0 <= i < a ==> calls[i] == AddRow(m.added[i]))
            && (forall i :: 0 <= i < u ==> calls[a + i] == ReplaceRow(m.updated[i]))
            && (forall i :: 0 <= i < |m.deleted| ==> calls[a + u + i] == DeleteRow(m.deleted[i]))
  {
  }

  // ---- The table as an object ----

  class ResultContainer {
    var resultKeys: map<Row, nat>
    var results: seq<Option<Row>>

    function TheTable(): Table
      reads this
    {
      Table(resultKeys, results)
    }

    constructor ()
      ensures TheTable() == NewTable()
      ensures resultKeys == map[] && |results| == 100 && forall i :: 0 <= i < 100 ==> results[i] == None
    {
      resultKeys := map[];
      results := seq(INITIAL_SLOTS, _ => None);
    }

    /** Keeps the index exact if and only if the row is not there yet. */
    method Add(row: Row)
      requires TheTable().InRange()
      modifies this
      ensures TheTable() == Apply(old(TheTable()), AddRow(row))
      ensures old(IndexExact(TheTable())) ==> (IndexExact(TheTable()) <==> Fits(old(TheTable()), AddRow(row)))
    {
      ghost var was := TheTable();
      results := results + [Some(row)];
      resultKeys := resultKeys[row := |results| - 1];
      if IndexExact(was) {
        CallExact(was, AddRow(row));
      }
    }

    /** Keeps it exact if and only if the row is there, or slot 0, which is used instead, is nil. */
    method Delete(row: Row)
      requires TheTable().InRange()
      modifies this
      ensures TheTable() == Apply(old(TheTable()), DeleteRow(row))
      ensures old(IndexExact(TheTable())) ==> (IndexExact(TheTable()) <==> Fits(old(TheTable()), DeleteRow(row)))
    {
      ghost var was := TheTable();
      var idx := if row in resultKeys then resultKeys[row] else 0;
      resultKeys := resultKeys - {row};
      results := results[idx := None];
      if IndexExact(was) {
        CallExact(was, DeleteRow(row));
      }
    }

    /** Keeps it exact if and only if the slot it writes is the old row's, or free, and the new row is not elsewhere. */
    method Update(update: Updated)
      requires TheTable().InRange()
      modifies this
      ensures TheTable() == Apply(old(TheTable()), ReplaceRow(update))
      ensures resultKeys.Keys == old(resultKeys.Keys) - {if update.before.Some? then update.before.value else []} + {update.after}
      ensures old(IndexExact(TheTable())) ==> (IndexExact(TheTable()) <==> Fits(old(TheTable()), ReplaceRow(update)))
    {
      ghost var was := TheTable();
      var beforeKey := update.BeforeKey();
      var idx := if beforeKey in resultKeys then resultKeys[beforeKey] else 0;
      resultKeys := (resultKeys - {beforeKey})[update.after := idx];
      results := results[idx := Some(update.after)];
      if IndexExact(was) {
        CallExact(was, ReplaceRow(update));
      }
    }

    /** The rows on display. */
    method Visible() returns (rows: seq<Row>)
      ensures rows == NonNil(results)
    {
      rows := [];
      for i := 0 to |results|
        invariant rows == NonNil(results[..i])
      {
        assert results[..i + 1][..i] == results[..i];
        assert rows + [] == rows;
        if results[i].Some? {
          rows := rows + [results[i].value];
        }
      }
      assert results[..|results|] == results;
    }

    /** Adds, then updates, then deletes. */
    method ApplyChanges(m: Message)
      requires TheTable().InRange()
      modifies this
      ensures TheTable() == ApplyCalls(old(TheTable()), Calls(m))
    {
      ghost var was, calls := TheTable(), Calls(m);
      ghost var a, u := |m.added|, |m.updated|;
      CallAt(m);
      hide Apply, Calls, AddCalls, ReplaceCalls, DeleteCalls, IndexExact, Fits;
      for i := 0 to |m.added|
        invariant TheTable().InRange() && TheTable() == ApplyCalls(was, calls[..i])
      {
        Add(m.added[i]);
        ApplySnoc(was, calls, i);
      }
      for i := 0 to |m.updated|
        invariant TheTable().InRange() && TheTable() == ApplyCalls(was, calls[..a + i])
      {
        Update(m.updated[i]);
        ApplySnoc(was, calls, a + i);
      }
      for i := 0 to |m.deleted|
        invariant TheTable().InRange() && TheTable() == ApplyCalls(was, calls[..a + u + i])
      {
        Delete(m.deleted[i]);
        ApplySnoc(was, calls, a + u + i);
      }
      assert calls[..|calls|] == calls;
    }
  }

  /** A new table, after any messages. When its index is exact, each of its rows is shown once. */
  method ShowMessages(messages: seq<Message>) returns (table: ResultContainer, rows: seq<Row>)
    ensures fresh(table) && table.TheTable() == ApplyMessages(NewTable(), messages)
    ensures rows == NonNil(table.results)
    ensures IndexExact(table.TheTable()) ==>
              && (forall i, j :: 0 <= i < j < |rows| ==> rows[i] != rows[j])
              && (forall row :: row in rows <==> row in table.TheTable().Rows())
  {
    table := new ResultContainer();
    for i := 0 to |messages|
      invariant fresh(table) && table.TheTable().InRange()
      invariant table.TheTable() == ApplyMessages(NewTable(), messages[..i])
    {
      assert messages[..i + 1][..i] == messages[..i];
      table.ApplyChanges(messages[i]);
    }
    assert messages[..|messages|] == messages;
    rows := table.Visible();
    if IndexExact(table.TheTable()) {
      ExactShows(table.TheTable(), |table.results|);
      assert table.results[..|table.results|] == table.results;
    }
  }

  lemma NonNilSnoc(results: seq<Option<Row>>, n: nat)
    requires n < |results|
    ensures NonNil(results[..n + 1]) ==
            if results[n].Some? then NonNil(results[..n]) + [results[n].value] else NonNil(results[..n])
  {
    assert results[..n + 1][..n] == results[..n];
  }

  lemma SlotOf(t: Table, n: nat)
    requires IndexExact(t) && n < |t.results|
    ensures forall row <- t.resultKeys :: t.resultKeys[row] == n <==> t.results[n] == Some(row)
    ensures t.results[n].Some? ==> t.results[n].value in t.resultKeys
  {
  }

  lemma {:induction false} ExactShows(t: Table, n: nat)
    requires IndexExact(t) && n <= |t.results|
    ensures var rows := NonNil(t.results[..n]);
            && (forall row :: row in rows <==> row in t.resultKeys && t.resultKeys[row] < n)
            && (forall i, j :: 0 <= i < j < |rows| ==> rows[i] != rows[j])
  {
    if n > 0 {
      ExactShows(t, n - 1);
      NonNilSnoc(t.results, n - 1);
      SlotOf(t, n - 1);
    }
    hide NonNil, IndexExact;
  }

  // ---- One call ----

  predicate Fits(t: Table, call: Call)
    requires t.InRange()
  {
    match call
    case AddRow(row) => row !in t.resultKeys
    case DeleteRow(row) => row in t.resultKeys || t.results[0].None?
    case ReplaceRow(u) =>
      && (u.BeforeKey() in t.resultKeys || t.results[0].None? || t.results[0] == Some(u.after))
      && (u.after in t.resultKeys && u.after != u.BeforeKey() ==> t.resultKeys[u.after] == t.Slot(u.BeforeKey()))
  }

  lemma CallExact(t: Table, call: Call)
    requires t.InRange() && IndexExact(t)
    ensures IndexExact(Apply(t, call)) <==> Fits(t, call)
  {
    match call
    case AddRow(row) =>
      var t' := Apply(t, call);
      assert row in t.resultKeys ==> t'.results[t.resultKeys[row]] == Some(row);
    case DeleteRow(row) =>
      var t' := Apply(t, call);
      assert row !in t.resultKeys && t.results[0].Some? ==> t.results[0].value in t'.resultKeys;
    case ReplaceRow(u) =>
      if Fits(t, call) {
        ReplaceFits(t, u);
      } else {
        ReplaceMisfits(t, u);
      }
  }

  lemma ReplaceFits(t: Table, u: Updated)
    requires t.InRange() && IndexExact(t) && Fits(t, ReplaceRow(u))
    ensures IndexExact(Apply(t, ReplaceRow(u)))
  {
  }

  lemma ReplaceMisfits(t: Table, u: Updated)
    requires t.InRange() && IndexExact(t) && !Fits(t, ReplaceRow(u))
    ensures !IndexExact(Apply(t, ReplaceRow(u)))
  {
    var t', idx := Apply(t, ReplaceRow(u)), t.Slot(u.BeforeKey());
    if u.after in t.resultKeys && u.after != u.BeforeKey() && t.resultKeys[u.after] != idx {
      assert t'.results[t.resultKeys[u.after]] == Some(u.after);
    } else {
      assert t.results[0].value in t'.resultKeys;
    }
  }

  // ---- What the rows should be ----

  function PlainCall(rows: set<Row>, call: Call): set<Row> {
    match call
    case AddRow(row) => rows + {row}
    case ReplaceRow(u) => (if u.before.Some? then rows - {u.before.value} else rows) + {u.after}
    case DeleteRow(row) => rows - {row}
  }

  function PlainCalls(rows: set<Row>, calls: seq<Call>): set<Row> {
    if calls == [] then rows else PlainCall(PlainCalls(rows, calls[..|calls| - 1]), calls[|calls| - 1])
  }

  /** What the call says about its rows is so; a group is new, and no row is without fields. */
  predicate Truthful(rows: set<Row>, call: Call) {
    match call
    case AddRow(row) => row !in rows
    case ReplaceRow(Updated(Some(before), after)) => before in rows && (after == before || after !in rows)
    case ReplaceRow(Updated(None, after)) => after !in rows && [] !in rows
    case DeleteRow(row) => row in rows
  }

  ghost predicate AllTruthful(rows: set<Row>, calls: seq<Call>) {
    forall i :: 0 <= i < |calls| ==> Truthful(PlainCalls(rows, calls[..i]), calls[i])
  }

  lemma {:induction false} RowsFold(t: Table, calls: seq<Call>, i: nat)
    requires t.InRange() && AllTruthful(t.Rows(), calls) && i <= |calls|
    ensures ApplyCalls(t, calls[..i]).Rows() == PlainCalls(t.Rows(), calls[..i])
  {
    if i > 0 {
      RowsFold(t, calls, i - 1);
      assert calls[..i][..i - 1] == calls[..i - 1];
      assert Truthful(PlainCalls(t.Rows(), calls[..i - 1]), calls[i - 1]);
    }
  }

  function Mentions(call: Call): set<Row> {
    match call
    case AddRow(row) => {row}
    case ReplaceRow(u) => (if u.before.Some? then {u.before.value} else {}) + {u.after}
    case DeleteRow(row) => {row}
  }

  function Count(calls: seq<Call>, k: Row): nat {
    if calls == [] then 0
    else Count(calls[..|calls| - 1], k) + if k in Mentions(calls[|calls| - 1]) then 1 else 0
  }

  lemma {:induction false} CountConcat(a: seq<Call>, b: seq<Call>, k: Row)
    ensures Count(a + b, k) == Count(a, k) + Count(b, k)
    decreases |b|
  {
    if b == [] {
      assert a + b == a;
    } else {
      assert (a + b)[..|a| + |b| - 1] == a + b[..|b| - 1];
      CountConcat(a, b[..|b| - 1], k);
    }
  }

  lemma CountAt(calls: seq<Call>, i: nat, k: Row)
    requires i < |calls|
    ensures Count(calls, k) == Count(calls[..i], k) + (if k in Mentions(calls[i]) then 1 else 0) + Count(calls[i + 1..], k)
    ensures Count(calls[i..], k) == (if k in Mentions(calls[i]) then 1 else 0) + Count(calls[i + 1..], k)
  {
    var one := [calls[i]];
    assert calls == calls[..i] + one + calls[i + 1..];
    assert calls[i..] == one + calls[i + 1..];
    CountConcat(calls[..i] + one, calls[i + 1..], k);
    CountConcat(calls[..i], one, k);
    CountConcat(one, calls[i + 1..], k);
    assert one[..0] == [];
  }

  /** No row is mentioned by two calls. */
  ghost predicate EachOnce(calls: seq<Call>) {
    forall k: Row :: Count(calls, k) <= 1
  }

  // ---- When the table is right ----

  /** The first i calls fit, each at its turn. */
  ghost predicate FitsFirst(t: Table, calls: seq<Call>, i: nat)
    requires t.InRange() && i <= |calls|
  {
    forall j :: 0 <= j < i ==> Fits(ApplyCalls(t, calls[..j]), calls[j])
  }

  /** Row a is indexed at slot 0, but the slot holds another row, or another row is indexed there too. */
  ghost predicate Lost(t: Table, a: Row) {
    && t.results != [] && a in t.resultKeys && t.resultKeys[a] == 0
    && (t.results[0] != Some(a) || exists y <- t.resultKeys :: y != a && t.resultKeys[y] == 0)
  }

  lemma LostNotExact(t: Table, a: Row)
    requires Lost(t, a)
    ensures !IndexExact(t)
  {
  }

  /** Truthful calls that do not mention a do not bring it back. */
  lemma LostStays(t: Table, call: Call, a: Row)
    requires t.InRange() && Lost(t, a) && Truthful(t.Rows(), call) && a !in Mentions(call)
    requires call.ReplaceRow? && call.update.before.None? ==> a != []
    ensures Lost(Apply(t, call), a)
  {
    var t' := Apply(t, call);
    if t.results[0] == Some(a) {
      var y :| y in t.resultKeys && y != a && t.resultKeys[y] == 0;
      assert t'.results[0] != Some(a) || (y in t'.resultKeys && t'.resultKeys[y] == 0);
    }
  }

  /** A truthful call does not fit only if it brings a new group while slot 0 is taken. */
  lemma TruthfulFits(t: Table, call: Call)
    requires t.InRange() && IndexExact(t) && Truthful(t.Rows(), call)
    ensures Fits(t, call) <==> !(call.ReplaceRow? && call.update.before.None? && t.results[0].Some?)
    ensures !Fits(t, call) ==> Lost(Apply(t, call), call.update.after)
  {
    if !Fits(t, call) {
      var z := t.results[0].value;
      assert z in t.resultKeys && t.resultKeys[z] == 0;
      assert Apply(t, call).resultKeys[z] == 0;
    }
  }

  ghost predicate LostForGood(t: Table, rest: seq<Call>, a: Row) {
    Lost(t, a) && Count(rest, a) == 0 && a != []
  }

  /** A row taken from slot 0 by the call at i, or before, is lost for good. */
  lemma LostStep(t: Table, calls: seq<Call>, i: nat, a: Row)
    requires t.InRange() && i < |calls| && LostForGood(t, calls[i..], a) && Truthful(t.Rows(), calls[i])
    ensures LostForGood(Apply(t, calls[i]), calls[i + 1..], a)
  {
    hide Lost, Apply, Truthful;
    CountAt(calls, i, a);
    LostStays(t, calls[i], a);
  }

  lemma MisfitStep(t: Table, calls: seq<Call>, i: nat)
    requires t.InRange() && IndexExact(t) && i < |calls| && Truthful(t.Rows(), calls[i]) && !Fits(t, calls[i])
    requires EachOnce(calls) && Count(calls, []) == 0
    ensures calls[i].ReplaceRow? && LostForGood(Apply(t, calls[i]), calls[i + 1..], calls[i].update.after)
  {
    TruthfulFits(t, calls[i]);
    hide IndexExact, Fits, Lost, Apply, Truthful;
    NotAgain(calls, i, calls[i].update.after);
  }

  lemma FitsSnoc(t: Table, calls: seq<Call>, i: nat)
    requires t.InRange() && i < |calls|
    ensures FitsFirst(t, calls, 0)
    ensures FitsFirst(t, calls, i + 1) <==> FitsFirst(t, calls, i) && Fits(ApplyCalls(t, calls[..i]), calls[i])
  {
    hide Fits, ApplyCalls;
  }

  /** The rows before a call are those that the call is truthful about. */
  lemma TruthAt(t: Table, calls: seq<Call>, i: nat)
    requires t.InRange() && AllTruthful(t.Rows(), calls) && i < |calls|
    ensures Truthful(ApplyCalls(t, calls[..i]).Rows(), calls[i])
  {
    RowsFold(t, calls, i);
  }

  lemma {:induction false} TableTrace(t: Table, calls: seq<Call>, i: nat)
    requires t.InRange() && IndexExact(t) && AllTruthful(t.Rows(), calls) && EachOnce(calls)
    requires Count(calls, []) == 0 && i <= |calls|
    ensures FitsFirst(t, calls, i) ==> IndexExact(ApplyCalls(t, calls[..i]))
    ensures !FitsFirst(t, calls, i) ==> exists a: Row :: LostForGood(ApplyCalls(t, calls[..i]), calls[i..], a)
  {
    hide *;
    if i == 0 {
      TraceStart(t, calls);
    } else {
      TableTrace(t, calls, i - 1);
      var now, call := ApplyCalls(t, calls[..i - 1]), calls[i - 1];
      ApplySnoc(t, calls, i - 1);
      TruthAt(t, calls, i - 1);
      FitsSnoc(t, calls, i - 1);
      if FitsFirst(t, calls, i - 1) {
        CallExact(now, call);
        if !Fits(now, call) {
          MisfitStep(now, calls, i - 1);
        }
      } else {
        var a: Row :| LostForGood(now, calls[i - 1..], a);
        LostStep(now, calls, i - 1, a);
      }
    }
  }

  lemma TraceStart(t: Table, calls: seq<Call>)
    requires t.InRange()
    ensures FitsFirst(t, calls, 0) && ApplyCalls(t, calls[..0]) == t && Groups(calls[..0]) == 0
  {
  }

  lemma NotAgain(calls: seq<Call>, i: nat, a: Row)
    requires EachOnce(calls) && Count(calls, []) == 0 && i < |calls| && a in Mentions(calls[i])
    ensures Count(calls[i + 1..], a) == 0 && a != []
  {
    CountAt(calls, i, a);
    assert Count(calls, a) <= 1;
  }

  /** After truthful calls on separate rows the index is exact if and only if each call fitted at its turn. */
  lemma TableExact(t: Table, calls: seq<Call>)
    requires t.InRange() && IndexExact(t) && AllTruthful(t.Rows(), calls) && EachOnce(calls) && Count(calls, []) == 0
    ensures IndexExact(ApplyCalls(t, calls)) <==> FitsFirst(t, calls, |calls|)
  {
    assert calls[..|calls|] == calls;
    hide IndexExact, FitsFirst, Lost, ApplyCalls;
    TableTrace(t, calls, |calls|);
    if !FitsFirst(t, calls, |calls|) {
      var a: Row :| LostForGood(ApplyCalls(t, calls[..|calls|]), calls[|calls|..], a);
      LostNotExact(ApplyCalls(t, calls), a);
    }
  }

  // ---- Counting new groups ----

  predicate NewGroup(call: Call) { call.ReplaceRow? && call.update.before.None? }

  function Groups(calls: seq<Call>): nat {
    if calls == [] then 0 else Groups(calls[..|calls| - 1]) + if NewGroup(calls[|calls| - 1]) then 1 else 0
  }

  function Free(t: Table): nat
    requires t.results != []
  {
    if t.results[0].None? then 1 else 0
  }

  ghost predicate DeletesLast(calls: seq<Call>) {
    forall i, j :: 0 <= i < j < |calls| && calls[i].DeleteRow? ==> calls[j].DeleteRow?
  }

  /** Slot 0 is only ever taken by a new group, and only freed by a delete. */
  lemma SlotZero(t: Table, call: Call)
    requires t.InRange() && IndexExact(t) && Truthful(t.Rows(), call) && Fits(t, call) && !call.DeleteRow?
    ensures Apply(t, call).results[0].None? <==> t.results[0].None? && !NewGroup(call)
  {
  }

  lemma GroupsSnoc(calls: seq<Call>, i: nat)
    requires i < |calls|
    ensures Groups(calls[..i + 1]) == Groups(calls[..i]) + if NewGroup(calls[i]) then 1 else 0
  {
    assert calls[..i + 1][..i] == calls[..i];
  }

  lemma {:induction false} FitsCount(t: Table, calls: seq<Call>, i: nat)
    requires t.InRange() && IndexExact(t) && AllTruthful(t.Rows(), calls) && EachOnce(calls) && Count(calls, []) == 0
    requires DeletesLast(calls) && i <= |calls|
    ensures FitsFirst(t, calls, i) <==> Groups(calls[..i]) <= Free(t)
    ensures FitsFirst(t, calls, i) && (i == 0 || !calls[i - 1].DeleteRow?) ==>
              (ApplyCalls(t, calls[..i]).results[0].None? <==> Groups(calls[..i]) < Free(t))
  {
    hide IndexExact, Fits, FitsFirst, Apply, ApplyCalls, Truthful, AllTruthful, EachOnce, Count, Groups;
    if i == 0 {
      TraceStart(t, calls);
    } else {
      FitsCount(t, calls, i - 1);
      GroupsSnoc(calls, i - 1);
      FitsSnoc(t, calls, i - 1);
      if FitsFirst(t, calls, i - 1) {
        var now, call := ApplyCalls(t, calls[..i - 1]), calls[i - 1];
        ApplySnoc(t, calls, i - 1);
        TruthAt(t, calls, i - 1);
        TableTrace(t, calls, i - 1);
        TruthfulFits(now, call);
        if Fits(now, call) && !call.DeleteRow? {
          SlotZero(now, call);
        }
      }
    }
  }

  // ---- The contexts behind a message ----

  function PairOf(u: UpdatePayload): Updated
    requires u.after.Some?
  {
    Updated(u.before, u.after.value)
  }

  /** The updates as the tool reads them; the host always gives the new row. */
  function Pairs(updates: seq<UpdatePayload>): seq<Updated>
    requires forall u <- updates :: u.after.Some?
  {
    seq(|updates|, i requires 0 <= i < |updates| => PairOf(updates[i]))
  }

  function ListCalls(l: Lists): seq<Call>
    requires forall u <- l.updated :: u.after.Some?
  {
    Calls(Message(l.added, Pairs(l.updated), l.deleted))
  }

  /** The message that the contexts are published as. */
  function MessageOf(contexts: seq<QueryContext>): Message {
    SplitAfters(contexts);
    var l := Split(contexts);
    Message(l.added, Pairs(l.updated), l.deleted)
  }

  function ContextCalls(ctx: QueryContext): seq<Call> {
    match ctx
    case Adding(after) => [AddRow(after)]
    case Updating(before, after) => [ReplaceRow(Updated(Some(before), after))]
    case Aggregation(prior, after, _) => [ReplaceRow(Updated(prior, after))]
    case Removing(before) => [DeleteRow(before)]
    case Noop => []
  }

  lemma {:induction false} SplitAfters(contexts: seq<QueryContext>)
    ensures forall u <- Split(contexts).updated :: u.after.Some?
  {
    if contexts != [] {
      SplitAfters(contexts[..|contexts| - 1]);
    }
  }

  /** One more context is one more call, in one of the three groups. */
  lemma ListCallsGrow(l: Lists, ctx: QueryContext) returns (before: seq<Call>, after: seq<Call>)
    requires forall u <- l.updated :: u.after.Some?
    ensures forall u <- l.Plus(ctx).updated :: u.after.Some?
    ensures ListCalls(l) == before + after
    ensures ListCalls(l.Plus(ctx)) == before + ContextCalls(ctx) + after
  {
    var l' := l.Plus(ctx);
    var a, u, d := AddCalls(l.added), ReplaceCalls(Pairs(l.updated)), DeleteCalls(l.deleted);
    match ctx
    case Adding(row) =>
      assert AddCalls(l'.added) == a + [AddRow(row)];
      assert l'.updated == l.updated && l'.deleted == l.deleted;
      before, after := a, u + d;
    case Updating(_, _) =>
      assert ReplaceCalls(Pairs(l'.updated)) == u + ContextCalls(ctx);
      assert l'.added == l.added && l'.deleted == l.deleted;
      before, after := a + u, d;
    case Aggregation(_, _, _) =>
      assert ReplaceCalls(Pairs(l'.updated)) == u + ContextCalls(ctx);
      assert l'.added == l.added && l'.deleted == l.deleted;
      before, after := a + u, d;
    case Removing(row) =>
      assert DeleteCalls(l'.deleted) == d + [DeleteRow(row)];
      assert l'.added == l.added && l'.updated == l.updated;
      before, after := a + u + d, [];
    case Noop =>
      assert l' == l;
      before, after := a + u + d, [];
  }

  function NewGroups(contexts: seq<QueryContext>): nat {
    if contexts == [] then 0
    else
      var ctx := contexts[|contexts| - 1];
      NewGroups(contexts[..|contexts| - 1]) + if ctx.Aggregation? && ctx.prior.None? then 1 else 0
  }

  lemma {:induction false} GroupsConcat(a: seq<Call>, b: seq<Call>)
    ensures Groups(a + b) == Groups(a) + Groups(b)
    decreases |b|
  {
    if b == [] {
      assert a + b == a;
    } else {
      assert (a + b)[..|a| + |b| - 1] == a + b[..|b| - 1];
      GroupsConcat(a, b[..|b| - 1]);
    }
  }

  lemma ContextFacts(ctx: QueryContext, k: Row)
    ensures Count(ContextCalls(ctx), k) == if Touches(ctx, false, k) then 1 else 0
    ensures Groups(ContextCalls(ctx)) == if ctx.Aggregation? && ctx.prior.None? then 1 else 0
  {
    var calls := ContextCalls(ctx);
    if calls != [] {
      assert calls[..0] == [];
    }
    ContextTouches(ctx, k);
  }

  lemma ContextTouches(ctx: QueryContext, k: Row)
    ensures Touches(ctx, false, k) <==> exists call <- ContextCalls(ctx) :: k in Mentions(call)
  {
    var ops := ContextOps(ctx, false);
    assert FirstOp(ops, k).Some? <==> exists op <- ops :: op.key == k;
    if ctx.Updating? {
      assert ops == [CloseOp(ctx.before), PutOp(ctx.after)];
    } else if ctx.Aggregation? {
      assert ops == (if ctx.prior.Some? then [CloseOp(ctx.prior.value)] else []) + [PutOp(ctx.after)];
    }
    assert ContextCalls(ctx) != [] ==> ContextCalls(ctx)[0] in ContextCalls(ctx);
    forall op | op in ops && op.key == k ensures exists call <- ContextCalls(ctx) :: k in Mentions(call) {
      assert k in Mentions(ContextCalls(ctx)[0]);
    }
    if exists call <- ContextCalls(ctx) :: k in Mentions(call) {
      assert exists i :: 0 <= i < |ops| && ops[i].key == k;
    }
  }

  /** One more context adds its own counts. */
  lemma CountsGrow(l: Lists, ctx: QueryContext, k: Row)
    requires forall u <- l.updated :: u.after.Some?
    ensures forall u <- l.Plus(ctx).updated :: u.after.Some?
    ensures Groups(ListCalls(l.Plus(ctx))) == Groups(ListCalls(l)) + if ctx.Aggregation? && ctx.prior.None? then 1 else 0
    ensures Count(ListCalls(l.Plus(ctx)), k) == Count(ListCalls(l), k) + if Touches(ctx, false, k) then 1 else 0
  {
    var before, after := ListCallsGrow(l, ctx);
    ContextFacts(ctx, k);
    var more := ContextCalls(ctx);
    hide Touches, ContextCalls, ListCalls, Count, Groups;
    GroupsConcat(before, after);
    GroupsConcat(before + more, after);
    GroupsConcat(before, more);
    CountConcat(before, after, k);
    CountConcat(before + more, after, k);
    CountConcat(before, more, k);
  }

  lemma {:induction false} CallsCounted(contexts: seq<QueryContext>, k: Row)
    requires forall u <- Split(contexts).updated :: u.after.Some?
    ensures Groups(ListCalls(Split(contexts))) == NewGroups(contexts)
    ensures Separate(contexts, false) ==> Count(ListCalls(Split(contexts)), k) <= 1
    ensures (forall ctx <- contexts :: !Touches(ctx, false, k)) ==> Count(ListCalls(Split(contexts)), k) == 0
    decreases |contexts|
  {
    hide Touches, ListCalls, Count, Groups, Split, ContextOps;
    if contexts == [] {
      NothingCalled(k);
    } else {
      var n := |contexts| - 1;
      SplitAfters(contexts[..n]);
      CallsCounted(contexts[..n], k);
      SplitSnoc(contexts);
      CountsGrow(Split(contexts[..n]), contexts[n], k);
      if Separate(contexts, false) && Touches(contexts[n], false, k) {
        assert forall i :: 0 <= i < n ==> !Touches(contexts[i], false, k);
      }
    }
  }

  lemma SplitSnoc(contexts: seq<QueryContext>)
    requires contexts != []
    ensures Split(contexts) == Split(contexts[..|contexts| - 1]).Plus(contexts[|contexts| - 1])
  {
  }

  lemma NothingCalled(k: Row)
    ensures ListCalls(Split([])) == [] && Groups([]) == 0 && Count([], k) == 0
  {
  }

  /** The contexts say of each row rightly whether it was there, and a row has fields. */
  ghost predicate Told(rows: set<Row>, contexts: seq<QueryContext>) {
    && [] !in rows
    && forall ctx <- contexts ::
         !Touches(ctx, false, []) && forall call <- ContextCalls(ctx) :: Truthful(rows, call)
  }

  lemma {:induction false} CallsFromContexts(contexts: seq<QueryContext>)
    requires forall u <- Split(contexts).updated :: u.after.Some?
    ensures forall call <- ListCalls(Split(contexts)) :: exists ctx <- contexts :: call in ContextCalls(ctx)
    decreases |contexts|
  {
    hide Touches, ContextCalls, ListCalls;
    if contexts == [] {
      NothingCalled([]);
    } else {
      var n := |contexts| - 1;
      SplitAfters(contexts[..n]);
      CallsFromContexts(contexts[..n]);
      var before, after := ListCallsGrow(Split(contexts[..n]), contexts[n]);
      var prior, more := ListCalls(Split(contexts[..n])), ContextCalls(contexts[n]);
      forall call | call in before + more + after ensures exists ctx <- contexts :: call in ContextCalls(ctx) {
        if call in before + after {
          var ctx :| ctx in contexts[..n] && call in ContextCalls(ctx);
          assert ctx in contexts;
        } else {
          assert call in more && contexts[n] in contexts;
        }
      }
    }
  }

  lemma {:induction false} UnmentionedStays(rows: set<Row>, calls: seq<Call>, k: Row)
    requires Count(calls, k) == 0
    ensures k in PlainCalls(rows, calls) <==> k in rows
    decreases |calls|
  {
    if calls != [] {
      UnmentionedStays(rows, calls[..|calls| - 1], k);
    }
  }

  /** On separate rows, what was true before the message is still true when a call gets its turn. */
  lemma TruthStays(rows: set<Row>, calls: seq<Call>)
    requires EachOnce(calls) && Count(calls, []) == 0 && [] !in rows
    requires forall call <- calls :: Truthful(rows, call)
    ensures AllTruthful(rows, calls)
  {
    forall i | 0 <= i < |calls| ensures Truthful(PlainCalls(rows, calls[..i]), calls[i]) {
      forall k | k in Mentions(calls[i]) || k == [] ensures k in PlainCalls(rows, calls[..i]) <==> k in rows {
        CountAt(calls, i, k);
        assert Count(calls, k) <= 1;
        UnmentionedStays(rows, calls[..i], k);
      }
      assert Truthful(rows, calls[i]);
    }
  }

  // ---- The fold of a message is what its contexts leave alive ----

  function CallOps(call: Call): seq<RowOp> {
    match call
    case AddRow(row) => [PutOp(row)]
    case ReplaceRow(u) => UpdateOp(UpdatePayload(u.before, Some(u.after), None))
    case DeleteRow(row) => [CloseOp(row)]
  }

  function AllOps(calls: seq<Call>): seq<RowOp> {
    if calls == [] then [] else AllOps(calls[..|calls| - 1]) + CallOps(calls[|calls| - 1])
  }

  lemma {:induction false} AllOpsConcat(a: seq<Call>, b: seq<Call>)
    ensures AllOps(a + b) == AllOps(a) + AllOps(b)
    decreases |b|
  {
    hide CallOps;
    if b == [] {
      assert a + b == a;
      assert AllOps(a) + [] == AllOps(a);
    } else {
      assert (a + b)[..|a| + |b| - 1] == a + b[..|b| - 1];
      AllOpsConcat(a, b[..|b| - 1]);
    }
  }

  lemma {:induction false} LiveConcat(m: map<RowKey, Row>, a: seq<RowOp>, b: seq<RowOp>)
    ensures ApplyAllLive(m, a + b) == ApplyAllLive(ApplyAllLive(m, a), b)
    decreases |b|
  {
    if b == [] {
      assert a + b == a;
    } else {
      assert (a + b)[..|a| + |b| - 1] == a + b[..|b| - 1];
      LiveConcat(m, a, b[..|b| - 1]);
    }
  }

  lemma OneLive(m: map<RowKey, Row>, op: RowOp)
    ensures ApplyAllLive(m, [op]) == ApplyLive(m, op)
  {
    assert [op][..0] == [];
    assert ApplyAllLive(m, [op][..0]) == m;
  }

  lemma PlainIsLive(m: map<RowKey, Row>, call: Call)
    ensures ApplyAllLive(m, CallOps(call)).Keys == PlainCall(m.Keys, call)
  {
    hide ApplyAllLive;
    match call
    case AddRow(row) => OneLive(m, PutOp(row));
    case DeleteRow(row) => OneLive(m, CloseOp(row));
    case ReplaceRow(u) =>
      var put := PutOp(u.after);
      if u.before.Some? {
        var close := CloseOp(u.before.value);
        assert CallOps(call) == [close] + [put];
        LiveConcat(m, [close], [put]);
        OneLive(m, close);
        OneLive(ApplyLive(m, close), put);
      } else {
        assert CallOps(call) == [put];
        OneLive(m, put);
      }
  }

  lemma {:induction false} PlainFoldIsLive(m: map<RowKey, Row>, calls: seq<Call>)
    ensures ApplyAllLive(m, AllOps(calls)).Keys == PlainCalls(m.Keys, calls)
    decreases |calls|
  {
    hide ApplyAllLive, CallOps, PlainCall;
    if calls == [] {
      assert ApplyAllLive(m, []) == m by {
        NothingApplied(m);
      }
    } else {
      var n := |calls| - 1;
      PlainFoldIsLive(m, calls[..n]);
      LiveConcat(m, AllOps(calls[..n]), CallOps(calls[n]));
      PlainIsLive(ApplyAllLive(m, AllOps(calls[..n])), calls[n]);
    }
  }

  lemma NothingApplied(m: map<RowKey, Row>)
    ensures ApplyAllLive(m, []) == m
  {
  }

  lemma {:induction false} AddGroup(added: seq<Row>)
    ensures AllOps(AddCalls(added)) == AddOps(added)
    decreases |added|
  {
    if added != [] {
      var n := |added| - 1;
      assert AddCalls(added)[..n] == AddCalls(added[..n]);
      AddGroup(added[..n]);
      assert AddOps(added) == AddOps(added[..n]) + [PutOp(added[n])];
    }
  }

  lemma {:induction false} DeleteGroup(deleted: seq<Row>)
    ensures AllOps(DeleteCalls(deleted)) == DeleteOps(deleted)
    decreases |deleted|
  {
    if deleted != [] {
      var n := |deleted| - 1;
      assert DeleteCalls(deleted)[..n] == DeleteCalls(deleted[..n]);
      DeleteGroup(deleted[..n]);
      assert DeleteOps(deleted) == DeleteOps(deleted[..n]) + [CloseOp(deleted[n])];
    }
  }

  lemma {:induction false} UpdateGroup(updates: seq<UpdatePayload>)
    requires forall u <- updates :: u.after.Some?
    ensures AllOps(ReplaceCalls(Pairs(updates))) == UpdateCalls(updates, false)
    decreases |updates|
  {
    if updates != [] {
      var n := |updates| - 1;
      assert ReplaceCalls(Pairs(updates))[..n] == ReplaceCalls(Pairs(updates[..n]));
      UpdateGroup(updates[..n]);
      assert CallOps(ReplaceRow(PairOf(updates[n]))) == UpdateCall(updates[n], false);
    }
  }

  lemma ListOps(l: Lists)
    requires forall u <- l.updated :: u.after.Some?
    ensures AllOps(ListCalls(l)) == ToolOrder(l, false)
  {
    var a, u, d := AddCalls(l.added), ReplaceCalls(Pairs(l.updated)), DeleteCalls(l.deleted);
    AllOpsConcat(a + u, d);
    AllOpsConcat(a, u);
    AddGroup(l.added);
    UpdateGroup(l.updated);
    DeleteGroup(l.deleted);
  }

  /**
   A message from separate contexts that say rightly which rows were there: the indexed rows are those
   that the contexts, in their own order, leave alive, and they are in their slots if and only if the
   message brings no more new groups than slot 0 has room for, one or none.
   */
  lemma TableReplaysContexts(t: Table, m: map<RowKey, Row>, contexts: seq<QueryContext>)
    requires t.InRange() && IndexExact(t) && m.Keys == t.Rows()
    requires Separate(contexts, false) && Told(t.Rows(), contexts)
    ensures var t' := ApplyCalls(t, Calls(MessageOf(contexts)));
            && t'.Rows() == ApplyAllLive(m, InOrder(contexts, false)).Keys
            && (IndexExact(t') <==> NewGroups(contexts) <= Free(t))
  {
    SplitAfters(contexts);
    var calls := ListCalls(Split(contexts));
    assert calls == Calls(MessageOf(contexts));
    hide Touches, ContextCalls, IndexExact, Fits;
    assert DeletesLast(calls);
    forall k: Row ensures Count(calls, k) <= 1 {
      CallsCounted(contexts, k);
    }
    CallsCounted(contexts, []);
    CallsFromContexts(contexts);
    TruthStays(t.Rows(), calls);
    assert calls[..|calls|] == calls;
    RowsFold(t, calls, |calls|);
    TableExact(t, calls);
    FitsCount(t, calls, |calls|);
    PlainFoldIsLive(m, calls);
    ListOps(Split(contexts));
    LiveRowsKept(m, contexts, false);
  }

  // ---- What goes wrong ----

  lemma TwoGroupsSplit(a: Row, b: Row, keys: seq<string>)
    ensures var contexts := [Aggregation(None, a, keys), Aggregation(None, b, keys)];
            && Calls(MessageOf(contexts)) == [ReplaceRow(Updated(None, a)), ReplaceRow(Updated(None, b))]
            && InOrder(contexts, false) == [PutOp(a)] + [PutOp(b)]
  {
    var contexts := [Aggregation(None, a, keys), Aggregation(None, b, keys)];
    var first := [contexts[0]];
    assert contexts[..1] == first && first[..0] == [];
    assert Split(first) == Lists([], [UpdatePayload(None, Some(a), Some(keys))], []);
    assert InOrder(first, false) == [PutOp(a)];
  }

  /** Two new groups: the first is in the index, but no longer in the table. */
  lemma TwoNewGroupsLoseARow(a: Row, b: Row, keys: seq<string>)
    requires a != b && a != [] && b != []
    ensures var contexts := [Aggregation(None, a, keys), Aggregation(None, b, keys)];
            var t := ApplyCalls(NewTable(), Calls(MessageOf(contexts)));
            && ApplyAllLive(map[], InOrder(contexts, false)).Keys == t.Rows() == {a, b}
            && NonNil(t.results) == [b]
  {
    TwoGroupsSplit(a, b, keys);
    hide Split, InOrder, MessageOf, Calls, ApplyAllLive, NonNil;
    var calls := [ReplaceRow(Updated(None, a)), ReplaceRow(Updated(None, b))];
    assert calls[..1] == [calls[0]] && calls[..1][..0] == [];
    var t1 := Apply(NewTable(), calls[0]);
    assert ApplyCalls(NewTable(), calls[..1]) == t1;
    var t := Apply(t1, calls[1]);
    assert t == ApplyCalls(NewTable(), calls);
    assert t.Rows() == {a, b};
    AllNil(t.results, |t.results|);
    assert t.results[..|t.results|] == t.results;
    LiveConcat(map[], [PutOp(a)], [PutOp(b)]);
    OneLive(map[], PutOp(a));
    OneLive(map[a := a], PutOp(b));
  }

  lemma {:induction false} AllNil(results: seq<Option<Row>>, n: nat)
    requires 1 <= n <= |results| && results[0].Some? && forall i :: 1 <= i < |results| ==> results[i].None?
    ensures NonNil(results[..n]) == [results[0].value]
  {
    assert results[..n][..n - 1] == results[..n - 1];
    if n > 1 {
      AllNil(results, n - 1);
    }
  }

  /** The same with updates that name a row which is not there. */
  method TwoMissesLoseARow(a: Row, b: Row, absent: Row) returns (table: ResultContainer)
    requires a != b && absent != a && absent != b
    ensures table.TheTable().Rows() == {a, b} && Some(a) !in table.results && Some(b) in table.results
  {
    table := new ResultContainer();
    table.Update(Updated(Some(absent), a));
    table.Update(Updated(Some(absent), b));
    assert table.results[0] == Some(b);
  }
}
