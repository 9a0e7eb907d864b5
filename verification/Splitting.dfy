/**
 One source change yields query contexts in some order; the published event sorts them into added,
 updated and deleted rows and forgets that order. The view store replays deletes, then updates, then
 adds; the command line tool replays adds, then updates, then deletes. An order reaches the same rows
 as the contexts if and only if it ends each key with the same call, and the store the same history
 if it also begins with the same kind of call. Both always do if no row key is touched by two contexts.
 */
module Splitting {
  import opened Wrappers
  import opened Results
  import opened ViewCollection
  import opened ReplayAbsorption
  import opened TimeTravel
  import opened SnapshotReads

  // ---- The three lists ----

  function AddedBy(ctx: QueryContext): seq<Row> {
    if ctx.Adding? then [ctx.after] else []
  }

  function UpdatedBy(ctx: QueryContext): seq<UpdatePayload> {
    match ctx
    case Updating(before, after) => [UpdatePayload(Some(before), Some(after), None)]
    case Aggregation(prior, after, keys) => [UpdatePayload(prior, Some(after), Some(keys))]
    case _ => []
  }

  function DeletedBy(ctx: QueryContext): seq<Row> {
    if ctx.Removing? then [ctx.before] else []
  }

  datatype Lists = Lists(added: seq<Row>, updated: seq<UpdatePayload>, deleted: seq<Row>) {
    function Plus(ctx: QueryContext): Lists {
      Lists(added + AddedBy(ctx), updated + UpdatedBy(ctx), deleted + DeletedBy(ctx))
    }
  }

  function Split(contexts: seq<QueryContext>): Lists {
    if contexts == [] then Lists([], [], [])
    else Split(contexts[..|contexts| - 1]).Plus(contexts[|contexts| - 1])
  }

  lemma SplitStep(contexts: seq<QueryContext>, i: nat)
    requires i < |contexts|
    ensures Split(contexts[..i + 1]) == Split(contexts[..i]).Plus(contexts[i])
  {
    assert contexts[..i + 1][..i] == contexts[..i];
  }

  /** An entry of the updated list and the context that it stands for. */
  predicate Stands(u: UpdatePayload, ctx: QueryContext) {
    || (u.groupingKeys.None? && u.before.Some? && u.after.Some? && ctx == Updating(u.before.value, u.after.value))
    || (u.groupingKeys.Some? && u.after.Some? && ctx == Aggregation(u.before, u.after.value, u.groupingKeys.value))
  }

  /** How many contexts yield an entry of each of the three lists. */
  function Counts(contexts: seq<QueryContext>): (nat, nat, nat) {
    if contexts == [] then (0, 0, 0)
    else
      var (a, u, d) := Counts(contexts[..|contexts| - 1]);
      match contexts[|contexts| - 1]
      case Adding(_) => (a + 1, u, d)
      case Updating(_, _) => (a, u + 1, d)
      case Removing(_) => (a, u, d + 1)
      case Aggregation(_, _, _) => (a, u + 1, d)
      case Noop => (a, u, d)
  }

  /** Each context has its entry, behind those of the contexts before it, and no list has any other. */
  lemma {:induction false} SplitExact(contexts: seq<QueryContext>)
    ensures var l := Split(contexts);
            && (|l.added|, |l.updated|, |l.deleted|) == Counts(contexts)
            && (forall i :: 0 <= i < |contexts| ==> Placed(l, contexts, i))
            && forall u <- l.updated :: exists ctx <- contexts :: Stands(u, ctx)
    decreases |contexts|
  {
    if contexts != [] {
      var n := |contexts| - 1;
      SplitExact(contexts[..n]);
      forall i | 0 <= i < |contexts| ensures Placed(Split(contexts), contexts, i) {
        assert contexts[..n][..Min(i, n)] == contexts[..Min(i, n)];
        if i < n {
          assert Placed(Split(contexts[..n]), contexts[..n], i);
        }
      }
      forall u | u in Split(contexts).updated ensures exists ctx <- contexts :: Stands(u, ctx) {
        if u in Split(contexts[..n]).updated {
          var ctx :| ctx in contexts[..n] && Stands(u, ctx);
          assert ctx in contexts;
        } else {
          assert Stands(u, contexts[n]);
        }
      }
    }
  }

  /** The entry of the i-th context, with the rows and the grouping keys that it reports. */
  predicate Placed(l: Lists, contexts: seq<QueryContext>, i: nat)
    requires i < |contexts|
  {
    var (a, u, d) := Counts(contexts[..i]);
    match contexts[i]
    case Adding(after) => a < |l.added| && l.added[a] == after
    case Updating(before, after) => u < |l.updated| && l.updated[u] == UpdatePayload(Some(before), Some(after), None)
    case Removing(before) => d < |l.deleted| && l.deleted[d] == before
    case Aggregation(prior, after, keys) =>
      u < |l.updated| && l.updated[u] == UpdatePayload(prior, Some(after), Some(keys))
    case Noop => true
  }

  /** The loop over the contexts, pushing into three vectors. */
  method FromQueryResults(contexts: seq<QueryContext>, sequence: nat, sourceTime: int) returns (change: Change)
    ensures var l := Split(contexts);
            change == Change(sequence, sourceTime, l.added, l.updated, l.deleted)
    ensures (|change.added|, |change.updated|, |change.deleted|) == Counts(contexts)
    ensures forall i :: 0 <= i < |contexts| ==>
              Placed(Lists(change.added, change.updated, change.deleted), contexts, i)
    ensures forall u <- change.updated :: exists ctx <- contexts :: Stands(u, ctx)
  {
    var added, updated, deleted := [], [], [];
    assert Split(contexts[..0]) == Lists([], [], []);
    hide Split;
    for i := 0 to |contexts|
      invariant Split(contexts[..i]) == Lists(added, updated, deleted)
    {
      SplitStep(contexts, i);
      assert added + [] == added && updated + [] == updated && deleted + [] == deleted;
      match contexts[i]
      case Adding(after) => added := added + [after];
      case Updating(before, after) => updated := updated + [UpdatePayload(Some(before), Some(after), None)];
      case Removing(before) => deleted := deleted + [before];
      case Aggregation(prior, after, keys) => updated := updated + [UpdatePayload(prior, Some(after), Some(keys))];
      case Noop =>
    }
    assert contexts[..|contexts|] == contexts;
    SplitExact(contexts);
    change := Change(sequence, sourceTime, added, updated, deleted);
  }

  // ---- Calls, in context order and in list order ----

  /** The tool identifies a row by all its values, whatever the grouping keys say. */
  function ByValues(u: UpdatePayload): UpdatePayload { u.(groupingKeys := None) }

  function UpdateCall(u: UpdatePayload, grouped: bool): seq<RowOp> {
    UpdateOp(if grouped then u else ByValues(u))
  }

  /** What a context means for the rows: end the one before, write the one after. */
  function ContextOps(ctx: QueryContext, grouped: bool): seq<RowOp> {
    match ctx
    case Adding(after) => [Put(HashValues(after), after)]
    case Updating(before, after) => [Close(HashValues(before)), Put(HashValues(after), after)]
    case Removing(before) => [Close(HashValues(before))]
    case Aggregation(prior, after, keys) =>
      (if prior.None? then [] else [Close(if grouped then HashGroupingValues(prior.value, keys) else HashValues(prior.value))])
      + [Put(if grouped then HashGroupingValues(after, keys) else HashValues(after), after)]
    case Noop => []
  }

  function InOrder(contexts: seq<QueryContext>, grouped: bool): seq<RowOp> {
    if contexts == [] then []
    else InOrder(contexts[..|contexts| - 1], grouped) + ContextOps(contexts[|contexts| - 1], grouped)
  }

  function UpdateCalls(updates: seq<UpdatePayload>, grouped: bool): seq<RowOp> {
    if updates == [] then []
    else UpdateCalls(updates[..|updates| - 1], grouped) + UpdateCall(updates[|updates| - 1], grouped)
  }

  function StoreOrder(l: Lists, grouped: bool): seq<RowOp> {
    DeleteOps(l.deleted) + UpdateCalls(l.updated, grouped) + AddOps(l.added)
  }

  function ToolOrder(l: Lists, grouped: bool): seq<RowOp> {
    AddOps(l.added) + UpdateCalls(l.updated, grouped) + DeleteOps(l.deleted)
  }

  predicate Touches(ctx: QueryContext, grouped: bool, k: RowKey) {
    FirstOp(ContextOps(ctx, grouped), k).Some?
  }

  /** No row key is touched by two contexts. */
  ghost predicate Separate(contexts: seq<QueryContext>, grouped: bool) {
    forall i, j, k: RowKey :: 0 <= i < j < |contexts| ==>
      !(Touches(contexts[i], grouped, k) && Touches(contexts[j], grouped, k))
  }

  lemma {:induction false} UntouchedInOrder(contexts: seq<QueryContext>, grouped: bool, k: RowKey)
    requires forall ctx <- contexts :: !Touches(ctx, grouped, k)
    ensures FirstOp(InOrder(contexts, grouped), k).None?
    decreases |contexts|
  {
    if contexts != [] {
      var n := |contexts| - 1;
      assert contexts[n] in contexts;
      UntouchedInOrder(contexts[..n], grouped, k);
      FirstOpConcat(InOrder(contexts[..n], grouped), ContextOps(contexts[n], grouped), k);
    }
  }

  /** The entry in the updated list asks for the calls that the context means. */
  lemma UpdateMeansContext(ctx: QueryContext, grouped: bool)
    requires ctx.Updating? || ctx.Aggregation?
    ensures |UpdatedBy(ctx)| == 1 && UpdateCall(UpdatedBy(ctx)[0], grouped) == ContextOps(ctx, grouped)
  {
  }

  /** Adding one context to the lists appends its calls to one of the three groups of calls. */
  lemma ListsGrow(l: Lists, ctx: QueryContext, grouped: bool)
    ensures var l' := l.Plus(ctx);
            && AddOps(l'.added) == AddOps(l.added) + (if ctx.Adding? then ContextOps(ctx, grouped) else [])
            && DeleteOps(l'.deleted) == DeleteOps(l.deleted) + (if ctx.Removing? then ContextOps(ctx, grouped) else [])
            && UpdateCalls(l'.updated, grouped) ==
               UpdateCalls(l.updated, grouped) + (if ctx.Updating? || ctx.Aggregation? then ContextOps(ctx, grouped) else [])
  {
    hide UpdateCall;
    if ctx.Updating? || ctx.Aggregation? {
      UpdateMeansContext(ctx, grouped);
      assert (l.updated + UpdatedBy(ctx))[..|l.updated|] == l.updated;
    } else {
      assert l.updated + [] == l.updated;
    }
  }

  /** Three groups in either order; x is appended to the group that `which` names. */
  lemma FirstOfThree(a: seq<RowOp>, b: seq<RowOp>, c: seq<RowOp>, x: seq<RowOp>, which: nat, k: RowKey)
    ensures var a', b', c' := if which == 0 then a + x else a, if which == 1 then b + x else b, if which == 2 then c + x else c;
            && (FirstOp(x, k).None? ==> FirstOp(a' + b' + c', k) == FirstOp(a + b + c, k))
            && (FirstOp(x, k).None? ==> LastOp(a' + b' + c', k) == LastOp(a + b + c, k))
            && (which < 3 && FirstOp(a + b + c, k).None? ==> FirstOp(a' + b' + c', k) == FirstOp(x, k))
            && (which < 3 && FirstOp(a + b + c, k).None? ==> LastOp(a' + b' + c', k) == LastOp(x, k))
  {
    var a', b', c' := if which == 0 then a + x else a, if which == 1 then b + x else b, if which == 2 then c + x else c;
    FirstAndLast(a, b, c, k);
    FirstAndLast(a', b', c', k);
    TouchedBoth(a, k);
    TouchedBoth(b, k);
    TouchedBoth(c, k);
    TouchedBoth(x, k);
    var g := if which == 0 then a else if which == 1 then b else c;
    FirstOpConcat(g, x, k);
    LastOpConcat(g, x, k);
  }

  lemma FirstAndLast(a: seq<RowOp>, b: seq<RowOp>, c: seq<RowOp>, k: RowKey)
    ensures FirstOp(a + b + c, k) ==
            if FirstOp(a, k).Some? then FirstOp(a, k) else if FirstOp(b, k).Some? then FirstOp(b, k) else FirstOp(c, k)
    ensures LastOp(a + b + c, k) ==
            if LastOp(c, k).Some? then LastOp(c, k) else if LastOp(b, k).Some? then LastOp(b, k) else LastOp(a, k)
  {
    FirstOpConcat(a + b, c, k);
    FirstOpConcat(a, b, k);
    LastOpConcat(a + b, c, k);
    LastOpConcat(a, b, k);
  }

  /** For one key, the lists replayed in either order begin and end with the same call as `plain`. */
  predicate SameEnds(l: Lists, plain: seq<RowOp>, grouped: bool, k: RowKey) {
    && FirstOp(StoreOrder(l, grouped), k) == FirstOp(plain, k) == FirstOp(ToolOrder(l, grouped), k)
    && LastOp(StoreOrder(l, grouped), k) == LastOp(plain, k) == LastOp(ToolOrder(l, grouped), k)
  }

  lemma PlusKeepsEnds(l: Lists, ctx: QueryContext, plain: seq<RowOp>, grouped: bool, k: RowKey)
    requires SameEnds(l, plain, grouped, k)
    requires !Touches(ctx, grouped, k) || FirstOp(plain, k).None?
    ensures SameEnds(l.Plus(ctx), plain + ContextOps(ctx, grouped), grouped, k)
  {
    hide ContextOps, FirstOp, LastOp, AddOps, DeleteOps, UpdateCalls;
    var l', x := l.Plus(ctx), ContextOps(ctx, grouped);
    ListsGrow(l, ctx, grouped);
    TouchedBoth(plain, k);
    TouchedBoth(x, k);
    FirstOpConcat(plain, x, k);
    LastOpConcat(plain, x, k);
    var a, u, d := AddOps(l.added), UpdateCalls(l.updated, grouped), DeleteOps(l.deleted);
    assert a + [] == a && u + [] == u && d + [] == d;
    assert ctx.Noop? ==> x == [] by {
      NoopCalls(grouped);
    }
    var updates := ctx.Updating? || ctx.Aggregation?;
    FirstOfThree(d, u, a, x, if ctx.Removing? then 0 else if updates then 1 else if ctx.Adding? then 2 else 3, k);
    FirstOfThree(a, u, d, x, if ctx.Adding? then 0 else if updates then 1 else if ctx.Removing? then 2 else 3, k);
  }

  lemma NoopCalls(grouped: bool)
    ensures ContextOps(Noop, grouped) == []
  {
  }

  /** For each key, the lists have the same first and the same last call as the contexts. */
  lemma {:induction false} SplitKeepsEnds(contexts: seq<QueryContext>, grouped: bool, k: RowKey)
    requires Separate(contexts, grouped)
    ensures SameEnds(Split(contexts), InOrder(contexts, grouped), grouped, k)
    decreases |contexts|
  {
    hide SameEnds, Touches, ContextOps, FirstOp;
    if contexts == [] {
      NoCalls(grouped, k);
    } else {
      var n := |contexts| - 1;
      SplitKeepsEnds(contexts[..n], grouped, k);
      if Touches(contexts[n], grouped, k) {
        assert forall i :: 0 <= i < n ==> !Touches(contexts[i], grouped, k);
        UntouchedInOrder(contexts[..n], grouped, k);
      }
      PlusKeepsEnds(Split(contexts[..n]), contexts[n], InOrder(contexts[..n], grouped), grouped, k);
    }
  }

  lemma NoCalls(grouped: bool, k: RowKey)
    ensures SameEnds(Lists([], [], []), [], grouped, k)
  {
    assert StoreOrder(Lists([], [], []), grouped) == [] == ToolOrder(Lists([], [], []), grouped);
  }

  // ---- The store ----

  lemma {:induction false} StoreOrderIsEventOps(l: Lists, sequence: nat, ts: int)
    ensures EventOps(Change(sequence, ts, l.added, l.updated, l.deleted)) == StoreOrder(l, true)
  {
    SameUpdateCalls(l.updated);
  }

  lemma {:induction false} SameUpdateCalls(updates: seq<UpdatePayload>)
    ensures UpdateOps(updates) == UpdateCalls(updates, true)
    decreases |updates|
  {
    if updates != [] {
      SameUpdateCalls(updates[..|updates| - 1]);
    }
  }

  /** Recording the published event equals applying the contexts one after the other. */
  lemma StoreReplaysContexts(policy: RetentionPolicy, docs: seq<Doc>, contexts: seq<QueryContext>,
                             sequence: nat, ts: int, t: int)
    requires OneOpen(docs) && ts <= MAX_TIMESTAMP && Separate(contexts, true)
    ensures var l := Split(contexts);
            var ops := EventOps(Change(sequence, ts, l.added, l.updated, l.deleted));
            && SameView(ApplyOps(policy, docs, ops, ts), ApplyOps(policy, docs, InOrder(contexts, true), ts))
            && multiset(Find(ApplyOps(policy, docs, ops, ts), t))
               == multiset(Find(ApplyOps(policy, docs, InOrder(contexts, true), ts), t))
  {
    var l, plain := Split(contexts), InOrder(contexts, true);
    var ops := EventOps(Change(sequence, ts, l.added, l.updated, l.deleted));
    StoreOrderIsEventOps(l, sequence, ts);
    forall k: RowKey ensures FirstOp(ops, k) == FirstOp(plain, k) && LastOp(ops, k) == LastOp(plain, k) {
      SplitKeepsEnds(contexts, true, k);
    }
    hide EventOps, StoreOrder, InOrder, Split;
    SameBatches(policy, docs, docs, ops, plain, ts);
    OneOpenKept(policy, docs, ops, ts);
    OneOpenKept(policy, docs, plain, ts);
    SameViewReads(ApplyOps(policy, docs, ops, ts), ApplyOps(policy, docs, plain, ts), t);
  }

  // ---- Any replay that keeps only the live rows ----

  /** Both orders of the lists leave the rows alive that the contexts leave alive. */
  lemma LiveRowsKept(m: map<RowKey, Row>, contexts: seq<QueryContext>, grouped: bool)
    requires Separate(contexts, grouped)
    ensures ApplyAllLive(m, ToolOrder(Split(contexts), grouped)) == ApplyAllLive(m, InOrder(contexts, grouped))
    ensures ApplyAllLive(m, StoreOrder(Split(contexts), grouped)) == ApplyAllLive(m, InOrder(contexts, grouped))
  {
    var l, plain := Split(contexts), InOrder(contexts, grouped);
    forall k: RowKey
      ensures LastOp(ToolOrder(l, grouped), k) == LastOp(plain, k) == LastOp(StoreOrder(l, grouped), k)
    {
      SplitKeepsEnds(contexts, grouped, k);
    }
    hide ToolOrder, StoreOrder, InOrder, Split;
    SameLastSameLive(m, ToolOrder(l, grouped), plain);
    SameLastSameLive(m, StoreOrder(l, grouped), plain);
  }

  lemma SameLastSameLive(m: map<RowKey, Row>, a: seq<RowOp>, b: seq<RowOp>)
    requires forall k: RowKey :: LastOp(a, k) == LastOp(b, k)
    ensures ApplyAllLive(m, a) == ApplyAllLive(m, b)
  {
    hide ApplyAllLive;
    var ra, rb := ApplyAllLive(m, a), ApplyAllLive(m, b);
    forall k: RowKey ensures (k in ra <==> k in rb) && (k in ra ==> ra[k] == rb[k]) {
      LiveByLastOp(m, a, k);
      LiveByLastOp(m, b, k);
      assert LastOp(a, k) == LastOp(b, k);
    }
  }

  // ---- Exactly when an order is right ----

  /** Whatever rows were alive, both batches leave the same ones alive. */
  ghost predicate SameLive(a: seq<RowOp>, b: seq<RowOp>) {
    forall m: map<RowKey, Row> :: ApplyAllLive(m, a) == ApplyAllLive(m, b)
  }

  ghost predicate SameLast(a: seq<RowOp>, b: seq<RowOp>) {
    forall k: RowKey :: LastOp(a, k) == LastOp(b, k)
  }

  /** One live row of k, or none, tells last calls on k apart. */
  lemma LastCallLives(a: seq<RowOp>, b: seq<RowOp>, k: RowKey)
    requires LastOp(a, k) != LastOp(b, k)
    ensures !SameLive(a, b)
  {
    hide LastOp;
    var none: map<RowKey, Row> := map[];
    var one: map<RowKey, Row> := map[k := []];
    LiveByLastOp(none, a, k);
    LiveByLastOp(none, b, k);
    LiveByLastOp(one, a, k);
    LiveByLastOp(one, b, k);
    hide ApplyAllLive;
    assert ApplyAllLive(none, a) != ApplyAllLive(none, b) || ApplyAllLive(one, a) != ApplyAllLive(one, b);
  }

  lemma LiveExact(a: seq<RowOp>, b: seq<RowOp>)
    ensures SameLive(a, b) <==> SameLast(a, b)
  {
    if SameLast(a, b) {
      forall m: map<RowKey, Row> ensures ApplyAllLive(m, a) == ApplyAllLive(m, b) {
        SameLastSameLive(m, a, b);
      }
    } else {
      hide SameLive, LastOp;
      var k: RowKey :| LastOp(a, k) != LastOp(b, k);
      LastCallLives(a, b, k);
    }
  }

  /** Whatever the collection was, all reads are the same after either batch. */
  ghost predicate SameEffect(policy: RetentionPolicy, a: seq<RowOp>, b: seq<RowOp>, ts: int) {
    forall docs: seq<Doc> | OneOpen(docs) && Dated(docs) ::
      SameReads(ApplyOps(policy, docs, a, ts), ApplyOps(policy, docs, b, ts))
  }

  /** Same last call on every key, and, where history is kept, first calls of the same kind. */
  ghost predicate SameCalls(policy: RetentionPolicy, a: seq<RowOp>, b: seq<RowOp>) {
    SameLast(a, b) && (policy.Latest? || Absorbed(a, b))
  }

  lemma BatchViews(policy: RetentionPolicy, docs: seq<Doc>, a: seq<RowOp>, b: seq<RowOp>, ts: int)
    requires OneOpen(docs) && Dated(docs) && ts <= MAX_TIMESTAMP
    ensures SameReads(ApplyOps(policy, docs, a, ts), ApplyOps(policy, docs, b, ts))
            <==> SameView(ApplyOps(policy, docs, a, ts), ApplyOps(policy, docs, b, ts))
  {
    hide SameReads, SameView, OneOpen, Dated, ApplyOps;
    OneOpenKept(policy, docs, a, ts);
    OneOpenKept(policy, docs, b, ts);
    DatedKept(policy, docs, a, ts);
    DatedKept(policy, docs, b, ts);
    SameViewExact(ApplyOps(policy, docs, a, ts), ApplyOps(policy, docs, b, ts));
  }

  /** A key whose last calls differ tells the batches apart, on an empty collection or on one open row. */
  lemma LastCallTells(policy: RetentionPolicy, a: seq<RowOp>, b: seq<RowOp>, ts: int, k: RowKey)
    requires LastOp(a, k) != LastOp(b, k) && ts <= MAX_TIMESTAMP
    ensures !SameEffect(policy, a, b, ts)
  {
    var none: seq<Doc>, one, d := [], [Doc(k, [], ts, MAX_TIMESTAMP)], Doc(k, [], 0, 0);
    assert FindOpen(one, k) == Some(0);
    hide LastOp, FirstOp, ApplyOps;
    BatchEffect(policy, none, a, ts, d);
    BatchEffect(policy, none, b, ts, d);
    BatchEffect(policy, one, a, ts, d);
    BatchEffect(policy, one, b, ts, d);
    BatchViews(policy, none, a, b, ts);
    BatchViews(policy, one, a, b, ts);
    hide SameReads;
    assert OpenDoc(none, k) == None && OpenDoc(one, k) == Some(one[0]);
    assert || OpenAfter(none, a, ts, k) != OpenAfter(none, b, ts, k)
           || OpenAfter(one, a, ts, k) != OpenAfter(one, b, ts, k);
  }

  /** First calls of different kinds on a key tell them apart on a row opened just before. */
  lemma FirstCallTells(policy: RetentionPolicy, a: seq<RowOp>, b: seq<RowOp>, ts: int, k: RowKey)
    requires FirstOp(a, k).Some? && FirstOp(b, k).Some? && !(FirstOp(a, k).value.Close? <==> FirstOp(b, k).value.Close?)
    requires !policy.Latest? && ts <= MAX_TIMESTAMP
    ensures !SameEffect(policy, a, b, ts)
  {
    var docs, d := [Doc(k, [], ts - 1, MAX_TIMESTAMP)], Doc(k, [], ts - 1, ts - 1);
    assert FindOpen(docs, k) == Some(0);
    hide LastOp, FirstOp, ApplyOps;
    BatchEffect(policy, docs, a, ts, d);
    BatchEffect(policy, docs, b, ts, d);
    BatchViews(policy, docs, a, b, ts);
    hide SameReads;
    assert OpenDoc(docs, k) == Some(docs[0]);
    assert ClosedAfter(policy, docs, a, ts, d) != ClosedAfter(policy, docs, b, ts, d);
  }

  /** The store cannot tell two batches apart, on any collection, if and only if their calls match. */
  lemma StoreExact(policy: RetentionPolicy, a: seq<RowOp>, b: seq<RowOp>, ts: int)
    requires ts <= MAX_TIMESTAMP
    ensures SameEffect(policy, a, b, ts) <==> SameCalls(policy, a, b)
  {
    hide LastOp, FirstOp, ApplyOps, SameReads, SameView, Dated;
    if SameCalls(policy, a, b) {
      forall docs: seq<Doc> | OneOpen(docs) && Dated(docs)
        ensures SameReads(ApplyOps(policy, docs, a, ts), ApplyOps(policy, docs, b, ts))
      {
        SelfView(docs);
        SameBatches(policy, docs, docs, a, b, ts);
        BatchViews(policy, docs, a, b, ts);
      }
    } else if exists k: RowKey :: LastOp(a, k) != LastOp(b, k) {
      var k: RowKey :| LastOp(a, k) != LastOp(b, k);
      LastCallTells(policy, a, b, ts, k);
    } else {
      assert !Absorbed(a, b);
      var k: RowKey :| FirstOp(a, k).Some?
        && !(FirstOp(b, k).Some? && (FirstOp(a, k).value.Close? <==> FirstOp(b, k).value.Close?));
      TouchedBoth(a, k);
      TouchedBoth(b, k);
      FirstCallTells(policy, a, b, ts, k);
    }
  }

  lemma SelfView(docs: seq<Doc>)
    ensures SameView(docs, docs)
  {
  }

  /**
   Recording the published event equals applying the contexts in order, on every collection, if and
   only if on each key the deletes, updates, adds end as the contexts do and, where history is kept,
   begin with the same kind of call.
   */
  lemma StoreOrderExact(policy: RetentionPolicy, contexts: seq<QueryContext>, sequence: nat, ts: int)
    requires ts <= MAX_TIMESTAMP
    ensures var l := Split(contexts);
            SameEffect(policy, EventOps(Change(sequence, ts, l.added, l.updated, l.deleted)), InOrder(contexts, true), ts)
            <==> SameCalls(policy, StoreOrder(l, true), InOrder(contexts, true))
  {
    var l := Split(contexts);
    StoreOrderIsEventOps(l, sequence, ts);
    StoreExact(policy, StoreOrder(l, true), InOrder(contexts, true), ts);
  }

  /** The tool's order leaves alive what the contexts leave alive if and only if it ends each key as they do. */
  lemma ToolOrderExact(contexts: seq<QueryContext>)
    ensures var order, plain := ToolOrder(Split(contexts), false), InOrder(contexts, false);
            SameLive(order, plain) <==> SameLast(order, plain)
  {
    LiveExact(ToolOrder(Split(contexts), false), InOrder(contexts, false));
  }

  lemma OverlapCalls(row: Row)
    ensures var add, remove := [Adding(row), Removing(row)], [Removing(row), Adding(row)];
            && Split(add) == Lists([row], [], [row]) == Split(remove)
            && InOrder(add, true) == [PutOp(row), CloseOp(row)]
            && InOrder(remove, true) == [CloseOp(row), PutOp(row)]
            && StoreOrder(Split(add), true) == [CloseOp(row), PutOp(row)]
            && ToolOrder(Split(remove), true) == [PutOp(row), CloseOp(row)] == ToolOrder(Split(add), true)
            && StoreOrder(Split(remove), true) == [CloseOp(row), PutOp(row)]
  {
    var add, remove := [Adding(row), Removing(row)], [Removing(row), Adding(row)];
    assert add[..1] == [Adding(row)] && remove[..1] == [Removing(row)];
    assert [Adding(row)][..0] == [] && [Removing(row)][..0] == [];
    assert Split([Adding(row)]) == Lists([row], [], []) && Split([Removing(row)]) == Lists([], [], [row]);
    assert InOrder([Adding(row)], true) == [PutOp(row)] && InOrder([Removing(row)], true) == [CloseOp(row)];
  }

  lemma TwoCalls(m: map<RowKey, Row>, a: RowOp, b: RowOp)
    ensures ApplyAllLive(m, [a, b]) == ApplyLive(ApplyLive(m, a), b)
  {
    assert [a, b][..1] == [a] && [a][..0] == [];
    assert ApplyAllLive(m, [a]) == ApplyLive(ApplyAllLive(m, [a][..0]), a);
  }

  /**
   With overlapping contexts each order can be right or wrong: a row added and then removed by one
   change is alive after the store's order, and a row removed and then added back is gone after the
   tool's order, while each order gets the other case right.
   */
  lemma OverlapBreaks(row: Row)
    ensures var add, remove := [Adding(row), Removing(row)], [Removing(row), Adding(row)];
            && row !in ApplyAllLive(map[], InOrder(add, true)) && row in ApplyAllLive(map[], StoreOrder(Split(add), true))
            && row in ApplyAllLive(map[], InOrder(remove, true)) && row !in ApplyAllLive(map[], ToolOrder(Split(remove), true))
            && !Separate(remove, true) && StoreOrder(Split(remove), true) == InOrder(remove, true)
            && !Separate(add, true) && ToolOrder(Split(add), true) == InOrder(add, true)
  {
    OverlapCalls(row);
    var add, remove := [Adding(row), Removing(row)], [Removing(row), Adding(row)];
    assert Touches(add[0], true, row) && Touches(add[1], true, row);
    assert Touches(remove[0], true, row) && Touches(remove[1], true, row);
    hide Split, InOrder, StoreOrder, ToolOrder, ApplyAllLive;
    TwoCalls(map[], PutOp(row), CloseOp(row));
    TwoCalls(map[], CloseOp(row), PutOp(row));
  }
}
