/**
 Query results as the query host publishes them and the view service records them:
 rows, change and control events, and the row operations that one change event stands for.
 */
module Results {
  import opened Wrappers

  datatype Json =
    | Null
    | Bool(b: bool)
    | Number(literal: string)
    | Text(s: string)
    | Array(items: seq<Json>)
    | Object(fields: seq<(string, Json)>)

  /** A result row: its fields in the iteration order of the map that holds them. */
  type Row = seq<(string, Json)>

  /** What the row hashers are fed. Two rows have the same hash exactly when this agrees. */
  type RowKey = seq<(string, Json)>

  function HashValues(row: Row): RowKey { row }

  function Field(row: Row, name: string): Option<Json> {
    if row == [] then None
    else if row[0].0 == name then Some(row[0].1)
    else Field(row[1..], name)
  }

  /** Only the grouping fields that the row has, in the order the keys are listed. */
  function HashGroupingValues(row: Row, groupingKeys: seq<string>): RowKey {
    if groupingKeys == [] then []
    else
      var rest := HashGroupingValues(row, groupingKeys[1..]);
      match Field(row, groupingKeys[0])
      case Some(v) => [(groupingKeys[0], v)] + rest
      case None => rest
  }

  datatype UpdatePayload = UpdatePayload(before: Option<Row>, after: Option<Row>, groupingKeys: Option<seq<string>>) {
    function KeyOf(row: Row): RowKey {
      match groupingKeys
      case Some(keys) => HashGroupingValues(row, keys)
      case None => HashValues(row)
    }
  }

  datatype Change = Change(sequence: nat, sourceTime: int,
                           added: seq<Row>, updated: seq<UpdatePayload>, deleted: seq<Row>)

  datatype ControlSignal = BootstrapStarted | BootstrapCompleted | Running | Stopped | QueryDeleted

  function Display(signal: ControlSignal): string {
    match signal
    case BootstrapStarted => "bootstrapping"
    case BootstrapCompleted => "bootstrap complete"
    case Running => "running"
    case Stopped => "stopped"
    case QueryDeleted => "deleted"
  }

  datatype ResultEvent =
    | ChangeEvent(change: Change)
    | ControlEvent(sequence: nat, sourceTime: int, signal: ControlSignal)

  /** What the continuous query reports for one source change. */
  datatype QueryContext =
    | Adding(after: Row)
    | Updating(before: Row, after: Row)
    | Removing(before: Row)
    | Aggregation(prior: Option<Row>, after: Row, groupingKeys: seq<string>)
    | Noop

  /** One call on the view collection: end the open row of a key, or write an open row for it. */
  datatype RowOp = Close(key: RowKey) | Put(key: RowKey, row: Row)

  function CloseOp(row: Row): RowOp { Close(HashValues(row)) }

  function PutOp(row: Row): RowOp { Put(HashValues(row), row) }

  function UpdateOp(u: UpdatePayload): seq<RowOp> {
    (match u.before case Some(b) => [Close(u.KeyOf(b))] case None => [])
    + (match u.after case Some(a) => [Put(u.KeyOf(a), a)] case None => [])
  }

  function DeleteOps(rows: seq<Row>): seq<RowOp> {
    seq(|rows|, i requires 0 <= i < |rows| => CloseOp(rows[i]))
  }

  function AddOps(rows: seq<Row>): seq<RowOp> {
    seq(|rows|, i requires 0 <= i < |rows| => PutOp(rows[i]))
  }

  function UpdateOps(updates: seq<UpdatePayload>): seq<RowOp> {
    if updates == [] then []
    else UpdateOps(updates[..|updates| - 1]) + UpdateOp(updates[|updates| - 1])
  }

  /** The calls of one change event, in the order the store issues them. */
  function EventOps(change: Change): seq<RowOp> {
    DeleteOps(change.deleted) + UpdateOps(change.updated) + AddOps(change.added)
  }

  /** Taking more updates only appends calls. */
  lemma {:induction false} UpdateOpsPrefix(updates: seq<UpdatePayload>, i: nat)
    requires i <= |updates|
    ensures UpdateOps(updates[..i]) <= UpdateOps(updates)
    decreases |updates| - i
  {
    if i == |updates| {
      assert updates[..i] == updates;
    } else {
      UpdateOpsPrefix(updates, i + 1);
      assert updates[..i + 1][..i] == updates[..i];
    }
  }

  lemma {:induction false} GroupingField(row: Row, groupingKeys: seq<string>, name: string, v: Json)
    ensures (name, v) in HashGroupingValues(row, groupingKeys) <==> name in groupingKeys && Field(row, name) == Some(v)
    decreases |groupingKeys|
  {
    if groupingKeys != [] {
      GroupingField(row, groupingKeys[1..], name, v);
    }
  }

  lemma SameKeySameField(a: Row, b: Row, groupingKeys: seq<string>, name: string)
    requires HashGroupingValues(a, groupingKeys) == HashGroupingValues(b, groupingKeys) && name in groupingKeys
    ensures Field(a, name) == Field(b, name)
  {
    forall v: Json ensures Field(a, name) == Some(v) <==> Field(b, name) == Some(v) {
      GroupingField(a, groupingKeys, name, v);
      GroupingField(b, groupingKeys, name, v);
    }
    var fa, fb := Field(a, name), Field(b, name);
    assert fa.Some? ==> fa == Some(fa.value);
    assert fb.Some? ==> fb == Some(fb.value);
  }

  lemma {:induction false} SameFieldsSameKey(a: Row, b: Row, groupingKeys: seq<string>)
    requires forall name <- groupingKeys :: Field(a, name) == Field(b, name)
    ensures HashGroupingValues(a, groupingKeys) == HashGroupingValues(b, groupingKeys)
    decreases |groupingKeys|
  {
    if groupingKeys != [] {
      SameFieldsSameKey(a, b, groupingKeys[1..]);
    }
  }

  /** Two rows have the same group key exactly when they agree on every grouping field, present or not. */
  lemma GroupKeyExact(a: Row, b: Row, groupingKeys: seq<string>)
    ensures HashGroupingValues(a, groupingKeys) == HashGroupingValues(b, groupingKeys)
            <==> forall name <- groupingKeys :: Field(a, name) == Field(b, name)
  {
    if HashGroupingValues(a, groupingKeys) == HashGroupingValues(b, groupingKeys) {
      forall name | name in groupingKeys ensures Field(a, name) == Field(b, name) {
        SameKeySameField(a, b, groupingKeys, name);
      }
    }
    if forall name <- groupingKeys :: Field(a, name) == Field(b, name) {
      SameFieldsSameKey(a, b, groupingKeys);
    }
  }
}
