/** Rows of the `items` table. A table is the sequence of its rows in storage order. */
module Rows {
  import opened Prelude

  datatype Row = Row(id: nat, name: string, description: Option<string>, createdAt: int, updatedAt: int)

  ghost predicate UniqueIds(rows: seq<Row>) {
    forall i, j | 0 <= i < j < |rows| :: rows[i].id != rows[j].id
  }

  /** The same test, run by the primary-key index. */
  predicate NoDuplicateIds(rows: seq<Row>)
    ensures NoDuplicateIds(rows) <==> UniqueIds(rows)
  {
    forall i | 0 <= i < |rows| :: forall j | i < j < |rows| :: rows[i].id != rows[j].id
  }

  predicate HasId(rows: seq<Row>, id: nat) {
    exists i | 0 <= i < |rows| :: rows[i].id == id
  }

  /** The rows with this id, in storage order. */
  function WithId(rows: seq<Row>, id: nat): seq<Row> {
    if rows == [] then []
    else (if rows[0].id == id then [rows[0]] else []) + WithId(rows[1..], id)
  }

  /** The other rows, in storage order. */
  function WithoutId(rows: seq<Row>, id: nat): seq<Row> {
    if rows == [] then []
    else (if rows[0].id == id then [] else [rows[0]]) + WithoutId(rows[1..], id)
  }

  /** `dict(row) if row else None`: the first fetched row. */
  function First(rows: seq<Row>): Option<Row> {
    if rows == [] then None else Some(rows[0])
  }

  lemma HasIdCons(rows: seq<Row>, id: nat)
    requires rows != []
    ensures HasId(rows, id) <==> rows[0].id == id || HasId(rows[1..], id)
  {
  }

  lemma {:induction false} WithIdAbsent(rows: seq<Row>, id: nat)
    ensures WithId(rows, id) == [] <==> !HasId(rows, id)
    ensures !HasId(rows, id) ==> WithoutId(rows, id) == rows
  {
    if rows != [] {
      WithIdAbsent(rows[1..], id);
      HasIdCons(rows, id);
      assert rows == [rows[0]] + rows[1..];
    }
  }
}
