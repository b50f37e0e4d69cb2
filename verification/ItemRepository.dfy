/** The data-access layer: each method sends one statement through `execute_query`, except the bulk
    insert, which runs a transaction of its own. */
module ItemRepository {
  import opened Prelude
  import opened UpdateSql
  import opened Errors
  import opened Rows
  import opened ItemsTable
  import opened Database
  import opened Resilience

  /** State and outcome of one `execute_query` call. */
  function Ask(cfg: Config, w: World, s: Statement, ms: nat -> Moment): (World, Reply) {
    var run := QueryRun(cfg, w, s, ms);
    (run.state, run.outcome)
  }

  lemma AskOnce(cfg: Config, w: World, s: Statement, ms: nat -> Moment)
    ensures Ask(cfg, w, s, ms) == Guarded(cfg, w, s, ms(1))
  {
    hide QueryRun, Guarded;
    QueryRunsOnce(cfg, w, s, ms);
  }

  /** `fetch_one`. */
  function OneRow(r: Reply): Result<Option<Row>, PyError> {
    if r.Failure? then Failure(r.error)
    else Success(if r.value.Fetched? then First(r.value.rows) else None)
  }

  /** `fetch_all`. */
  function AllRows(r: Reply): Result<seq<Row>, PyError> {
    if r.Failure? then Failure(r.error)
    else Success(if r.value.Fetched? then r.value.rows else [])
  }

  /** `fetch_val`, then `result or 0`. */
  function OneValue(r: Reply): Result<nat, PyError> {
    if r.Failure? then Failure(r.error)
    else Success(if r.value.Scalar? then r.value.value else 0)
  }

  /** `result == "DELETE 1"`. */
  function DeletedOne(r: Reply): Result<bool, PyError> {
    if r.Failure? then Failure(r.error)
    else Success(r.value == Tag("DELETE 1"))
  }

  // ---------- The bulk insert's transaction ----------

  /** One element of `items`: a dictionary from field name to value or None. */
  type ItemData = map<string, Option<string>>

  /** What the transaction meets: a pool or none, an error while acquiring or beginning, an error per
      insert, an error at commit, and the one time stamp of the transaction. */
  datatype Batch = Batch(
    poolReady: bool, begin: Option<PyError>, faults: nat -> Option<PyError>, commit: Option<PyError>, now: int)

  /** `item_data.get("description")`. */
  function DescriptionOf(item: ItemData): Option<string> {
    if "description" in item then item["description"] else None
  }

  /** The inserts from item k on: the table after them and the created rows, or the first error. Each
      is the statement a single `create` would send. */
  function InsertFrom(rows: seq<Row>, items: seq<ItemData>, ids: nat -> nat, b: Batch, k: nat)
    : Result<(seq<Row>, seq<Row>), PyError>
    requires k <= |items|
    decreases |items| - k
  {
    if k == |items| then Success((rows, []))
    else if "name" !in items[k] then Failure(KEY_MISSING)
    else if b.faults(k).Some? then Failure(b.faults(k).value)
    else
      var r := Execute(rows, InsertItem(ids(k), items[k]["name"], DescriptionOf(items[k])), b.now, NoTies());
      if r.Failure? then Failure(r.error)
      else
        var made := if r.value.1.Fetched? then r.value.1.rows else [];
        var rest := InsertFrom(r.value.0, items, ids, b, k + 1);
        if rest.Failure? then rest else Success((rest.value.0, made + rest.value.1))
  }

  function NoTies(): Row -> int {
    (r: Row) => 0
  }

  function BulkInsert(rows: seq<Row>, items: seq<ItemData>, ids: nat -> nat, b: Batch)
    : (seq<Row>, Result<seq<Row>, PyError>)
  {
    if !b.poolReady then (rows, Failure(POOL_MISSING))
    else if b.begin.Some? then (rows, Failure(b.begin.value))
    else
      var r := InsertFrom(rows, items, ids, b, 0);
      if r.Failure? then (rows, Failure(r.error))
      else if b.commit.Some? then (rows, Failure(b.commit.value))
      else (r.value.0, Success(r.value.1))
  }

  /** The row item k becomes. */
  function BatchRow(items: seq<ItemData>, ids: nat -> nat, now: int, k: nat): Row
    requires k < |items|
  {
    var name := if "name" in items[k] && items[k]["name"].Some? then items[k]["name"].value else "";
    Row(ids(k), name, DescriptionOf(items[k]), now, now)
  }

  function BatchRows(items: seq<ItemData>, ids: nat -> nat, now: int, k: nat): (rows: seq<Row>)
    requires k <= |items|
    ensures |rows| == |items| - k
    ensures forall i | 0 <= i < |rows| :: rows[i] == BatchRow(items, ids, now, k + i)
  {
    seq(|items| - k, i requires 0 <= i < |items| - k => BatchRow(items, ids, now, k + i))
  }

  /** Item i can be inserted: it has a name and a description the columns take and an id no stored row and no earlier
      item has, and the connection does not fail. */
  ghost predicate Insertable(rows: seq<Row>, items: seq<ItemData>, ids: nat -> nat, b: Batch, k: nat, i: nat)
    requires k <= i < |items|
  {
    && "name" in items[i] && items[i]["name"].Some? && NameFits(items[i]["name"]) && Storable(DescriptionOf(items[i]))
    && b.faults(i).None?
    && !HasId(rows, ids(i))
    && forall j | k <= j < i :: ids(j) != ids(i)
  }

  lemma HasIdAppend(rows: seq<Row>, row: Row, id: nat)
    ensures HasId(rows + [row], id) <==> HasId(rows, id) || row.id == id
  {
    if HasId(rows, id) {
      var i :| 0 <= i < |rows| && rows[i].id == id;
      assert (rows + [row])[i].id == id;
    }
    assert (rows + [row])[|rows|] == row;
  }

  /** Every item from k on can be inserted. */
  ghost predicate AllInsertable(rows: seq<Row>, items: seq<ItemData>, ids: nat -> nat, b: Batch, k: nat) {
    forall i | k <= i < |items| :: Insertable(rows, items, ids, b, k, i)
  }

  lemma AllInsertableStep(rows: seq<Row>, items: seq<ItemData>, ids: nat -> nat, b: Batch, k: nat)
    requires k < |items| && Insertable(rows, items, ids, b, k, k)
    ensures AllInsertable(rows, items, ids, b, k)
        <==> AllInsertable(rows + [BatchRow(items, ids, b.now, k)], items, ids, b, k + 1)
  {
    var more, next := rows + [BatchRow(items, ids, b.now, k)], k + 1;
    hide Insertable, BatchRow;
    if AllInsertable(rows, items, ids, b, k) {
      forall i | next <= i < |items|
        ensures Insertable(more, items, ids, b, next, i)
      {
        InsertableStep(rows, items, ids, b, k, i);
      }
    }
    if AllInsertable(more, items, ids, b, next) {
      forall i | k <= i < |items|
        ensures Insertable(rows, items, ids, b, k, i)
      {
        if i > k {
          InsertableStep(rows, items, ids, b, k, i);
        }
      }
    }
  }

  lemma InsertableStep(rows: seq<Row>, items: seq<ItemData>, ids: nat -> nat, b: Batch, k: nat, i: nat)
    requires k < i < |items|
    ensures Insertable(rows, items, ids, b, k, i)
        <==> Insertable(rows + [BatchRow(items, ids, b.now, k)], items, ids, b, k + 1, i)
  {
    HasIdAppend(rows, BatchRow(items, ids, b.now, k), ids(i));
    hide HasId;
  }

  lemma {:induction false} InsertFromExactly(rows: seq<Row>, items: seq<ItemData>, ids: nat -> nat, b: Batch, k: nat)
    requires k <= |items|
    ensures InsertFrom(rows, items, ids, b, k).Success? <==> AllInsertable(rows, items, ids, b, k)
    ensures InsertFrom(rows, items, ids, b, k).Success? ==>
            InsertFrom(rows, items, ids, b, k).value
            == (rows + BatchRows(items, ids, b.now, k), BatchRows(items, ids, b.now, k))
    decreases |items| - k
  {
    if k == |items| {
      assert rows + BatchRows(items, ids, b.now, k) == rows;
    } else if Insertable(rows, items, ids, b, k, k) {
      hide InsertFrom, Insertable, AllInsertable, BatchRow;
      var row := BatchRow(items, ids, b.now, k);
      InsertFromExactly(rows + [row], items, ids, b, k + 1);
      assert BatchRows(items, ids, b.now, k) == [row] + BatchRows(items, ids, b.now, k + 1);
      assert rows + [row] + BatchRows(items, ids, b.now, k + 1) == rows + BatchRows(items, ids, b.now, k);
      AllInsertableStep(rows, items, ids, b, k);
      InsertOne(rows, items, ids, b, k);
    } else {
      InsertNone(rows, items, ids, b, k);
    }
  }

  lemma InsertOne(rows: seq<Row>, items: seq<ItemData>, ids: nat -> nat, b: Batch, k: nat)
    requires k < |items| && Insertable(rows, items, ids, b, k, k)
    ensures var row := BatchRow(items, ids, b.now, k);
            var rest := InsertFrom(rows + [row], items, ids, b, k + 1);
            InsertFrom(rows, items, ids, b, k)
            == if rest.Failure? then rest else Success((rest.value.0, [row] + rest.value.1))
  {
  }

  lemma InsertNone(rows: seq<Row>, items: seq<ItemData>, ids: nat -> nat, b: Batch, k: nat)
    requires k < |items| && !Insertable(rows, items, ids, b, k, k)
    ensures InsertFrom(rows, items, ids, b, k).Failure?
  {
  }

  /** The batch commits. */
  ghost predicate Commits(rows: seq<Row>, items: seq<ItemData>, ids: nat -> nat, b: Batch) {
    && b.poolReady && b.begin.None? && b.commit.None?
    && AllInsertable(rows, items, ids, b, 0)
  }

  /** All or nothing. The batch commits exactly when the connection holds up and every item can be
      inserted; then the table grows by one row per item, in order, each with its item's name and
      description and one shared time stamp, and these rows are the result. Otherwise the table is
      the one the transaction started from. */
  lemma BulkExactly(rows: seq<Row>, items: seq<ItemData>, ids: nat -> nat, b: Batch)
    ensures var (after, r) := BulkInsert(rows, items, ids, b);
            && (r.Success? <==> Commits(rows, items, ids, b))
            && (r.Success? ==> r.value == BatchRows(items, ids, b.now, 0) && after == rows + r.value)
            && (r.Success? ==> |r.value| == |items| && forall i | 0 <= i < |items| ::
                  && "name" in items[i] && items[i]["name"].Some?
                  && r.value[i] == Row(ids(i), items[i]["name"].value,
                                       if "description" in items[i] then items[i]["description"] else None, b.now, b.now))
            && (r.Failure? ==> after == rows)
  {
    hide InsertFrom, Insertable;
    InsertFromExactly(rows, items, ids, b, 0);
    if AllInsertable(rows, items, ids, b, 0) {
      forall i | 0 <= i < |items|
        ensures "name" in items[i] && items[i]["name"].Some?
      {
        InsertableNamed(rows, items, ids, b, i);
      }
    }
  }

  lemma InsertableNamed(rows: seq<Row>, items: seq<ItemData>, ids: nat -> nat, b: Batch, i: nat)
    requires i < |items| && Insertable(rows, items, ids, b, 0, i)
    ensures "name" in items[i] && items[i]["name"].Some?
  {
  }

  /** What item i fails with when the items before it went in. */
  function ItemError(items: seq<ItemData>, b: Batch, i: nat): PyError
    requires i < |items|
  {
    if "name" !in items[i] then KEY_MISSING
    else if b.faults(i).Some? then b.faults(i).value
    else if !Storable(items[i]["name"]) || !Storable(DescriptionOf(items[i])) then BAD_TEXT
    else if items[i]["name"].None? then NULL_IN_COLUMN
    else if |items[i]["name"].value| > NAME_LIMIT then TOO_LONG
    else DUPLICATE_KEY
  }

  lemma {:induction false} InsertFromRaises(rows: seq<Row>, items: seq<ItemData>, ids: nat -> nat, b: Batch, k: nat,
                                            i: nat)
    requires k <= i < |items| && !Insertable(rows, items, ids, b, k, i)
    requires forall j | k <= j < i :: Insertable(rows, items, ids, b, k, j)
    ensures InsertFrom(rows, items, ids, b, k) == Failure(ItemError(items, b, i))
    decreases i - k
  {
    if k < i {
      assert Insertable(rows, items, ids, b, k, k);
      var more := rows + [BatchRow(items, ids, b.now, k)];
      InsertOne(rows, items, ids, b, k);
      hide InsertFrom, Insertable, BatchRow, ItemError;
      InsertableStep(rows, items, ids, b, k, i);
      var next := k + 1;
      forall j | next <= j < i
        ensures Insertable(more, items, ids, b, next, j)
      {
        InsertableStep(rows, items, ids, b, k, j);
      }
      InsertFromRaises(more, items, ids, b, next, i);
    }
  }

  /** What a batch that does not commit raises, unmapped: the error for no pool, the one at its begin,
      that of the first item that cannot be inserted, or the one at its commit. */
  lemma BulkRaises(rows: seq<Row>, items: seq<ItemData>, ids: nat -> nat, b: Batch)
    ensures var r := BulkInsert(rows, items, ids, b).1;
            && (!b.poolReady ==> r == Failure(POOL_MISSING))
            && (b.poolReady && b.begin.Some? ==> r == Failure(b.begin.value))
            && (b.poolReady && b.begin.None? ==>
                  if AllInsertable(rows, items, ids, b, 0) then b.commit.Some? ==> r == Failure(b.commit.value)
                  else exists i | 0 <= i < |items| ::
                         && !Insertable(rows, items, ids, b, 0, i)
                         && (forall j | 0 <= j < i :: Insertable(rows, items, ids, b, 0, j))
                         && r == Failure(ItemError(items, b, i)))
  {
    InsertFromExactly(rows, items, ids, b, 0);
    if !AllInsertable(rows, items, ids, b, 0) {
      var i := FirstRefused(rows, items, ids, b);
      hide InsertFrom, Insertable, ItemError;
      InsertFromRaises(rows, items, ids, b, 0, i);
    }
    hide InsertFrom, Insertable, ItemError;
  }

  lemma FirstRefused(rows: seq<Row>, items: seq<ItemData>, ids: nat -> nat, b: Batch) returns (i: nat)
    requires !AllInsertable(rows, items, ids, b, 0)
    ensures i < |items| && !Insertable(rows, items, ids, b, 0, i)
    ensures forall j | 0 <= j < i :: Insertable(rows, items, ids, b, 0, j)
  {
    hide Insertable;
    i := 0;
    while Insertable(rows, items, ids, b, 0, i)
      invariant i < |items| && forall j | 0 <= j < i :: Insertable(rows, items, ids, b, 0, j)
      decreases |items| - i
    {
      i := i + 1;
    }
  }

  class ItemRepository {
    const db: Resilience

    constructor (db: Resilience)
      ensures this.db == db
    {
      this.db := db;
    }

    /** `row or {}`: None stands for the empty dictionary. */
    method Create(itemId: nat, name: string, description: Option<string>, ms: nat -> Moment)
      returns (r: Result<Option<Row>, PyError>)
      modifies db
      ensures var (w', reply) := Ask(db.cfg, old(db.View()), InsertItem(itemId, Some(name), description), ms);
              db.View() == w' && r == OneRow(reply)
    {
      var reply, _, _ := db.ExecuteQuery(InsertItem(itemId, Some(name), description), ms);
      r := OneRow(reply);
    }

    method GetById(itemId: nat, ms: nat -> Moment) returns (r: Result<Option<Row>, PyError>)
      modifies db
      ensures var (w', reply) := Ask(db.cfg, old(db.View()), SelectById(itemId), ms);
              db.View() == w' && r == OneRow(reply)
    {
      var reply, _, _ := db.ExecuteQuery(SelectById(itemId), ms);
      r := OneRow(reply);
    }

    method ListAll(limit: nat, offset: nat, ms: nat -> Moment) returns (r: Result<seq<Row>, PyError>)
      modifies db
      ensures var (w', reply) := Ask(db.cfg, old(db.View()), SelectPage(limit, offset), ms);
              db.View() == w' && r == AllRows(reply)
    {
      var reply, _, _ := db.ExecuteQuery(SelectPage(limit, offset), ms);
      r := AllRows(reply);
    }

    method Count(ms: nat -> Moment) returns (r: Result<nat, PyError>)
      modifies db
      ensures var (w', reply) := Ask(db.cfg, old(db.View()), CountItems, ms);
              db.View() == w' && r == OneValue(reply)
    {
      var reply, _, _ := db.ExecuteQuery(CountItems, ms);
      r := OneValue(reply);
    }

    /** Builds the text and sends it, or reads the row when nothing is to be set. */
    method Update(itemId: nat, fields: Fields, ms: nat -> Moment) returns (r: Result<Option<Row>, PyError>)
      modifies db
      ensures var (w', reply) := Ask(db.cfg, old(db.View()), UpdateStatementFor(itemId, fields), ms);
              db.View() == w' && r == OneRow(reply)
    {
      var query, args := BuildUpdate(Uuid(itemId), fields);
      if query.None? {
        r := GetById(itemId, ms);
        return;
      }
      var reply, _, _ := db.ExecuteQuery(UpdateItems(query.value, args), ms);
      r := OneRow(reply);
    }

    method Delete(itemId: nat, ms: nat -> Moment) returns (r: Result<bool, PyError>)
      modifies db
      ensures var (w', reply) := Ask(db.cfg, old(db.View()), DeleteById(itemId), ms);
              db.View() == w' && r == DeletedOne(reply)
    {
      var reply, _, _ := db.ExecuteQuery(DeleteById(itemId), ms);
      r := DeletedOne(reply);
    }

    /** One transaction on one connection; breaker and metrics are not involved. */
    method BulkCreate(items: seq<ItemData>, ids: nat -> nat, b: Batch) returns (r: Result<seq<Row>, PyError>)
      modifies db`rows
      ensures (db.rows, r) == BulkInsert(old(db.rows), items, ids, b)
    {
      hide InsertFrom;
      if !b.poolReady {
        return Failure(POOL_MISSING);
      }
      if b.begin.Some? {
        return Failure(b.begin.value);
      }
      var snapshot := db.rows;
      var created: seq<Row> := [];
      ContinuesStart(snapshot, items, ids, b);
      for k := 0 to |items|
        invariant Continues(snapshot, items, ids, b, db.rows, created, k)
      {
        ContinuesStep(snapshot, items, ids, b, db.rows, created, k);
        if "name" !in items[k] {
          db.rows := snapshot;
          return Failure(KEY_MISSING);
        }
        if b.faults(k).Some? {
          db.rows := snapshot;
          return Failure(b.faults(k).value);
        }
        var insert := InsertItem(ids(k), items[k]["name"], DescriptionOf(items[k]));
        var inserted := Execute(db.rows, insert, b.now, NoTies());
        if inserted.Failure? {
          db.rows := snapshot;
          return Failure(inserted.error);
        }
        db.rows := inserted.value.0;
        if inserted.value.1.Fetched? {
          created := created + inserted.value.1.rows;
        }
      }
      ContinuesEnd(snapshot, items, ids, b, db.rows, created);
      if b.commit.Some? {
        db.rows := snapshot;
        return Failure(b.commit.value);
      }
      r := Success(created);
    }
  }

  /** What the loop has left to do completes what it has done. */
  ghost predicate Continues(start: seq<Row>, items: seq<ItemData>, ids: nat -> nat, b: Batch,
                            rows: seq<Row>, created: seq<Row>, k: nat)
    requires k <= |items|
  {
    var rest := InsertFrom(rows, items, ids, b, k);
    InsertFrom(start, items, ids, b, 0)
    == if rest.Failure? then rest else Success((rest.value.0, created + rest.value.1))
  }

  lemma ContinuesStart(start: seq<Row>, items: seq<ItemData>, ids: nat -> nat, b: Batch)
    ensures Continues(start, items, ids, b, start, [], 0)
  {
    hide InsertFrom;
    var r := InsertFrom(start, items, ids, b, 0);
    if r.Success? {
      assert [] + r.value.1 == r.value.1;
    }
  }

  lemma ContinuesStep(start: seq<Row>, items: seq<ItemData>, ids: nat -> nat, b: Batch,
                      rows: seq<Row>, created: seq<Row>, k: nat)
    requires k < |items| && Continues(start, items, ids, b, rows, created, k)
    ensures "name" !in items[k] ==> InsertFrom(start, items, ids, b, 0) == Failure(KEY_MISSING)
    ensures "name" in items[k] && b.faults(k).Some? ==>
            InsertFrom(start, items, ids, b, 0) == Failure(b.faults(k).value)
    ensures "name" in items[k] && b.faults(k).None? ==>
            var r := Execute(rows, InsertItem(ids(k), items[k]["name"], DescriptionOf(items[k])), b.now, NoTies());
            if r.Failure? then InsertFrom(start, items, ids, b, 0) == Failure(r.error)
            else
              var made := if r.value.1.Fetched? then r.value.1.rows else [];
              Continues(start, items, ids, b, r.value.0, created + made, k + 1)
  {
    hide Execute;
    if "name" in items[k] && b.faults(k).None? {
      var r := Execute(rows, InsertItem(ids(k), items[k]["name"], DescriptionOf(items[k])), b.now, NoTies());
      if r.Success? {
        var made := if r.value.1.Fetched? then r.value.1.rows else [];
        var rest := InsertFrom(r.value.0, items, ids, b, k + 1);
        if rest.Success? {
          assert created + made + rest.value.1 == created + (made + rest.value.1);
        }
      }
    }
  }

  lemma ContinuesEnd(start: seq<Row>, items: seq<ItemData>, ids: nat -> nat, b: Batch,
                     rows: seq<Row>, created: seq<Row>)
    requires Continues(start, items, ids, b, rows, created, |items|)
    ensures InsertFrom(start, items, ids, b, 0) == Success((rows, created))
  {
    assert created + [] == created;
  }
}
