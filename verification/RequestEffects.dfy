/** The effect of one service request on the stored table, through repository, SQL text, breaker and
    retry, for every environment it may meet. */
module RequestEffects {
  import opened Prelude
  import opened Strings
  import opened UpdateSql
  import opened Errors
  import opened Rows
  import opened Pagination
  import opened ItemsTable
  import opened Database
  import opened Resilience
  import opened ItemRepository
  import opened ItemService

  datatype Event = Event(q: Request, ms: nat -> Moment, batch: Batch)

  /** The database clock at which the event's writes are stamped. */
  function StampOf(e: Event): int {
    if e.q.BulkCreateItems? then e.batch.now else e.ms(1).now
  }

  // ---------- The effect of one request on the table ----------

  /** The statement is executed: breaker, pool and connection all let it through. */
  predicate Reached(cfg: Config, w: World, m: Moment) {
    !Refuses(cfg, w.breaker, m) && m.poolReady && m.fault.None?
  }

  /** One `execute_query` call: the statement takes effect once or not at all, a success carries its
      answer, and a failure is never a NotFoundError. */
  lemma AskEffect(cfg: Config, w: World, s: Statement, ms: nat -> Moment)
    ensures var (w', reply) := Ask(cfg, w, s, ms);
            var r := Execute(w.rows, s, ms(1).now, ms(1).tie);
            && (reply.Success? <==> Reached(cfg, w, ms(1)) && r.Success?)
            && (reply.Success? ==> w'.rows == r.value.0 && reply.value == r.value.1)
            && (reply.Failure? ==> w'.rows == w.rows && !IsInstance(reply.error, {NotFound}))
  {
    AskOnce(cfg, w, s, ms);
    var r := Served(w.rows, s, ms(1));
    if r.Failure? {
      MappedIsFinal(r.error);
    }
    assert BREAKER_OPEN.classes * {NotFound} == {} && POOL_MISSING.classes * {NotFound} == {};
    hide Ask, Execute, MapAsyncpgError, Settled, Trips, MapsBreakerError, GaugeValue;
  }

  /** The row after `update_item`. */
  function Renewed(row: Row, name: Option<string>, description: Option<string>, now: int): Row {
    Row(row.id,
        if name.Some? then name.value else row.name,
        if description.Some? then description else row.description,
        row.createdAt,
        now)
  }

  function RenewedTable(rows: seq<Row>, id: nat, name: Option<string>, description: Option<string>, now: int)
    : (after: seq<Row>)
    ensures |after| == |rows|
    ensures forall i | 0 <= i < |rows| ::
              after[i] == if rows[i].id == id then Renewed(rows[i], name, description, now) else rows[i]
  {
    seq(|rows|, i requires 0 <= i < |rows| =>
      if rows[i].id == id then Renewed(rows[i], name, description, now) else rows[i])
  }

  lemma AssignedSingle(key: string, v: Cell, c: Column)
    ensures Assigned([(key, v)], c) == if ColumnNamed(key) == Some(c) then Some(v) else None
  {
  }

  function Field(key: string, value: Option<string>): Given {
    if value.Some? then [(key, Text(value.value))] else []
  }

  lemma ServicePresent(name: Option<string>, description: Option<string>)
    ensures Present(UpdateFields(name, description)) == Field("name", name) + Field("description", description)
  {
    var fields := UpdateFields(name, description);
    assert fields[1..] == [fields[1]] && fields[1..][1..] == [];
    assert Present(fields[1..][1..]) == [];
    assert Present(fields[1..]) == Field("description", description);
  }

  lemma ServiceColumns()
    ensures ColumnNamed("name") == Some(NameColumn) && ColumnNamed("description") == Some(DescriptionColumn)
  {
  }

  lemma FieldAssigned(name: Option<string>, description: Option<string>, c: Column)
    ensures Assigned(Field("name", name) + Field("description", description), c)
         == if c == NameColumn then (if name.Some? then Some(Text(name.value)) else None)
            else if c == DescriptionColumn then (if description.Some? then Some(Text(description.value)) else None)
            else None
  {
    ServiceColumns();
    hide ColumnNamed;
    AssignedAppend(Field("name", name), Field("description", description), c);
    if name.Some? {
      AssignedSingle("name", Text(name.value), c);
    }
    if description.Some? {
      AssignedSingle("description", Text(description.value), c);
    }
  }

  /** The database takes both texts. */
  predicate TextsFit(name: Option<string>, description: Option<string>) {
    NameFits(name) && Storable(description)
  }

  /** What the database refuses two texts with that do not fit. */
  function TextRefusal(name: Option<string>, description: Option<string>): PyError {
    if !Storable(name) || !Storable(description) then BAD_TEXT else TOO_LONG
  }

  lemma FieldsAcceptable(name: Option<string>, description: Option<string>)
    ensures var given := Field("name", name) + Field("description", description);
            && Nameable(given) && (Acceptable(given) <==> TextsFit(name, description))
            && (!TextsFit(name, description) ==> Refusal(given) == TextRefusal(name, description))
  {
    ServiceColumns();
    hide ColumnNamed;
    var given := Field("name", name) + Field("description", description);
    assert name.Some? ==> given[0] == ("name", Text(name.value));
    assert description.Some? ==> given[|given| - 1] == ("description", Text(description.value));
    forall i | 0 <= i < |given|
      ensures given[i].1.Text? && TypeMatches(ColumnNamed(given[i].0).value, given[i].1)
      ensures given[i] == (if i == 0 && name.Some? then ("name", Text(name.value))
                           else if description.Some? then ("description", Text(description.value)) else given[i])
    {
    }
    hide Storable;
    assert WellTyped(given);
    assert Nameable(given);
    assert AllStorable(given) <==> Storable(name) && Storable(description);
  }

  /** The fields the service passes: the two it may set, under their column names. */
  lemma ServiceFields(name: Option<string>, description: Option<string>)
    ensures var given := Present(UpdateFields(name, description));
            && Identifiers(given) && Nameable(given) && (Acceptable(given) <==> TextsFit(name, description))
            && (!TextsFit(name, description) ==> Refusal(given) == TextRefusal(name, description))
            && (given == [] <==> name.None? && description.None?)
            && Assigned(given, IdColumn).None? && Assigned(given, CreatedAtColumn).None?
            && Assigned(given, NameColumn) == (if name.Some? then Some(Text(name.value)) else None)
            && Assigned(given, DescriptionColumn) == (if description.Some? then Some(Text(description.value)) else None)
  {
    ServicePresent(name, description);
    FieldsAcceptable(name, description);
    FieldAssigned(name, description, IdColumn);
    FieldAssigned(name, description, NameColumn);
    FieldAssigned(name, description, DescriptionColumn);
    FieldAssigned(name, description, CreatedAtColumn);
    assert IsIdentifier("name") && IsIdentifier("description");
    hide ColumnNamed, Assigned, Present, UpdateFields, IsIdentifier, Nameable, Acceptable, Refusal,
      TextRefusal, TextsFit;
  }

  lemma ServicePatch(row: Row, name: Option<string>, description: Option<string>, now: int)
    ensures Patched(row, Present(UpdateFields(name, description)), now) == Renewed(row, name, description, now)
  {
    ServiceFields(name, description);
    hide Assigned, UpdateFields, Present;
  }

  /** `update_item` on the table, through the SQL text it sends: refused exactly if a text does not
      fit, whether or not the row exists. */
  lemma UpdateOnTable(rows: seq<Row>, id: nat, name: Option<string>, description: Option<string>,
                      now: int, tie: Row -> int)
    requires UniqueIds(rows)
    ensures var r := Execute(rows, UpdateStatementFor(id, UpdateFields(name, description)), now, tie);
            && (r.Success? <==> TextsFit(name, description))
            && (r.Failure? ==> r.error == TextRefusal(name, description))
            && (r.Success? ==>
                  && r.value.1.Fetched?
                  && r.value.0 == (if name.None? && description.None? then rows
                                   else RenewedTable(rows, id, name, description, now))
                  && r.value.1.rows == WithId(r.value.0, id))
  {
    ServiceFields(name, description);
    var fields := UpdateFields(name, description);
    UpdateExecutes(rows, id, fields, now, tie);
    hide Execute, UpdateFields, Present, Assigned, Patched, Acceptable, Nameable, Refusal, TextRefusal;
    if !(name.None? && description.None?) {
      var given := Present(fields);
      forall i | 0 <= i < |rows|
        ensures PatchedTable(rows, id, given, now)[i] == RenewedTable(rows, id, name, description, now)[i]
      {
        ServicePatch(rows[i], name, description, now);
      }
      assert PatchedTable(rows, id, given, now) == RenewedTable(rows, id, name, description, now);
      PatchedFound(rows, id, name, description, now);
    }
  }

  lemma {:induction false} PatchedFound(rows: seq<Row>, id: nat, name: Option<string>,
                                        description: Option<string>, now: int)
    ensures PatchedRows(WithId(rows, id), Present(UpdateFields(name, description)), now)
         == WithId(RenewedTable(rows, id, name, description, now), id)
  {
    if rows != [] {
      PatchedFound(rows[1..], id, name, description, now);
      ServicePatch(rows[0], name, description, now);
      hide Patched, Present, UpdateFields, Renewed;
      var after := RenewedTable(rows, id, name, description, now);
      RenewedId(rows[0], name, description, now);
      assert after[1..] == RenewedTable(rows[1..], id, name, description, now);
      if rows[0].id == id {
        assert WithId(rows, id)[1..] == WithId(rows[1..], id);
        assert WithId(after, id) == [after[0]] + WithId(after[1..], id);
      } else {
        assert WithId(rows, id) == WithId(rows[1..], id);
        assert WithId(after, id) == WithId(after[1..], id);
      }
    }
  }

  lemma RenewedId(row: Row, name: Option<string>, description: Option<string>, now: int)
    ensures Renewed(row, name, description, now).id == row.id
    ensures Renewed(row, name, description, now).createdAt == row.createdAt
  {
  }

  /** What a request may do to the table, read off its response. */
  ghost predicate Effect(rows: seq<Row>, rows': seq<Row>, q: Request, r: Response, now: int) {
    match q
    case CreateItem(id, name, description) =>
      if r.Item? then
        r.row == Row(id, name, description, now, now) && !HasId(rows, id) && rows' == rows + [r.row]
      else r.Raised? && rows' == rows
    case GetItem(id) =>
      rows' == rows && (r.Item? ==> WithId(rows, id) == [r.row]) && (r.Item? || r.Raised?)
    case ListPage(limit, offset) =>
      rows' == rows && (if r.PageOf? then IsPage(r.rows, rows, limit, offset) else r.Raised?)
    case CountAll =>
      rows' == rows && (r.Raised? || r == Total(|rows|))
    case UpdateItem(id, name, description) =>
      if r.Item? then
        && HasId(rows, id) && WithId(rows', id) == [r.row]
        && rows' == (if name.None? && description.None? then rows
                     else RenewedTable(rows, id, name, description, now))
      else r.Raised? && rows' == rows
    case DeleteItem(id) =>
      if r == Deleted then HasId(rows, id) && rows' == WithoutId(rows, id)
      else r.Raised? && rows' == rows
    case BulkCreateItems(items, ids) =>
      if r.Created? then
        && r.rows == BatchRows(items, ids, now, 0) && rows' == rows + r.rows
        && AllFresh(rows, items, ids)
      else r.Raised? && rows' == rows
  }

  /** The batch's ids are pairwise different and new to the table. */
  ghost predicate AllFresh(rows: seq<Row>, items: seq<ItemData>, ids: nat -> nat) {
    && (forall i | 0 <= i < |items| :: !HasId(rows, ids(i)))
    && (forall i, j | 0 <= i < j < |items| :: ids(i) != ids(j))
  }

  lemma WithIdSingle(rows: seq<Row>, id: nat)
    requires UniqueIds(rows)
    ensures HasId(rows, id) ==> |WithId(rows, id)| == 1 && WithId(rows, id)[0] in rows && WithId(rows, id)[0].id == id
    ensures !HasId(rows, id) ==> WithId(rows, id) == []
  {
  }

  lemma RenewedIds(rows: seq<Row>, id: nat, name: Option<string>, description: Option<string>, now: int)
    requires UniqueIds(rows)
    ensures var after := RenewedTable(rows, id, name, description, now);
            UniqueIds(after) && forall x :: HasId(after, x) <==> HasId(rows, x)
  {
  }

  lemma CreateEffect(cfg: Config, w: World, e: Event)
    requires e.q.CreateItem?
    ensures var (w', r) := Serve(cfg, w, e.q, e.ms, e.batch);
            Effect(w.rows, w'.rows, e.q, r, StampOf(e))
  {
    AskEffect(cfg, w, InsertItem(e.q.id, Some(e.q.name), e.q.description), e.ms);
    hide Ask, Reached;
  }

  lemma UpdateFound(rows: seq<Row>, id: nat, name: Option<string>, description: Option<string>,
                    now: int, tie: Row -> int)
    requires UniqueIds(rows)
    ensures var r := Execute(rows, UpdateStatementFor(id, UpdateFields(name, description)), now, tie);
            && (r.Success? <==> TextsFit(name, description)) && (r.Success? ==> r.value.1.Fetched?)
            && (r.Failure? ==> r.error == TextRefusal(name, description))
            && (r.Success? && HasId(rows, id) ==>
                  && First(r.value.1.rows).Some? && WithId(r.value.0, id) == [First(r.value.1.rows).value]
                  && r.value.0 == (if name.None? && description.None? then rows
                                   else RenewedTable(rows, id, name, description, now)))
            && (r.Success? && !HasId(rows, id) ==> r.value == (rows, Fetched([])))
  {
    hide Execute, UpdateFields, UpdateStatementFor, WithId, Renewed, HasId, TextsFit;
    UpdateOnTable(rows, id, name, description, now, tie);
    RenewedIds(rows, id, name, description, now);
    WithIdSingle(rows, id);
    WithIdSingle(RenewedTable(rows, id, name, description, now), id);
    if !HasId(rows, id) {
      NotHeld(rows, id, name, description, now);
    }
  }

  lemma UpdateEffect(cfg: Config, w: World, e: Event)
    requires e.q.UpdateItem? && UniqueIds(w.rows) && Admitted(e.q)
    ensures var (w', r) := Serve(cfg, w, e.q, e.ms, e.batch);
            Effect(w.rows, w'.rows, e.q, r, StampOf(e))
    ensures var r := Serve(cfg, w, e.q, e.ms, e.batch).1;
            r.Item? <==>
              Reached(cfg, w, e.ms(1)) && TextsFit(e.q.newName, e.q.newDescription) && HasId(w.rows, e.q.id)
  {
    hide QueryRun, Reached, TextsFit, Execute, UpdateStatementFor, UpdateFields, WithId, RenewedTable, HasId, UniqueIds;
    var q, m := e.q, e.ms(1);
    AskEffect(cfg, w, UpdateStatementFor(q.id, UpdateFields(q.newName, q.newDescription)), e.ms);
    UpdateFound(w.rows, q.id, q.newName, q.newDescription, m.now, m.tie);
  }

  lemma NotHeld(rows: seq<Row>, id: nat, name: Option<string>, description: Option<string>, now: int)
    requires !HasId(rows, id)
    ensures RenewedTable(rows, id, name, description, now) == rows
  {
  }

  lemma DeleteEffect(cfg: Config, w: World, e: Event)
    requires e.q.DeleteItem? && UniqueIds(w.rows)
    ensures var (w', r) := Serve(cfg, w, e.q, e.ms, e.batch);
            Effect(w.rows, w'.rows, e.q, r, StampOf(e))
    ensures var r := Serve(cfg, w, e.q, e.ms, e.batch).1;
            r == Deleted <==> Reached(cfg, w, e.ms(1)) && HasId(w.rows, e.q.id)
  {
    AskEffect(cfg, w, DeleteById(e.q.id), e.ms);
    WithIdSingle(w.rows, e.q.id);
    WithIdAbsent(w.rows, e.q.id);
    DeleteTag(|WithId(w.rows, e.q.id)|);
    hide Ask, Reached, WithId, WithoutId, HasId, Render, UniqueIds;
  }

  lemma PageEffect(cfg: Config, w: World, e: Event)
    requires e.q.ListPage?
    ensures var (w', r) := Serve(cfg, w, e.q, e.ms, e.batch);
            Effect(w.rows, w'.rows, e.q, r, StampOf(e))
    ensures var r := Serve(cfg, w, e.q, e.ms, e.batch).1;
            r.PageOf? <==> Reached(cfg, w, e.ms(1))
  {
    hide QueryRun, Reached, Page, Listing, IsPage;
    AskEffect(cfg, w, SelectPage(e.q.limit, e.q.offset), e.ms);
    PageIsPage(w.rows, e.ms(1).tie, e.q.limit, e.q.offset);
  }

  lemma ReadEffect(cfg: Config, w: World, e: Event)
    requires e.q.GetItem? || e.q.ListPage? || e.q.CountAll?
    requires UniqueIds(w.rows)
    ensures var (w', r) := Serve(cfg, w, e.q, e.ms, e.batch);
            Effect(w.rows, w'.rows, e.q, r, StampOf(e))
    ensures var r := Serve(cfg, w, e.q, e.ms, e.batch).1;
            e.q.GetItem? ==> (r.Item? <==> Reached(cfg, w, e.ms(1)) && HasId(w.rows, e.q.id))
  {
    match e.q
    case GetItem(id) =>
      AskEffect(cfg, w, SelectById(id), e.ms);
      WithIdSingle(w.rows, id);
      hide Ask, Reached, WithId, HasId;
    case ListPage(_, _) =>
      hide Serve, Effect;
      PageEffect(cfg, w, e);
    case CountAll =>
      AskEffect(cfg, w, Statement.CountItems, e.ms);
      hide Ask, Reached;
  }

  lemma BulkEffect(cfg: Config, w: World, e: Event)
    requires e.q.BulkCreateItems?
    ensures var (w', r) := Serve(cfg, w, e.q, e.ms, e.batch);
            Effect(w.rows, w'.rows, e.q, r, StampOf(e))
  {
    BulkExactly(w.rows, e.q.items, e.q.ids, e.batch);
    if Commits(w.rows, e.q.items, e.q.ids, e.batch) {
      AllInsertableFresh(w.rows, e.q.items, e.q.ids, e.batch);
    }
    hide BulkInsert, Commits, AllFresh;
  }

  lemma AllInsertableFresh(rows: seq<Row>, items: seq<ItemData>, ids: nat -> nat, b: Batch)
    requires AllInsertable(rows, items, ids, b, 0)
    ensures AllFresh(rows, items, ids)
  {
    forall i | 0 <= i < |items|
      ensures !HasId(rows, ids(i))
      ensures forall j | 0 <= j < i :: ids(j) != ids(i)
    {
      assert Insertable(rows, items, ids, b, 0, i);
    }
  }

  /** Every admitted request has the effect its response announces, and none other. */
  lemma ServeEffect(cfg: Config, w: World, e: Event)
    requires UniqueIds(w.rows) && Admitted(e.q)
    ensures var (w', r) := Serve(cfg, w, e.q, e.ms, e.batch);
            Effect(w.rows, w'.rows, e.q, r, StampOf(e))
  {
    hide Serve, Effect, Admitted;
    match e.q
    case CreateItem(_, _, _) => CreateEffect(cfg, w, e);
    case UpdateItem(_, _, _) => UpdateEffect(cfg, w, e);
    case DeleteItem(_) => DeleteEffect(cfg, w, e);
    case BulkCreateItems(_, _) => BulkEffect(cfg, w, e);
    case _ => ReadEffect(cfg, w, e);
  }
}
