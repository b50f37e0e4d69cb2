/** The response to every request that goes through `execute_query`, told from the breaker, the moment
    and the stored table. */
module Answers {
  import opened Prelude
  import opened Strings
  import opened Errors
  import opened Rows
  import opened Pagination
  import opened Database
  import opened Resilience
  import opened ItemRepository
  import opened ItemService
  import opened RequestEffects

  /** A failing call opens the breaker, and the breaker raises its own error for it. */
  predicate BreakerSpeaks(cfg: Config, b: Breaker) {
    cfg.tripRaises && (b.state != Closed || b.failures + 1 >= cfg.failMax)
  }

  /** What a call that fails with `e` answers. */
  function Failing(cfg: Config, b: Breaker, e: PyError): PyError {
    if BreakerSpeaks(cfg, b) then PyError("CircuitBreakerError", {CircuitBreakerOpen}, "circuit breaker is open") else e
  }

  const CONFLICT := PyError("ConflictError", {Conflict}, "A record with the given unique key already exists")
  const NOT_FOUND := PyError("NotFoundError", {NotFound}, "Item not found")
  const BAD_DATA := PyError("BadRequestError", {BadRequest}, "Invalid data format")

  lemma RejectionsMapped()
    ensures MapAsyncpgError(DUPLICATE_KEY) == CONFLICT
    ensures MapAsyncpgError(BAD_VALUE) == MapAsyncpgError(BAD_TEXT) == MapAsyncpgError(TOO_LONG) == BAD_DATA
    ensures MapAsyncpgError(NULL_IN_COLUMN) == PyError("BadRequestError", {BadRequest}, "A required field was null")
    ensures MapAsyncpgError(BAD_STATEMENT).classes == MapAsyncpgError(BAD_ARGUMENT_COUNT).classes == {Errors.Database}
  {
    MapperExactly(DUPLICATE_KEY);
    MapperExactly(BAD_VALUE);
    MapperExactly(BAD_TEXT);
    MapperExactly(TOO_LONG);
    MapperExactly(NULL_IN_COLUMN);
    MapperExactly(BAD_STATEMENT);
    MapperExactly(BAD_ARGUMENT_COUNT);
    hide MapAsyncpgError;
  }

  /** The reply of one `execute_query` call. */
  lemma ReplyExactly(cfg: Config, w: World, s: Statement, ms: nat -> Moment)
    ensures var (b, m, reply) := (w.breaker, ms(1), Ask(cfg, w, s, ms).1);
            if b.state == Open && m.startedAt < b.openedAt + cfg.timeout then reply == Failure(BREAKER_OPEN)
            else if !m.poolReady then reply == Failure(Failing(cfg, b, POOL_MISSING))
            else if m.fault.Some? then reply == Failure(Failing(cfg, b, MapAsyncpgError(m.fault.value)))
            else
              var done := Execute(w.rows, s, m.now, m.tie);
              reply == if done.Success? then Success(done.value.1)
                       else Failure(Failing(cfg, b, MapAsyncpgError(done.error)))
  {
    AskOnce(cfg, w, s, ms);
    hide Ask, Execute, MapAsyncpgError, MapsBreakerError, GaugeValue, Settled;
  }

  /** The answer the database's table calls for. */
  ghost predicate TableAnswer(rows: seq<Row>, q: Request, m: Moment, cfg: Config, b: Breaker, r: Response) {
    match q
    case CreateItem(id, name, description) =>
      if !TextsFit(Some(name), description) then r == Raised(Failing(cfg, b, BAD_DATA))
      else if HasId(rows, id) then r == Raised(Failing(cfg, b, CONFLICT))
      else r == Item(Row(id, name, description, m.now, m.now))
    case GetItem(id) =>
      if HasId(rows, id) then r.Item? && r.row in rows && r.row.id == id else r == Raised(NOT_FOUND)
    case ListPage(limit, offset) => r.PageOf? && IsPage(r.rows, rows, limit, offset)
    case CountAll => r == Total(|rows|)
    case UpdateItem(id, name, description) =>
      if !TextsFit(name, description) then r == Raised(Failing(cfg, b, BAD_DATA))
      else if !HasId(rows, id) then r == Raised(NOT_FOUND)
      else exists i | 0 <= i < |rows| :: rows[i].id == id &&
             r == Item(if name.None? && description.None? then rows[i] else Renewed(rows[i], name, description, m.now))
    case DeleteItem(id) => r == if HasId(rows, id) then Deleted else Raised(NOT_FOUND)
    case BulkCreateItems(_, _) => true
  }

  /** The response, exactly. A refused call raises the breaker's error and a missing pool its own; a
      fault of the connection and a refused statement raise their mapped errors; each of the last three
      gives way to the breaker's error if the call opens it and the breaker speaks. Otherwise the table
      decides, and an absent row is NotFoundError. */
  lemma AnsweredExactly(cfg: Config, w: World, e: Event)
    requires UniqueIds(w.rows) && !e.q.BulkCreateItems?
    ensures var (b, m, r) := (w.breaker, e.ms(1), Serve(cfg, w, e.q, e.ms, e.batch).1);
            if b.state == Open && m.startedAt < b.openedAt + cfg.timeout then r == Raised(BREAKER_OPEN)
            else if !m.poolReady then r == Raised(Failing(cfg, b, POOL_MISSING))
            else if m.fault.Some? then r == Raised(Failing(cfg, b, MapAsyncpgError(m.fault.value)))
            else TableAnswer(w.rows, e.q, m, cfg, b, r)
  {
    RejectionsMapped();
    hide MapAsyncpgError, Failing, Ask, IsPage;
    match e.q
    case CreateItem(id, name, description) =>
      ReplyExactly(cfg, w, InsertItem(id, Some(name), description), e.ms);
    case GetItem(id) =>
      ReplyExactly(cfg, w, SelectById(id), e.ms);
      WithIdSingle(w.rows, id);
      hide WithId, HasId;
    case ListPage(limit, offset) =>
      ReplyExactly(cfg, w, SelectPage(limit, offset), e.ms);
      PageIsPage(w.rows, e.ms(1).tie, limit, offset);
      hide Page, Listing;
    case CountAll =>
      ReplyExactly(cfg, w, Statement.CountItems, e.ms);
    case UpdateItem(id, name, description) =>
      UpdateAnswered(cfg, w, e);
    case DeleteItem(id) =>
      ReplyExactly(cfg, w, DeleteById(id), e.ms);
      WithIdSingle(w.rows, id);
      WithIdAbsent(w.rows, id);
      DeleteTag(|WithId(w.rows, id)|);
      hide WithId, WithoutId, HasId, Render;
  }

  lemma UpdateAnswered(cfg: Config, w: World, e: Event)
    requires UniqueIds(w.rows) && e.q.UpdateItem?
    ensures var (b, m, r) := (w.breaker, e.ms(1), Serve(cfg, w, e.q, e.ms, e.batch).1);
            if b.state == Open && m.startedAt < b.openedAt + cfg.timeout then r == Raised(BREAKER_OPEN)
            else if !m.poolReady then r == Raised(Failing(cfg, b, POOL_MISSING))
            else if m.fault.Some? then r == Raised(Failing(cfg, b, MapAsyncpgError(m.fault.value)))
            else TableAnswer(w.rows, e.q, m, cfg, b, r)
  {
    hide MapAsyncpgError, Failing, Ask, Execute, UpdateStatementFor, UpdateFields, WithId, HasId, TextsFit, RenewedTable;
    RejectionsMapped();
    var (q, m) := (e.q, e.ms(1));
    ReplyExactly(cfg, w, UpdateStatementFor(q.id, UpdateFields(q.newName, q.newDescription)), e.ms);
    UpdateFound(w.rows, q.id, q.newName, q.newDescription, m.now, m.tie);
    if HasId(w.rows, q.id) {
      RenewedRow(w.rows, q.id, q.newName, q.newDescription, m.now);
    }
  }

  /** The one row with this id, before and after. */
  lemma RenewedRow(rows: seq<Row>, id: nat, name: Option<string>, description: Option<string>, now: int)
    requires UniqueIds(rows) && HasId(rows, id)
    ensures exists i | 0 <= i < |rows| :: rows[i].id == id && WithId(rows, id) == [rows[i]]
              && WithId(RenewedTable(rows, id, name, description, now), id) == [Renewed(rows[i], name, description, now)]
  {
    var after := RenewedTable(rows, id, name, description, now);
    RenewedIds(rows, id, name, description, now);
    WithIdSingle(rows, id);
    WithIdSingle(after, id);
    var i :| 0 <= i < |rows| && rows[i].id == id;
    hide WithId;
    assert WithId(rows, id) == [WithId(rows, id)[0]] && WithId(after, id) == [WithId(after, id)[0]];
    assert after[i].id == id;
  }
}
