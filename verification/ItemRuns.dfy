/** Whole runs of the items service: any sequence of requests, each meeting its own faults, breaker
    state and clock. Requests are atomic, so a run is one interleaving of any number of clients. */
module ItemRuns {
  import opened Prelude
  import opened Errors
  import opened Rows
  import opened Database
  import opened Resilience
  import opened ItemRepository
  import opened ItemService
  import opened RequestEffects

  ghost function Reach(cfg: Config, w: World, events: seq<Event>): World {
    if events == [] then w
    else
      var e := events[|events| - 1];
      Serve(cfg, Reach(cfg, w, events[..|events| - 1]), e.q, e.ms, e.batch).0
  }

  /** The response to the last event. */
  ghost function LastResponse(cfg: Config, w: World, events: seq<Event>): Response
    requires events != []
  {
    var e := events[|events| - 1];
    Serve(cfg, Reach(cfg, w, events[..|events| - 1]), e.q, e.ms, e.batch).1
  }

  ghost predicate AllAdmitted(events: seq<Event>) {
    forall i | 0 <= i < |events| :: Admitted(events[i].q)
  }

  // ---------- The table invariant ----------

  /** When id x was last drawn, or `start`. */
  ghost function DrawnAt(events: seq<Event>, x: nat, start: int): int {
    if events == [] then start
    else
      var e, before := events[|events| - 1], DrawnAt(events[..|events| - 1], x, start);
      if Draws(e.q, x) then Max(before, StampOf(e)) else before
  }

  /** No transaction updates a row that was created by a transaction begun after it. That is all the
      clock is asked for: stamps are transaction starts, and effects may appear in another order. */
  ghost predicate Timely(events: seq<Event>, start: int) {
    events != [] ==>
      var e, before := events[|events| - 1], events[..|events| - 1];
      Timely(before, start) && (e.q.UpdateItem? ==> DrawnAt(before, e.q.id, start) <= StampOf(e))
  }

  /** The latest stamp so far. */
  ghost function Clock(events: seq<Event>, start: int): int {
    if events == [] then start
    else Max(Clock(events[..|events| - 1], start), StampOf(events[|events| - 1]))
  }

  ghost predicate RowOk(row: Row, clock: int) {
    && 1 <= |row.name| <= 255 && (row.description.Some? ==> |row.description.value| <= 2000)
    && row.createdAt <= row.updatedAt <= clock
  }

  ghost predicate TableOk(rows: seq<Row>, clock: int) {
    UniqueIds(rows) && forall i | 0 <= i < |rows| :: RowOk(rows[i], clock)
  }

  lemma WithoutIdKeeps(rows: seq<Row>, id: nat, clock: int)
    requires TableOk(rows, clock)
    ensures TableOk(WithoutId(rows, id), clock)
    ensures forall i | 0 <= i < |WithoutId(rows, id)| :: WithoutId(rows, id)[i] in rows
  {
    hide RowOk, WithoutId, UniqueIds;
    WithoutIdSubset(rows, id);
    assert UniqueIds(WithoutId(rows, id)) by {
      WithoutIdUnique(rows, id);
    }
    forall i | 0 <= i < |WithoutId(rows, id)|
      ensures RowOk(WithoutId(rows, id)[i], clock)
    {
      assert WithoutId(rows, id)[i] in rows;
    }
  }

  lemma {:induction false} WithoutIdSubset(rows: seq<Row>, id: nat)
    ensures forall i | 0 <= i < |WithoutId(rows, id)| :: WithoutId(rows, id)[i] in rows
  {
    if rows != [] {
      WithoutIdSubset(rows[1..], id);
    }
  }

  lemma LaterClock(rows: seq<Row>, clock: int, later: int)
    requires TableOk(rows, clock) && clock <= later
    ensures TableOk(rows, later)
  {
  }

  lemma BatchRowsOk(items: seq<ItemData>, ids: nat -> nat, now: int, rows: seq<Row>, clock: int)
    requires Admitted(BulkCreateItems(items, ids)) && AllFresh(rows, items, ids)
    requires TableOk(rows, clock) && now <= clock
    ensures TableOk(rows + BatchRows(items, ids, now, 0), clock)
  {
    var made := BatchRows(items, ids, now, 0);
    forall i | 0 <= i < |made|
      ensures RowOk(made[i], clock)
    {
      assert made[i] == BatchRow(items, ids, now, i);
    }
    BatchUnique(rows, items, ids, now);
    hide RowOk, BatchRow, AllFresh;
  }

  lemma EffectKeepsTable(rows: seq<Row>, rows': seq<Row>, q: Request, r: Response, now: int, clock: int)
    requires TableOk(rows, clock) && now <= clock && Admitted(q)
    requires Effect(rows, rows', q, r, now)
    requires q.UpdateItem? ==> forall i | 0 <= i < |rows| && rows[i].id == q.id :: rows[i].createdAt <= now
    ensures TableOk(rows', clock)
  {
    match q
    case BulkCreateItems(items, ids) =>
      if r.Created? {
        BatchRowsOk(items, ids, now, rows, clock);
      }
    case DeleteItem(id) =>
      WithoutIdKeeps(rows, id, clock);
    case UpdateItem(id, name, description) =>
      RenewedIds(rows, id, name, description, now);
    case CreateItem(id, _, _) =>
      if r.Item? {
        assert rows' == rows + [r.row];
        assert forall i | 0 <= i < |rows| :: rows[i].id != id;
      }
    case _ =>
  }

  /** No row is older or younger than the draws of its id allow. */
  ghost predicate BornInTime(rows: seq<Row>, events: seq<Event>, start: int) {
    forall i | 0 <= i < |rows| :: rows[i].createdAt <= DrawnAt(events, rows[i].id, start)
  }

  /** A row after the event was there before, with the same birth, or was made by the event. */
  lemma EffectKeepsBirth(rows: seq<Row>, rows': seq<Row>, q: Request, r: Response, now: int, i: nat)
    requires Effect(rows, rows', q, r, now) && UniqueIds(rows) && i < |rows'|
    ensures (Draws(q, rows'[i].id) && rows'[i].createdAt == now)
         || exists j | 0 <= j < |rows| :: rows[j].id == rows'[i].id && rows[j].createdAt == rows'[i].createdAt
  {
    match q
    case BulkCreateItems(items, ids) =>
      if r.Created? && i >= |rows| {
        var k := i - |rows|;
        assert rows'[i] == BatchRow(items, ids, now, k);
        assert ids(k) == rows'[i].id;
      } else {
        assert rows[i] == rows'[i];
      }
    case DeleteItem(id) =>
      WithoutIdUnique(rows, id);
      assert rows'[i] in rows;
    case UpdateItem(id, name, description) =>
      assert rows[i].id == rows'[i].id && rows[i].createdAt == rows'[i].createdAt;
    case CreateItem(_, _, _) =>
      if i < |rows| {
        assert rows[i] == rows'[i];
      }
    case _ =>
      assert rows[i] == rows'[i];
  }

  lemma BornStep(cfg: Config, w: World, events: seq<Event>, start: int)
    requires events != [] && UniqueIds(w.rows) && AllAdmitted(events)
    requires BornInTime(Reach(cfg, w, events[..|events| - 1]).rows, events[..|events| - 1], start)
    ensures BornInTime(Reach(cfg, w, events).rows, events, start)
  {
    var before, e := events[..|events| - 1], events[|events| - 1];
    RunStep(cfg, w, before);
    RunStep(cfg, w, events);
    hide Serve, Effect, Draws, UniqueIds, Reach, Admitted, LastResponse;
    var rows, rows' := Reach(cfg, w, before).rows, Reach(cfg, w, events).rows;
    forall i | 0 <= i < |rows'|
      ensures rows'[i].createdAt <= DrawnAt(events, rows'[i].id, start)
    {
      EffectKeepsBirth(rows, rows', e.q, LastResponse(cfg, w, events), StampOf(e), i);
    }
  }

  /** The whole-run table invariant: after any run of admitted requests in which no row is updated by
      a transaction older than the row, ids are unique, names have 1 to 255 characters, descriptions
      are absent or have at most 2000, and no row was created after its last update or stamped later
      than any transaction. Batches may appear long after their stamp. */
  lemma {:induction false} TableInvariant(cfg: Config, w: World, events: seq<Event>, start: int)
    requires TableOk(w.rows, start) && AllAdmitted(events) && Timely(events, start)
    ensures TableOk(Reach(cfg, w, events).rows, Clock(events, start))
    ensures BornInTime(Reach(cfg, w, events).rows, events, start)
  {
    hide Serve, Effect, Draws, Admitted, LastResponse, RowOk;
    UniqueFromOk(w.rows, start);
    if events == [] {
      BornAtStart(w.rows, start);
    } else {
      var before, e := events[..|events| - 1], events[|events| - 1];
      TableInvariant(cfg, w, before, start);
      BornStep(cfg, w, events, start);
      RunStep(cfg, w, events);
      LaterClock(Reach(cfg, w, before).rows, Clock(before, start), Clock(events, start));
      EffectKeepsTable(Reach(cfg, w, before).rows, Reach(cfg, w, events).rows, e.q,
                       LastResponse(cfg, w, events), StampOf(e), Clock(events, start));
    }
  }

  lemma BornAtStart(rows: seq<Row>, start: int)
    requires TableOk(rows, start)
    ensures BornInTime(rows, [], start)
  {
  }

  lemma UniqueFromOk(rows: seq<Row>, clock: int)
    requires TableOk(rows, clock)
    ensures UniqueIds(rows)
  {
  }

  // ---------- Unique ids alone need no clock ----------

  lemma {:induction false} WithoutIdUnique(rows: seq<Row>, id: nat)
    requires UniqueIds(rows)
    ensures UniqueIds(WithoutId(rows, id))
    ensures forall i | 0 <= i < |WithoutId(rows, id)| :: WithoutId(rows, id)[i] in rows
  {
    WithoutIdSubset(rows, id);
    if rows != [] {
      var rest := WithoutId(rows[1..], id);
      WithoutIdUnique(rows[1..], id);
      WithoutIdSubset(rows[1..], id);
      forall i | 0 <= i < |rest|
        ensures rest[i].id != rows[0].id
      {
        var j :| 0 <= j < |rows| - 1 && rows[1..][j] == rest[i];
        assert rows[j + 1] == rest[i];
      }
      assert WithoutId(rows, id) == (if rows[0].id == id then [] else [rows[0]]) + rest;
      hide WithoutId;
    }
  }

  lemma BatchUnique(rows: seq<Row>, items: seq<ItemData>, ids: nat -> nat, now: int)
    requires UniqueIds(rows) && AllFresh(rows, items, ids)
    ensures UniqueIds(rows + BatchRows(items, ids, now, 0)) && UniqueIds(BatchRows(items, ids, now, 0))
  {
  }

  lemma EffectKeepsUnique(rows: seq<Row>, rows': seq<Row>, q: Request, r: Response, now: int)
    requires UniqueIds(rows) && Effect(rows, rows', q, r, now)
    ensures UniqueIds(rows')
  {
    match q
    case BulkCreateItems(items, ids) =>
      if r.Created? {
        BatchUnique(rows, items, ids, now);
      }
    case DeleteItem(id) => WithoutIdUnique(rows, id);
    case UpdateItem(id, name, description) => RenewedIds(rows, id, name, description, now);
    case _ =>
  }

  /** One step of a run: the table before has unique ids and the event has its announced effect. */
  lemma {:induction false} RunStep(cfg: Config, w: World, events: seq<Event>)
    requires UniqueIds(w.rows) && AllAdmitted(events)
    ensures UniqueIds(Reach(cfg, w, events).rows)
    ensures events != [] ==>
            var before, e := events[..|events| - 1], events[|events| - 1];
            Effect(Reach(cfg, w, before).rows, Reach(cfg, w, events).rows, e.q,
                   LastResponse(cfg, w, events), StampOf(e))
  {
    if events != [] {
      var before, e := events[..|events| - 1], events[|events| - 1];
      RunStep(cfg, w, before);
      hide Serve, Effect, UniqueIds, Admitted;
      ServeEffect(cfg, Reach(cfg, w, before), e);
      EffectKeepsUnique(Reach(cfg, w, before).rows, Reach(cfg, w, events).rows, e.q,
                        LastResponse(cfg, w, events), StampOf(e));
    }
  }

  // ---------- Conservation ----------

  /** Rows with id x that this response reports as created. */
  ghost function CreatedBy(q: Request, r: Response, x: nat): nat {
    if q.CreateItem? && r.Item? && q.id == x then 1
    else if q.BulkCreateItems? && r.Created? then |WithId(r.rows, x)|
    else 0
  }

  ghost function DeletedBy(q: Request, r: Response, x: nat): nat {
    if q.DeleteItem? && r == Deleted && q.id == x then 1 else 0
  }

  /** Rows of any id. */
  ghost function CreatedCount(q: Request, r: Response): nat {
    if q.CreateItem? && r.Item? then 1
    else if q.BulkCreateItems? && r.Created? then |r.rows|
    else 0
  }

  ghost function DeletedCount(q: Request, r: Response): nat {
    if q.DeleteItem? && r == Deleted then 1 else 0
  }

  lemma {:induction false} WithIdAppend(a: seq<Row>, b: seq<Row>, x: nat)
    ensures WithId(a + b, x) == WithId(a, x) + WithId(b, x)
  {
    if a == [] {
      assert a + b == b;
    } else {
      assert (a + b)[1..] == a[1..] + b;
      WithIdAppend(a[1..], b, x);
      var head := if a[0].id == x then [a[0]] else [];
      assert head + (WithId(a[1..], x) + WithId(b, x)) == head + WithId(a[1..], x) + WithId(b, x);
    }
  }

  lemma {:induction false} WithoutIdOthers(rows: seq<Row>, id: nat, x: nat)
    ensures WithId(WithoutId(rows, id), x) == if x == id then [] else WithId(rows, x)
    ensures |WithoutId(rows, id)| == |rows| - |WithId(rows, id)|
  {
    if rows != [] {
      WithoutIdOthers(rows[1..], id, x);
      if rows[0].id != id {
        assert WithoutId(rows, id)[1..] == WithoutId(rows[1..], id);
      } else {
        assert WithoutId(rows, id) == WithoutId(rows[1..], id);
        assert x != id ==> WithId(rows, x) == WithId(rows[1..], x);
      }
    }
  }

  lemma {:induction false} RenewedOccurrences(rows: seq<Row>, id: nat, name: Option<string>,
                                              description: Option<string>, now: int, x: nat)
    ensures var after := RenewedTable(rows, id, name, description, now);
            && |WithId(after, x)| == |WithId(rows, x)|
            && forall i | 0 <= i < |WithId(rows, x)| :: WithId(after, x)[i].createdAt == WithId(rows, x)[i].createdAt
  {
    if rows != [] {
      RenewedOccurrences(rows[1..], id, name, description, now, x);
      var after := RenewedTable(rows, id, name, description, now);
      assert after[1..] == RenewedTable(rows[1..], id, name, description, now);
    }
  }

  lemma WithIdOne(row: Row, x: nat)
    ensures WithId([row], x) == if row.id == x then [row] else []
  {
  }

  lemma EffectConserves(rows: seq<Row>, rows': seq<Row>, q: Request, r: Response, now: int, x: nat)
    requires UniqueIds(rows) && Effect(rows, rows', q, r, now)
    ensures |WithId(rows', x)| + DeletedBy(q, r, x) == |WithId(rows, x)| + CreatedBy(q, r, x)
    ensures |rows'| + DeletedCount(q, r) == |rows| + CreatedCount(q, r)
    ensures CreatedBy(q, r, x) == 0 && WithId(rows', x) != [] ==>
            WithId(rows, x) != [] && WithId(rows', x)[0].createdAt == WithId(rows, x)[0].createdAt
  {
    match q
    case CreateItem(id, _, _) =>
      if r.Item? {
        WithIdAppend(rows, [r.row], x);
        WithIdOne(r.row, x);
      }
    case BulkCreateItems(items, ids) =>
      if r.Created? {
        WithIdAppend(rows, r.rows, x);
      }
    case DeleteItem(id) =>
      WithoutIdOthers(rows, id, x);
      WithIdSingle(rows, id);
      hide WithId, WithoutId, HasId;
    case UpdateItem(id, name, description) =>
      RenewedOccurrences(rows, id, name, description, now, x);
      hide WithId, HasId;
    case _ =>
  }

  ghost function Creates(cfg: Config, w: World, events: seq<Event>, x: nat): nat {
    if events == [] then 0
    else Creates(cfg, w, events[..|events| - 1], x)
         + CreatedBy(events[|events| - 1].q, LastResponse(cfg, w, events), x)
  }

  ghost function Deletes(cfg: Config, w: World, events: seq<Event>, x: nat): nat {
    if events == [] then 0
    else Deletes(cfg, w, events[..|events| - 1], x)
         + DeletedBy(events[|events| - 1].q, LastResponse(cfg, w, events), x)
  }

  ghost function TotalCreates(cfg: Config, w: World, events: seq<Event>): nat {
    if events == [] then 0
    else TotalCreates(cfg, w, events[..|events| - 1])
         + CreatedCount(events[|events| - 1].q, LastResponse(cfg, w, events))
  }

  ghost function TotalDeletes(cfg: Config, w: World, events: seq<Event>): nat {
    if events == [] then 0
    else TotalDeletes(cfg, w, events[..|events| - 1])
         + DeletedCount(events[|events| - 1].q, LastResponse(cfg, w, events))
  }

  /** Conservation, per id and in total, over every interleaving: what is stored plus what deletes
      reported gone is what was stored before plus what creates and committed batches reported made.
      And a row that no request of the run created was there before, with the same `created_at`. */
  lemma {:induction false} Conservation(cfg: Config, w: World, events: seq<Event>, x: nat)
    requires UniqueIds(w.rows) && AllAdmitted(events)
    ensures var rows' := Reach(cfg, w, events).rows;
            && |WithId(rows', x)| + Deletes(cfg, w, events, x) == |WithId(w.rows, x)| + Creates(cfg, w, events, x)
            && |rows'| + TotalDeletes(cfg, w, events) == |w.rows| + TotalCreates(cfg, w, events)
            && (Creates(cfg, w, events, x) == 0 && WithId(rows', x) != [] ==>
                  WithId(w.rows, x) != [] && WithId(rows', x)[0].createdAt == WithId(w.rows, x)[0].createdAt)
  {
    hide Serve, Effect, UniqueIds, Admitted, WithId, CreatedBy, DeletedBy, CreatedCount, DeletedCount, LastResponse;
    if events != [] {
      var before, e := events[..|events| - 1], events[|events| - 1];
      Conservation(cfg, w, before, x);
      RunStep(cfg, w, before);
      RunStep(cfg, w, events);
      EffectConserves(Reach(cfg, w, before).rows, Reach(cfg, w, events).rows, e.q,
                      LastResponse(cfg, w, events), StampOf(e), x);
    }
  }

  /** `count()` after a run: the rows there were, plus creates and batch rows, minus deletes. */
  lemma CountAfterRun(cfg: Config, w: World, events: seq<Event>, e: Event)
    requires UniqueIds(w.rows) && AllAdmitted(events) && e.q == CountAll
    ensures var r := Serve(cfg, Reach(cfg, w, events), e.q, e.ms, e.batch).1;
            (r.Raised? || r.Total?) &&
            (r.Total? ==> r.count + TotalDeletes(cfg, w, events) == |w.rows| + TotalCreates(cfg, w, events))
  {
    RunStep(cfg, w, events);
    Conservation(cfg, w, events, 0);
    ServeEffect(cfg, Reach(cfg, w, events), e);
    hide Serve, Reach, TotalCreates, TotalDeletes;
  }

  // ---------- Fresh ids ----------

  /** The request draws id x. */
  ghost predicate Draws(q: Request, x: nat) {
    (q.CreateItem? && q.id == x)
    || (q.BulkCreateItems? && exists i | 0 <= i < |q.items| :: q.ids(i) == x)
  }

  /** How many requests of the run draw id x. */
  ghost function Drawn(events: seq<Event>, x: nat): nat {
    if events == [] then 0
    else Drawn(events[..|events| - 1], x) + (if Draws(events[|events| - 1].q, x) then 1 else 0)
  }

  lemma CreatedIfDrawn(rows: seq<Row>, rows': seq<Row>, q: Request, r: Response, now: int, x: nat)
    requires UniqueIds(rows) && Effect(rows, rows', q, r, now)
    ensures CreatedBy(q, r, x) <= if Draws(q, x) then 1 else 0
  {
    if q.BulkCreateItems? && r.Created? {
      BatchUnique(rows, q.items, q.ids, now);
      WithIdSingle(r.rows, x);
      if HasId(r.rows, x) {
        var i :| 0 <= i < |r.rows| && r.rows[i].id == x;
        assert r.rows[i] == BatchRow(q.items, q.ids, now, i);
        assert q.ids(i) == x;
      }
    }
  }

  lemma {:induction false} CreatesIfDrawn(cfg: Config, w: World, events: seq<Event>, x: nat)
    requires UniqueIds(w.rows) && AllAdmitted(events)
    ensures Creates(cfg, w, events, x) <= Drawn(events, x)
  {
    hide Serve, Effect, UniqueIds, Admitted, CreatedBy, Draws, LastResponse;
    if events != [] {
      var before, e := events[..|events| - 1], events[|events| - 1];
      CreatesIfDrawn(cfg, w, before, x);
      RunStep(cfg, w, before);
      RunStep(cfg, w, events);
      CreatedIfDrawn(Reach(cfg, w, before).rows, Reach(cfg, w, events).rows, e.q,
                     LastResponse(cfg, w, events), StampOf(e), x);
    }
  }

  /** With fresh ids (no id is drawn twice, nor drawn when already stored) each id is successfully
      deleted at most once, and never while a row with it remains. */
  lemma DeletedAtMostOnce(cfg: Config, w: World, events: seq<Event>, x: nat)
    requires UniqueIds(w.rows) && AllAdmitted(events)
    requires Drawn(events, x) + |WithId(w.rows, x)| <= 1
    ensures Deletes(cfg, w, events, x) + |WithId(Reach(cfg, w, events).rows, x)| <= 1
  {
    Conservation(cfg, w, events, x);
    CreatesIfDrawn(cfg, w, events, x);
    hide Creates, Deletes, Reach, WithId, Drawn;
  }

  lemma {:induction false} ReachAppend(cfg: Config, w: World, a: seq<Event>, b: seq<Event>)
    ensures Reach(cfg, w, a + b) == Reach(cfg, Reach(cfg, w, a), b)
  {
    hide Serve;
    if b == [] {
      assert a + b == a;
    } else {
      assert (a + b)[..|a + b| - 1] == a + b[..|b| - 1];
      ReachAppend(cfg, w, a, b[..|b| - 1]);
    }
  }

  lemma {:induction false} DrawnAppend(a: seq<Event>, b: seq<Event>, x: nat)
    ensures Drawn(a + b, x) == Drawn(a, x) + Drawn(b, x)
  {
    hide Draws;
    if b == [] {
      assert a + b == a;
    } else {
      assert (a + b)[..|a + b| - 1] == a + b[..|b| - 1];
      DrawnAppend(a, b[..|b| - 1], x);
    }
  }

  /** With fresh ids a row's `created_at` never changes: whenever an id is stored at two points of a
      run, both rows carry the same one. */
  lemma CreatedAtNeverChanges(cfg: Config, w: World, a: seq<Event>, b: seq<Event>, x: nat)
    requires UniqueIds(w.rows) && AllAdmitted(a) && AllAdmitted(b)
    requires Drawn(a + b, x) + |WithId(w.rows, x)| <= 1
    requires WithId(Reach(cfg, w, a).rows, x) != [] && WithId(Reach(cfg, w, a + b).rows, x) != []
    ensures WithId(Reach(cfg, w, a).rows, x)[0].createdAt == WithId(Reach(cfg, w, a + b).rows, x)[0].createdAt
  {
    hide Reach, WithId, Drawn, Creates, Deletes, UniqueIds, Admitted;
    var mid := Reach(cfg, w, a);
    RunStep(cfg, w, a);
    ReachAppend(cfg, w, a, b);
    DrawnAppend(a, b, x);
    Conservation(cfg, w, a, x);
    CreatesIfDrawn(cfg, w, a, x);
    CreatesIfDrawn(cfg, mid, b, x);
    Conservation(cfg, mid, b, x);
  }

  // ---------- Not found ----------

  /** The statement of this request takes effect: it reaches the database, and texts to be stored fit. */
  predicate Executed(cfg: Config, w: World, e: Event) {
    Reached(cfg, w, e.ms(1)) && (e.q.UpdateItem? ==> TextsFit(e.q.newName, e.q.newDescription))
  }

  /** A request for one row raises NotFoundError exactly when its statement is executed and the id is
      absent at that step; a database failure, whatever it is, is never reported as NotFound. */
  lemma NotFoundExactly(cfg: Config, w: World, e: Event)
    requires UniqueIds(w.rows) && Admitted(e.q)
    requires e.q.GetItem? || e.q.UpdateItem? || e.q.DeleteItem?
    ensures var r := Serve(cfg, w, e.q, e.ms, e.batch).1;
            r.Raised? && IsInstance(r.error, {NotFound}) <==> Executed(cfg, w, e) && !HasId(w.rows, e.q.id)
  {
    assert NotFound in ITEM_NOT_FOUND.classes * {NotFound};
    var s := match e.q
      case GetItem(id) => SelectById(id)
      case UpdateItem(id, name, description) => UpdateStatementFor(id, UpdateFields(name, description))
      case DeleteItem(id) => DeleteById(id)
      case _ => Statement.CountItems;
    AskEffect(cfg, w, s, e.ms);
    match e.q
    case GetItem(_) => ReadEffect(cfg, w, e); hide QueryRun, Execute, Effect, Reached, UpdateStatementFor;
    case UpdateItem(_, name, description) =>
      UpdateEffect(cfg, w, e);
      UpdateFound(w.rows, e.q.id, name, description, e.ms(1).now, e.ms(1).tie);
      hide QueryRun, Execute, Effect, Reached, TextsFit, UpdateStatementFor, RenewedTable, WithId;
    case DeleteItem(_) => DeleteEffect(cfg, w, e); hide QueryRun, Execute, Effect, Reached, UpdateStatementFor;
  }

  // ---------- Behind an open breaker ----------

  /** While the breaker is open and its timeout has not passed, requests other than the bulk insert
      are all turned away and nothing moves: table, breaker and metrics stay as they are. */
  lemma {:induction false} OpenBreakerFreezes(cfg: Config, w: World, events: seq<Event>)
    requires w.breaker.state == Open
    requires forall i | 0 <= i < |events| ::
               !events[i].q.BulkCreateItems? && events[i].ms(1).startedAt < w.breaker.openedAt + cfg.timeout
    ensures Reach(cfg, w, events) == w
    ensures events != [] ==> LastResponse(cfg, w, events) == Raised(BREAKER_OPEN)
  {
    if events != [] {
      var before, e := events[..|events| - 1], events[|events| - 1];
      OpenBreakerFreezes(cfg, w, before);
      TurnedAway(cfg, w, e);
      hide Serve;
    }
  }

  lemma TurnedAway(cfg: Config, w: World, e: Event)
    requires w.breaker.state == Open && !e.q.BulkCreateItems?
    requires e.ms(1).startedAt < w.breaker.openedAt + cfg.timeout
    ensures Serve(cfg, w, e.q, e.ms, e.batch) == (w, Raised(BREAKER_OPEN))
  {
    var s := match e.q
      case CreateItem(id, name, description) => InsertItem(id, Some(name), description)
      case GetItem(id) => SelectById(id)
      case ListPage(limit, offset) => SelectPage(limit, offset)
      case UpdateItem(id, name, description) => UpdateStatementFor(id, UpdateFields(name, description))
      case DeleteItem(id) => DeleteById(id)
      case _ => Statement.CountItems;
    AskOnce(cfg, w, s, e.ms);
    assert Guarded(cfg, w, s, e.ms(1)) == (w, Failure(BREAKER_OPEN));
    hide QueryRun, Guarded, UpdateStatementFor;
  }
}
