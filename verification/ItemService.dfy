/** The service layer: requests admitted by the schemas, turned into repository calls, with a missing
    row reported as NotFoundError. */
module ItemService {
  import opened Prelude
  import opened Errors
  import opened Rows
  import opened ItemsTable
  import opened Database
  import opened Resilience
  import opened ItemRepository

  /** One atomic request. `list_items` is two of them, a page and a count. The ids are those the
      `uuid4` calls of the request return. */
  datatype Request =
    | CreateItem(id: nat, name: string, description: Option<string>)
    | GetItem(id: nat)
    | ListPage(limit: nat, offset: nat)
    | CountAll
    | UpdateItem(id: nat, newName: Option<string>, newDescription: Option<string>)
    | DeleteItem(id: nat)
    | BulkCreateItems(items: seq<ItemData>, ids: nat -> nat)

  datatype Response =
    | Item(row: Row)
    | EmptyItem
    | PageOf(rows: seq<Row>)
    | Total(count: nat)
    | Deleted
    | Created(rows: seq<Row>)
    | Raised(error: PyError)

  const DESCRIPTION_LIMIT := 2000
  const BULK_LIMIT := 100
  const PAGE_LIMIT := 200

  predicate NameAdmitted(name: string) {
    1 <= |name| <= NAME_LIMIT
  }

  predicate DescriptionAdmitted(d: Option<string>) {
    d.Some? ==> |d.value| <= DESCRIPTION_LIMIT
  }

  /** What the Pydantic schemas and the pagination dependency let through. */
  predicate Admitted(q: Request) {
    match q
    case CreateItem(_, name, description) => NameAdmitted(name) && DescriptionAdmitted(description)
    case GetItem(_) => true
    case ListPage(limit, _) => 1 <= limit <= PAGE_LIMIT
    case CountAll => true
    case UpdateItem(_, name, description) =>
      (name.Some? ==> NameAdmitted(name.value)) && DescriptionAdmitted(description)
    case DeleteItem(_) => true
    case BulkCreateItems(items, _) =>
      1 <= |items| <= BULK_LIMIT
      && forall i | 0 <= i < |items| ::
           && "name" in items[i] && items[i]["name"].Some? && NameAdmitted(items[i]["name"].value)
           && DescriptionAdmitted(DescriptionOf(items[i]))
  }

  /** The admitted requests, number by number. */
  lemma AdmittedExactly(id: nat, description: Option<string>, limit: nat, offset: nat)
    ensures forall name :: Admitted(CreateItem(id, name, description)) <==>
              1 <= |name| <= 255 && (description.Some? ==> |description.value| <= 2000)
    ensures Admitted(UpdateItem(id, None, description)) <==> (description.Some? ==> |description.value| <= 2000)
    ensures forall name :: Admitted(UpdateItem(id, Some(name), description)) <==> Admitted(CreateItem(id, name, description))
    ensures Admitted(ListPage(limit, offset)) <==> 1 <= limit <= 200
    ensures Admitted(GetItem(id)) && Admitted(DeleteItem(id)) && Admitted(CountAll)
  {
  }

  /** The items of a bulk request with these names. */
  function Named(names: seq<string>, description: Option<string>): (items: seq<ItemData>)
    ensures |items| == |names|
    ensures forall i | 0 <= i < |names| :: items[i] == map["name" := Some(names[i]), "description" := description]
  {
    seq(|names|, i requires 0 <= i < |names| => map["name" := Some(names[i]), "description" := description])
  }

  /** A bulk request is admitted exactly if it has 1 to 100 items and each could be created by itself. */
  lemma BulkAdmitted(id: nat, ids: nat -> nat, names: seq<string>, description: Option<string>)
    ensures Admitted(BulkCreateItems(Named(names, description), ids)) <==>
            1 <= |names| <= 100 && forall i | 0 <= i < |names| :: Admitted(CreateItem(id, names[i], description))
  {
    hide NameAdmitted, DescriptionAdmitted;
    var items := Named(names, description);
    forall i | 0 <= i < |names|
      ensures "name" in items[i] && items[i]["name"] == Some(names[i]) && DescriptionOf(items[i]) == description
    {
    }
    hide Named, DescriptionOf;
  }

  /** The keyword arguments `update_item` passes on. */
  function UpdateFields(name: Option<string>, description: Option<string>): Fields {
    [("name", if name.Some? then Some(Text(name.value)) else None),
     ("description", if description.Some? then Some(Text(description.value)) else None)]
  }

  /** `raise NotFoundError` when the repository found nothing. */
  function FoundOr404(r: Result<Option<Row>, PyError>): Response {
    if r.Failure? then Raised(r.error)
    else if r.value.None? then Raised(ITEM_NOT_FOUND)
    else Item(r.value.value)
  }

  function Serve(cfg: Config, w: World, q: Request, ms: nat -> Moment, b: Batch): (World, Response) {
    match q
    case CreateItem(id, name, description) =>
      var (w', reply) := Ask(cfg, w, InsertItem(id, Some(name), description), ms);
      var r := OneRow(reply);
      (w', if r.Failure? then Raised(r.error) else if r.value.None? then EmptyItem else Item(r.value.value))
    case GetItem(id) =>
      var (w', reply) := Ask(cfg, w, SelectById(id), ms);
      (w', FoundOr404(OneRow(reply)))
    case ListPage(limit, offset) =>
      var (w', reply) := Ask(cfg, w, SelectPage(limit, offset), ms);
      var r := AllRows(reply);
      (w', if r.Failure? then Raised(r.error) else PageOf(r.value))
    case CountAll =>
      var (w', reply) := Ask(cfg, w, CountItems, ms);
      var r := OneValue(reply);
      (w', if r.Failure? then Raised(r.error) else Total(r.value))
    case UpdateItem(id, name, description) =>
      var (w', reply) := Ask(cfg, w, UpdateStatementFor(id, UpdateFields(name, description)), ms);
      (w', FoundOr404(OneRow(reply)))
    case DeleteItem(id) =>
      var (w', reply) := Ask(cfg, w, DeleteById(id), ms);
      var r := DeletedOne(reply);
      (w', if r.Failure? then Raised(r.error) else if r.value then Deleted else Raised(ITEM_NOT_FOUND))
    case BulkCreateItems(items, ids) =>
      var (rows, r) := BulkInsert(w.rows, items, ids, b);
      (w.(rows := rows), if r.Failure? then Raised(r.error) else Created(r.value))
  }

  /** The service object. `b` is what a transaction would meet and plays no part in the methods that
      take it as a ghost. */
  class ItemService {
    const repo: ItemRepository

    constructor (repo: ItemRepository)
      ensures this.repo == repo
    {
      this.repo := repo;
    }

    method CreateOne(id: nat, name: string, description: Option<string>, ms: nat -> Moment, ghost b: Batch)
      returns (r: Response)
      modifies repo.db
      ensures (repo.db.View(), r) == Serve(repo.db.cfg, old(repo.db.View()), CreateItem(id, name, description), ms, b)
    {
      hide Ask;
      var item := repo.Create(id, name, description, ms);
      if item.Failure? {
        return Raised(item.error);
      }
      r := if item.value.None? then EmptyItem else Item(item.value.value);
    }

    method GetOne(id: nat, ms: nat -> Moment, ghost b: Batch) returns (r: Response)
      modifies repo.db
      ensures (repo.db.View(), r) == Serve(repo.db.cfg, old(repo.db.View()), GetItem(id), ms, b)
    {
      hide Ask;
      var item := repo.GetById(id, ms);
      if item.Failure? {
        return Raised(item.error);
      }
      if item.value.None? {
        return Raised(ITEM_NOT_FOUND);
      }
      r := Item(item.value.value);
    }

    /** Two statements, `page` first; an error in either ends the call. */
    method ListItems(limit: nat, offset: nat, ms: nat -> Moment, ms': nat -> Moment, ghost b: Batch)
      returns (page: Response, total: Response)
      modifies repo.db
      ensures var cfg := repo.db.cfg;
              var (w1, r1) := Serve(cfg, old(repo.db.View()), ListPage(limit, offset), ms, b);
              page == r1
              && if r1.Raised? then repo.db.View() == w1 && total == r1
                 else (repo.db.View(), total) == Serve(cfg, w1, CountAll, ms', b)
    {
      hide Ask;
      var items := repo.ListAll(limit, offset, ms);
      if items.Failure? {
        return Raised(items.error), Raised(items.error);
      }
      page := PageOf(items.value);
      var count := repo.Count(ms');
      total := if count.Failure? then Raised(count.error) else Total(count.value);
    }

    method UpdateOne(id: nat, name: Option<string>, description: Option<string>, ms: nat -> Moment, ghost b: Batch)
      returns (r: Response)
      modifies repo.db
      ensures (repo.db.View(), r) == Serve(repo.db.cfg, old(repo.db.View()), UpdateItem(id, name, description), ms, b)
    {
      hide Ask;
      var item := repo.Update(id, UpdateFields(name, description), ms);
      if item.Failure? {
        return Raised(item.error);
      }
      if item.value.None? {
        return Raised(ITEM_NOT_FOUND);
      }
      r := Item(item.value.value);
    }

    method DeleteOne(id: nat, ms: nat -> Moment, ghost b: Batch) returns (r: Response)
      modifies repo.db
      ensures (repo.db.View(), r) == Serve(repo.db.cfg, old(repo.db.View()), DeleteItem(id), ms, b)
    {
      hide Ask;
      var deleted := repo.Delete(id, ms);
      if deleted.Failure? {
        return Raised(deleted.error);
      }
      if !deleted.value {
        return Raised(ITEM_NOT_FOUND);
      }
      r := Deleted;
    }

    method BulkCreate(items: seq<ItemData>, ids: nat -> nat, ghost ms: nat -> Moment, b: Batch) returns (r: Response)
      modifies repo.db
      ensures (repo.db.View(), r) == Serve(repo.db.cfg, old(repo.db.View()), BulkCreateItems(items, ids), ms, b)
    {
      hide BulkInsert;
      var created := repo.BulkCreate(items, ids, b);
      r := if created.Failure? then Raised(created.error) else Created(created.value);
    }
  }
}
