/** Runs with a particular shape: a client paging through the list, and a bulk insert compared with
    the single creates it stands for. */
module ServedRuns {
  import opened Prelude
  import opened Rows
  import opened Pagination
  import opened ItemsTable
  import opened Database
  import opened Resilience
  import opened ItemRepository
  import opened ItemService
  import opened RequestEffects
  import opened ItemRuns

  // ---------- Paging ----------

  /** The page a list request is answered with is cut from some listing of the stored table, and the
      table is not touched. */
  lemma PageServed(cfg: Config, w: World, e: Event)
    requires e.q.ListPage?
    ensures var (w', r) := Serve(cfg, w, e.q, e.ms, e.batch);
            && w'.rows == w.rows
            && (r.PageOf? ==> r.rows == Page(Listing(w.rows, e.ms(1).tie), e.q.limit, e.q.offset))
            && (r.PageOf? ==> IsPage(r.rows, w.rows, e.q.limit, e.q.offset))
  {
    hide QueryRun, Reached, Page, Listing, IsPage;
    AskEffect(cfg, w, SelectPage(e.q.limit, e.q.offset), e.ms);
    PageIsPage(w.rows, e.ms(1).tie, e.q.limit, e.q.offset);
  }

  /** `list_items` sends its page and its count as two statements. Whatever run of other requests falls
      in between, the page is cut from the table at the first and the total differs from that table's
      size by what the run created and deleted; it is that size if the table is the same again. */
  lemma ListConsistent(cfg: Config, w: World, page: Event, between: seq<Event>, total: Event)
    requires UniqueIds(w.rows) && AllAdmitted(between)
    requires page.q.ListPage? && total.q == CountAll
    ensures var (w1, r1) := Serve(cfg, w, page.q, page.ms, page.batch);
            var w2 := Reach(cfg, w1, between);
            var (w3, r2) := Serve(cfg, w2, total.q, total.ms, total.batch);
            && w1.rows == w.rows && w3.rows == w2.rows
            && (r1.PageOf? ==> IsPage(r1.rows, w.rows, page.q.limit, page.q.offset))
            && (r2.Total? ==>
                  r2.count + TotalDeletes(cfg, w1, between) == |w.rows| + TotalCreates(cfg, w1, between))
            && (r2.Total? && w2.rows == w.rows ==> r2.count == |w.rows|)
  {
    PageServed(cfg, w, page);
    var w1 := Serve(cfg, w, page.q, page.ms, page.batch).0;
    CountAfterRun(cfg, w1, between, total);
    CountServed(cfg, Reach(cfg, w1, between), total);
    hide Serve, Page, Listing, IsPage, Reach, TotalCreates, TotalDeletes, UniqueIds;
  }

  lemma CountServed(cfg: Config, w: World, e: Event)
    requires e.q == CountAll
    ensures var (w', r) := Serve(cfg, w, e.q, e.ms, e.batch);
            w'.rows == w.rows && (r.Total? ==> r.count == |w.rows|)
  {
    AskEffect(cfg, w, Statement.CountItems, e.ms);
    hide QueryRun, Reached;
  }

  /** What an event is to a client that calls `list_items` for one page after the other: the page or
      the count of one of its calls, or somebody else's request. */
  datatype Role = PageAsked | CountAsked | Other

  function Asked(roles: seq<Role>, role: Role): nat {
    if roles == [] then 0
    else Asked(roles[..|roles| - 1], role) + (if roles[|roles| - 1] == role then 1 else 0)
  }

  /** The offset of page k. */
  function OffsetOf(k: nat, limit: nat): nat {
    k * limit
  }

  /** The client calls `list_items` for pages 0, 1, 2, ..., each call being a page and then a count,
      and is answered every time. Any requests of others may come in between, also between a page and
      its count, as long as the client's own statements find the table it began with. */
  ghost predicate ListingRun(cfg: Config, w: World, events: seq<Event>, roles: seq<Role>, limit: nat)
    requires |roles| == |events|
  {
    events != [] ==>
      var n := |events| - 1;
      var pages, counts := Asked(roles[..n], PageAsked), Asked(roles[..n], CountAsked);
      && ListingRun(cfg, w, events[..n], roles[..n], limit)
      && (roles[n] != Other ==> Reach(cfg, w, events[..n]).rows == w.rows)
      && (roles[n] == PageAsked ==>
            pages == counts && events[n].q == ListPage(limit, OffsetOf(pages, limit))
            && LastResponse(cfg, w, events).PageOf?)
      && (roles[n] == CountAsked ==>
            pages == counts + 1 && events[n].q == CountAll && LastResponse(cfg, w, events).Total?)
  }

  /** The rows of the client's pages, in order. */
  ghost function PagesServed(cfg: Config, w: World, events: seq<Event>, roles: seq<Role>): seq<Row>
    requires |roles| == |events|
  {
    if events == [] then []
    else
      var n, r := |events| - 1, LastResponse(cfg, w, events);
      PagesServed(cfg, w, events[..n], roles[..n]) + (if roles[n] == PageAsked && r.PageOf? then r.rows else [])
  }

  /** Its totals, in order. */
  ghost function TotalsServed(cfg: Config, w: World, events: seq<Event>, roles: seq<Role>): seq<nat>
    requires |roles| == |events|
  {
    if events == [] then []
    else
      var n, r := |events| - 1, LastResponse(cfg, w, events);
      TotalsServed(cfg, w, events[..n], roles[..n]) + (if roles[n] == CountAsked && r.Total? then [r.count] else [])
  }

  lemma {:induction false} FetchedGrows(listings: seq<seq<Row>>, q: seq<Row>, limit: nat, n: nat)
    requires n <= |listings|
    ensures PagesInTurn(listings + [q], limit, n) == PagesInTurn(listings, limit, n)
  {
    if n > 0 {
      FetchedGrows(listings, q, limit, n - 1);
    }
  }

  lemma {:induction false} PagesAreFetched(cfg: Config, w: World, events: seq<Event>, roles: seq<Role>, limit: nat)
    returns (listings: seq<seq<Row>>)
    requires |roles| == |events| && ListingRun(cfg, w, events, roles, limit)
    ensures |listings| == Asked(roles, PageAsked) && AllListings(listings, w.rows)
    ensures PagesServed(cfg, w, events, roles) == PagesInTurn(listings, limit, |listings|)
  {
    hide Serve, Listing, Page, IsListing, Reach;
    if events == [] {
      listings := [];
    } else {
      var n := |events| - 1;
      var before, e := events[..n], events[n];
      listings := PagesAreFetched(cfg, w, before, roles[..n], limit);
      if roles[n] == PageAsked {
        var q := Listing(w.rows, e.ms(1).tie);
        ListingIsListing(w.rows, e.ms(1).tie);
        PageServed(cfg, Reach(cfg, w, before), e);
        FetchedGrows(listings, q, limit, |listings|);
        listings := listings + [q];
      }
    }
  }

  lemma {:induction false} TotalsAreSizes(cfg: Config, w: World, events: seq<Event>, roles: seq<Role>, limit: nat)
    requires |roles| == |events| && ListingRun(cfg, w, events, roles, limit)
    ensures var totals := TotalsServed(cfg, w, events, roles);
            |totals| == Asked(roles, CountAsked) && forall i | 0 <= i < |totals| :: totals[i] == |w.rows|
  {
    hide Serve, Reach;
    if events != [] {
      var n := |events| - 1;
      TotalsAreSizes(cfg, w, events[..n], roles[..n], limit);
      if roles[n] == CountAsked {
        CountServed(cfg, Reach(cfg, w, events[..n]), events[n]);
      }
    }
  }

  /** A client that lists a table no tie of which crosses a page boundary, page after page, gets every
      row exactly once; with pairwise different time stamps it gets them newest first. Every total it
      gets is the number of rows. */
  lemma PagingComplete(cfg: Config, w: World, events: seq<Event>, roles: seq<Role>, limit: nat, p: seq<Row>)
    requires UniqueIds(w.rows) && IsListing(p, w.rows) && limit > 0
    requires |roles| == |events| && ListingRun(cfg, w, events, roles, limit)
    requires Asked(roles, PageAsked) * limit >= |w.rows|
    ensures NoTieAcrossPages(p, limit) ==> multiset(PagesServed(cfg, w, events, roles)) == multiset(w.rows)
    ensures DistinctTimes(w.rows) ==> PagesServed(cfg, w, events, roles) == p
    ensures var totals := TotalsServed(cfg, w, events, roles);
            |totals| == Asked(roles, CountAsked) && forall i | 0 <= i < |totals| :: totals[i] == |w.rows|
  {
    hide ListingRun, PagesServed, TotalsServed, Reach, NoTieAcrossPages, PagesInTurn, IsListing, DistinctTimes,
      UniqueIds, Asked;
    TotalsAreSizes(cfg, w, events, roles, limit);
    var listings := PagesAreFetched(cfg, w, events, roles, limit);
    PagesPartitionIff(w.rows, p, limit, |listings|);
    if DistinctTimes(w.rows) {
      DistinctTimesPaging(w.rows, p, listings, limit);
    }
  }

  /** A moment at which any breaker lets the call through and the database answers. */
  function Clear(cfg: Config, w: World, now: int, tie: Row -> int): Moment {
    var at := w.breaker.openedAt + cfg.timeout;
    Moment(at, at, true, None, now, tie)
  }

  function NoBatch(): Batch {
    Batch(false, None, (k: nat) => None, None, 0)
  }

  function PageEvent(cfg: Config, w: World, limit: nat, k: nat, tie: Row -> int): Event {
    Event(ListPage(limit, OffsetOf(k, limit)), (j: nat) => Clear(cfg, w, 0, tie), NoBatch())
  }

  function CountEvent(cfg: Config, w: World): Event {
    Event(CountAll, (j: nat) => Clear(cfg, w, 0, NoTies()), NoBatch())
  }

  lemma PageAnswered(cfg: Config, w: World, limit: nat, k: nat, tie: Row -> int)
    ensures var e := PageEvent(cfg, w, limit, k, tie);
            var (w', r) := Serve(cfg, w, e.q, e.ms, e.batch);
            w'.rows == w.rows && r == PageOf(Page(Listing(w.rows, tie), limit, OffsetOf(k, limit)))
  {
    var e := PageEvent(cfg, w, limit, k, tie);
    assert e.ms(1) == Clear(cfg, w, 0, tie);
    PageServed(cfg, w, e);
    AskEffect(cfg, w, SelectPage(limit, OffsetOf(k, limit)), e.ms);
    hide QueryRun, Page, Listing, OffsetOf;
  }

  lemma CountAnswered(cfg: Config, w: World)
    ensures var e := CountEvent(cfg, w);
            var (w', r) := Serve(cfg, w, e.q, e.ms, e.batch);
            w'.rows == w.rows && r == Total(|w.rows|)
  {
    var e := CountEvent(cfg, w);
    assert e.ms(1) == Clear(cfg, w, 0, NoTies());
    AskEffect(cfg, w, Statement.CountItems, e.ms);
    hide QueryRun;
  }

  lemma PageAppended(cfg: Config, w: World, events: seq<Event>, roles: seq<Role>, limit: nat, page: Event)
    requires |roles| == |events| && ListingRun(cfg, w, events, roles, limit) && Reach(cfg, w, events).rows == w.rows
    requires Asked(roles, PageAsked) == Asked(roles, CountAsked)
    requires page.q == ListPage(limit, OffsetOf(Asked(roles, PageAsked), limit))
    requires Serve(cfg, Reach(cfg, w, events), page.q, page.ms, page.batch).1.PageOf?
    ensures var events', roles' := events + [page], roles + [PageAsked];
            var (w', r) := Serve(cfg, Reach(cfg, w, events), page.q, page.ms, page.batch);
            && ListingRun(cfg, w, events', roles', limit) && Reach(cfg, w, events') == w'
            && Asked(roles', PageAsked) == Asked(roles, PageAsked) + 1
            && Asked(roles', CountAsked) == Asked(roles, CountAsked)
            && PagesServed(cfg, w, events', roles') == PagesServed(cfg, w, events, roles) + r.rows
  {
    hide Serve, OffsetOf;
    var events', roles' := events + [page], roles + [PageAsked];
    assert events'[..|events|] == events && roles'[..|roles|] == roles;
  }

  lemma CountAppended(cfg: Config, w: World, events: seq<Event>, roles: seq<Role>, limit: nat, total: Event)
    requires |roles| == |events| && ListingRun(cfg, w, events, roles, limit) && Reach(cfg, w, events).rows == w.rows
    requires Asked(roles, PageAsked) == Asked(roles, CountAsked) + 1 && total.q == CountAll
    requires Serve(cfg, Reach(cfg, w, events), total.q, total.ms, total.batch).1.Total?
    ensures var events', roles' := events + [total], roles + [CountAsked];
            && ListingRun(cfg, w, events', roles', limit)
            && Reach(cfg, w, events') == Serve(cfg, Reach(cfg, w, events), total.q, total.ms, total.batch).0
            && Asked(roles', PageAsked) == Asked(roles, PageAsked)
            && Asked(roles', CountAsked) == Asked(roles, CountAsked) + 1
            && PagesServed(cfg, w, events', roles') == PagesServed(cfg, w, events, roles)
  {
    hide Serve;
    var events', roles' := events + [total], roles + [CountAsked];
    assert events'[..|events|] == events && roles'[..|roles|] == roles;
  }

  /** One more answered call of `list_items`, with the plan `tie` for its page. */
  lemma OneMoreCall(cfg: Config, w: World, events: seq<Event>, roles: seq<Role>, limit: nat, tie: Row -> int)
    returns (events': seq<Event>, roles': seq<Role>)
    requires |roles| == |events| && ListingRun(cfg, w, events, roles, limit)
    requires Reach(cfg, w, events).rows == w.rows && Asked(roles, PageAsked) == Asked(roles, CountAsked)
    ensures |roles'| == |events'| && ListingRun(cfg, w, events', roles', limit)
    ensures Reach(cfg, w, events').rows == w.rows
    ensures Asked(roles', PageAsked) == Asked(roles', CountAsked) == Asked(roles, PageAsked) + 1
    ensures PagesServed(cfg, w, events', roles')
         == PagesServed(cfg, w, events, roles) + Page(Listing(w.rows, tie), limit, OffsetOf(Asked(roles, PageAsked), limit))
  {
    hide Serve, Page, Listing, OffsetOf, PageEvent, CountEvent, ListingRun, Reach, Asked, PagesServed;
    var k, w1 := Asked(roles, PageAsked), Reach(cfg, w, events);
    var page := PageEvent(cfg, w1, limit, k, tie);
    PageEventAsks(cfg, w1, limit, k, tie);
    PageAnswered(cfg, w1, limit, k, tie);
    PageAppended(cfg, w, events, roles, limit, page);
    events', roles' := events + [page], roles + [PageAsked];
    var w2 := Reach(cfg, w, events');
    CountEventAsks(cfg, w2);
    CountAnswered(cfg, w2);
    CountAppended(cfg, w, events', roles', limit, CountEvent(cfg, w2));
    events', roles' := events' + [CountEvent(cfg, w2)], roles' + [CountAsked];
  }

  lemma PageEventAsks(cfg: Config, w: World, limit: nat, k: nat, tie: Row -> int)
    ensures PageEvent(cfg, w, limit, k, tie).q == ListPage(limit, OffsetOf(k, limit))
  {
  }

  lemma CountEventAsks(cfg: Config, w: World)
    ensures CountEvent(cfg, w).q == CountAll
  {
  }

  /** Any choice of plans is met by some client's run of `list_items` calls. */
  lemma {:induction false} RunWithPlans(cfg: Config, w: World, limit: nat, ties: seq<Row -> int>)
    returns (events: seq<Event>, roles: seq<Role>)
    ensures |roles| == |events| && ListingRun(cfg, w, events, roles, limit) && Reach(cfg, w, events).rows == w.rows
    ensures Asked(roles, PageAsked) == Asked(roles, CountAsked) == |ties|
    ensures PagesServed(cfg, w, events, roles) == PagesInTurn(Planned(w.rows, ties), limit, |ties|)
  {
    hide Serve, Page, Listing, OffsetOf;
    if ties == [] {
      events, roles := [], [];
    } else {
      var n := |ties| - 1;
      events, roles := RunWithPlans(cfg, w, limit, ties[..n]);
      hide ListingRun, Reach, PagesServed, Asked, PagesInTurn;
      events, roles := OneMoreCall(cfg, w, events, roles, limit, ties[n]);
      PagesOneMore(w.rows, ties, limit);
    }
  }

  lemma PagesOneMore(rows: seq<Row>, ties: seq<Row -> int>, limit: nat)
    requires ties != []
    ensures var n := |ties| - 1;
            PagesInTurn(Planned(rows, ties), limit, n + 1)
            == PagesInTurn(Planned(rows, ties[..n]), limit, n) + Page(Listing(rows, ties[n]), limit, OffsetOf(n, limit))
  {
    hide Page, Listing;
    var n := |ties| - 1;
    assert Planned(rows, ties) == Planned(rows, ties[..n]) + [Listing(rows, ties[n])];
    FetchedGrows(Planned(rows, ties[..n]), Listing(rows, ties[n]), limit, n);
  }

  /** Otherwise some client's run of `list_items` calls is served a row twice: its pages do not add up
      to the table, although every total it gets does. */
  lemma PagingMayFail(cfg: Config, w: World, p: seq<Row>, limit: nat, n: nat)
    returns (events: seq<Event>, roles: seq<Role>)
    requires UniqueIds(w.rows) && IsListing(p, w.rows) && limit > 0 && n * limit >= |w.rows|
    requires !NoTieAcrossPages(p, limit)
    ensures |roles| == |events| && ListingRun(cfg, w, events, roles, limit)
    ensures Asked(roles, PageAsked) == Asked(roles, CountAsked) == n
    ensures multiset(PagesServed(cfg, w, events, roles)) != multiset(w.rows)
    ensures var totals := TotalsServed(cfg, w, events, roles);
            |totals| == n && forall i | 0 <= i < n :: totals[i] == |w.rows|
  {
    PagesPartitionIff(w.rows, p, limit, n);
    hide UniqueIds, IsListing, PagesInTurn, Listing, NoTieAcrossPages, ListingRun, PagesServed, TotalsServed, Asked;
    var listings: seq<seq<Row>> :| |listings| == n && AllListings(listings, w.rows)
      && multiset(PagesInTurn(listings, limit, n)) != multiset(w.rows);
    var ties := PlansFor(w.rows, listings);
    events, roles := RunWithPlans(cfg, w, limit, ties);
    TotalsAreSizes(cfg, w, events, roles, limit);
  }

  /** Every client that completes n calls of `list_items` in this way is served each row once. */
  ghost predicate PagingSound(cfg: Config, w: World, limit: nat, n: nat) {
    forall events: seq<Event>, roles: seq<Role> |
        && |roles| == |events| && ListingRun(cfg, w, events, roles, limit)
        && Asked(roles, PageAsked) == n && Asked(roles, CountAsked) == n ::
      multiset(PagesServed(cfg, w, events, roles)) == multiset(w.rows)
  }

  /** Paging with `list_items` is sound, for every client whose statements all find the table it began
      with, if and only if no page boundary falls between two rows with the same `created_at`. */
  lemma PagingSoundIff(cfg: Config, w: World, p: seq<Row>, limit: nat, n: nat)
    requires UniqueIds(w.rows) && IsListing(p, w.rows) && limit > 0 && n * limit >= |w.rows|
    ensures PagingSound(cfg, w, limit, n) <==> NoTieAcrossPages(p, limit)
  {
    hide UniqueIds, IsListing, NoTieAcrossPages, ListingRun, PagesServed, Asked;
    if NoTieAcrossPages(p, limit) {
      forall events: seq<Event>, roles: seq<Role> |
          && |roles| == |events| && ListingRun(cfg, w, events, roles, limit)
          && Asked(roles, PageAsked) == n && Asked(roles, CountAsked) == n
        ensures multiset(PagesServed(cfg, w, events, roles)) == multiset(w.rows)
      {
        PagingComplete(cfg, w, events, roles, limit, p);
      }
    } else {
      var events, roles := PagingMayFail(cfg, w, p, limit, n);
    }
  }

  // ---------- One batch or many creates ----------

  /** Event k creates item k with the batch's id and time stamp, and succeeds. */
  ghost predicate CreatedInTurn(cfg: Config, w: World, events: seq<Event>, items: seq<ItemData>,
                                ids: nat -> nat, now: int)
  {
    events != [] ==>
      var n := |events| - 1;
      && CreatedInTurn(cfg, w, events[..n], items, ids, now)
      && n < |items| && "name" in items[n] && items[n]["name"].Some?
      && events[n].q == CreateItem(ids(n), items[n]["name"].value, DescriptionOf(items[n]))
      && StampOf(events[n]) == now
      && LastResponse(cfg, w, events).Item?
  }

  /** The rows the creates were answered with. */
  ghost function ItemsReturned(cfg: Config, w: World, events: seq<Event>): seq<Row> {
    if events == [] then []
    else
      var r := LastResponse(cfg, w, events);
      ItemsReturned(cfg, w, events[..|events| - 1]) + (if r.Item? then [r.row] else [])
  }

  lemma CreateStep(cfg: Config, w: World, e: Event)
    requires e.q.CreateItem? && Serve(cfg, w, e.q, e.ms, e.batch).1.Item?
    ensures var row := Row(e.q.id, e.q.name, e.q.description, StampOf(e), StampOf(e));
            var (w', r) := Serve(cfg, w, e.q, e.ms, e.batch);
            !HasId(w.rows, e.q.id) && TextsFit(Some(e.q.name), e.q.description) && r == Item(row) && w'.rows == w.rows + [row]
  {
    CreateEffect(cfg, w, e);
    AskEffect(cfg, w, InsertItem(e.q.id, Some(e.q.name), e.q.description), e.ms);
    hide QueryRun, Reached;
  }

  lemma NewToBatch(rows: seq<Row>, items: seq<ItemData>, ids: nat -> nat, now: int, n: nat)
    requires n < |items|
    ensures !HasId(rows + BatchRows(items, ids, now, 0)[..n], ids(n))
        <==> !HasId(rows, ids(n)) && forall j | 0 <= j < n :: ids(j) != ids(n)
  {
    var made := BatchRows(items, ids, now, 0)[..n];
    forall j | 0 <= j < n
      ensures made[j].id == ids(j)
    {
      assert made[j] == BatchRow(items, ids, now, j);
    }
    HasIdConcat(rows, made, ids(n));
    assert HasId(made, ids(n)) <==> exists j | 0 <= j < n :: ids(j) == ids(n) by {
      if j :| 0 <= j < n && ids(j) == ids(n) {
        assert made[j].id == ids(n);
      }
    }
  }

  lemma HasIdConcat(a: seq<Row>, b: seq<Row>, id: nat)
    ensures HasId(a + b, id) <==> HasId(a, id) || HasId(b, id)
  {
    if i :| 0 <= i < |a| && a[i].id == id {
      assert (a + b)[i].id == id;
    }
    if i :| 0 <= i < |b| && b[i].id == id {
      assert (a + b)[|a| + i].id == id;
    }
    if i :| 0 <= i < |a + b| && (a + b)[i].id == id {
      if i < |a| {
        assert a[i].id == id;
      } else {
        assert b[i - |a|].id == id;
      }
    }
  }

  lemma RowOfItem(items: seq<ItemData>, ids: nat -> nat, now: int, k: nat)
    requires k < |items| && "name" in items[k] && items[k]["name"].Some?
    ensures BatchRow(items, ids, now, k) == Row(ids(k), items[k]["name"].value, DescriptionOf(items[k]), now, now)
  {
  }

  /** What a run of creates builds: the table and the answers of the batch so far. */
  lemma {:induction false} CreatesBuildBatch(cfg: Config, w: World, events: seq<Event>, items: seq<ItemData>,
                                             ids: nat -> nat, b: Batch)
    requires |events| <= |items| && CreatedInTurn(cfg, w, events, items, ids, b.now)
    ensures var made := BatchRows(items, ids, b.now, 0)[..|events|];
            Reach(cfg, w, events).rows == w.rows + made && ItemsReturned(cfg, w, events) == made
  {
    hide Serve, BatchRow, HasId, DescriptionOf, TextsFit;
    var made := BatchRows(items, ids, b.now, 0);
    if events == [] {
      assert w.rows + made[..0] == w.rows;
    } else {
      var n := |events| - 1;
      var before, e := events[..n], events[n];
      CreatesBuildBatch(cfg, w, before, items, ids, b);
      CreateStep(cfg, Reach(cfg, w, before), e);
      RowOfItem(items, ids, b.now, n);
      hide Reach, ItemsReturned, CreatedInTurn;
      assert made[..n + 1] == made[..n] + [made[n]];
      assert w.rows + made[..n] + [made[n]] == w.rows + made[..n + 1];
    }
  }

  /** Items that were created one by one can be inserted by the batch. */
  lemma {:induction false} CreatedAreInsertable(cfg: Config, w: World, events: seq<Event>, items: seq<ItemData>,
                                                ids: nat -> nat, b: Batch)
    requires |events| <= |items| && CreatedInTurn(cfg, w, events, items, ids, b.now)
    ensures forall i | 0 <= i < |events| && b.faults(i).None? :: Insertable(w.rows, items, ids, b, 0, i)
  {
    hide Serve, Reach, HasId, DescriptionOf, NameFits, Storable, BatchRows;
    if events != [] {
      var n := |events| - 1;
      CreatedAreInsertable(cfg, w, events[..n], items, ids, b);
      CreatesBuildBatch(cfg, w, events[..n], items, ids, b);
      CreateStep(cfg, Reach(cfg, w, events[..n]), events[n]);
      NewToBatch(w.rows, items, ids, b.now, n);
    }
  }

  function CreateEvent(cfg: Config, w: World, items: seq<ItemData>, ids: nat -> nat, now: int, k: nat): Event
    requires k < |items| && "name" in items[k] && items[k]["name"].Some?
  {
    Event(CreateItem(ids(k), items[k]["name"].value, DescriptionOf(items[k])),
          (j: nat) => Clear(cfg, w, now, (r: Row) => 0), NoBatch())
  }

  lemma CreateAnswered(cfg: Config, w: World, items: seq<ItemData>, ids: nat -> nat, now: int, k: nat)
    requires k < |items| && "name" in items[k] && items[k]["name"].Some?
    requires TextsFit(items[k]["name"], DescriptionOf(items[k])) && !HasId(w.rows, ids(k))
    ensures var e := CreateEvent(cfg, w, items, ids, now, k);
            Serve(cfg, w, e.q, e.ms, e.batch).1.Item? && StampOf(e) == now
  {
    var e := CreateEvent(cfg, w, items, ids, now, k);
    assert e.ms(1) == Clear(cfg, w, now, (r: Row) => 0);
    AskEffect(cfg, w, InsertItem(e.q.id, Some(e.q.name), e.q.description), e.ms);
    hide QueryRun, HasId;
  }

  /** The first n items of an insertable batch can be created one by one, from any state of the
      breaker. */
  lemma {:induction false} CreatesForBatch(cfg: Config, w: World, items: seq<ItemData>, ids: nat -> nat, b: Batch,
                                           n: nat) returns (events: seq<Event>)
    requires n <= |items| && AllInsertable(w.rows, items, ids, b, 0)
    ensures |events| == n && CreatedInTurn(cfg, w, events, items, ids, b.now)
  {
    hide Serve, HasId, DescriptionOf, BatchRow;
    if n == 0 {
      events := [];
    } else {
      var before := CreatesForBatch(cfg, w, items, ids, b, n - 1);
      CreatesBuildBatch(cfg, w, before, items, ids, b);
      assert Insertable(w.rows, items, ids, b, 0, n - 1);
      NewToBatch(w.rows, items, ids, b.now, n - 1);
      var reached := Reach(cfg, w, before);
      CreateAnswered(cfg, reached, items, ids, b.now, n - 1);
      var e := CreateEvent(cfg, reached, items, ids, b.now, n - 1);
      events := before + [e];
      assert events[..n - 1] == before;
    }
  }

  /** The connection serves the whole transaction. */
  ghost predicate HoldsUp(items: seq<ItemData>, b: Batch) {
    b.poolReady && b.begin.None? && b.commit.None? && forall i | 0 <= i < |items| :: b.faults(i).None?
  }

  lemma CommitsIffInsertable(rows: seq<Row>, items: seq<ItemData>, ids: nat -> nat, b: Batch)
    requires HoldsUp(items, b)
    ensures Commits(rows, items, ids, b) <==> AllInsertable(rows, items, ids, b, 0)
  {
    hide AllInsertable;
  }

  lemma CommitsOnlyIfHoldsUp(rows: seq<Row>, items: seq<ItemData>, ids: nat -> nat, b: Batch)
    requires Commits(rows, items, ids, b)
    ensures HoldsUp(items, b)
  {
    forall i | 0 <= i < |items|
      ensures b.faults(i).None?
    {
      assert Insertable(rows, items, ids, b, 0, i);
    }
  }

  /** Bulk insert and single creates refine each other. A batch commits if and only if its connection
      holds up and its items can be created one by one, with the batch's ids and time stamp, by some
      run of create requests; and any such run leaves the batch's table and returns its rows. */
  lemma BulkIffCreates(cfg: Config, w: World, items: seq<ItemData>, ids: nat -> nat, b: Batch)
    ensures Commits(w.rows, items, ids, b) <==>
            HoldsUp(items, b)
            && exists events :: |events| == |items| && CreatedInTurn(cfg, w, events, items, ids, b.now)
    ensures HoldsUp(items, b) ==>
            forall events | |events| == |items| && CreatedInTurn(cfg, w, events, items, ids, b.now) ::
              BulkInsert(w.rows, items, ids, b)
              == (Reach(cfg, w, events).rows, Success(ItemsReturned(cfg, w, events)))
  {
    hide CreatedInTurn, Insertable, AllInsertable, Commits, HoldsUp, Reach, ItemsReturned, BulkInsert;
    if Commits(w.rows, items, ids, b) {
      CommitsOnlyIfHoldsUp(w.rows, items, ids, b);
      CommitsIffInsertable(w.rows, items, ids, b);
      var events := CreatesForBatch(cfg, w, items, ids, b, |items|);
    }
    if HoldsUp(items, b) {
      forall events | |events| == |items| && CreatedInTurn(cfg, w, events, items, ids, b.now)
        ensures Commits(w.rows, items, ids, b)
        ensures BulkInsert(w.rows, items, ids, b)
             == (Reach(cfg, w, events).rows, Success(ItemsReturned(cfg, w, events)))
      {
        BulkRefinesCreates(cfg, w, events, items, ids, b);
      }
    }
  }

  lemma BulkRefinesCreates(cfg: Config, w: World, events: seq<Event>, items: seq<ItemData>, ids: nat -> nat, b: Batch)
    requires |events| == |items| && CreatedInTurn(cfg, w, events, items, ids, b.now) && HoldsUp(items, b)
    ensures Commits(w.rows, items, ids, b)
    ensures BulkInsert(w.rows, items, ids, b)
         == (Reach(cfg, w, events).rows, Success(ItemsReturned(cfg, w, events)))
  {
    hide CreatedInTurn, Reach, Insertable, BulkInsert, ItemsReturned;
    CreatesBuildBatch(cfg, w, events, items, ids, b);
    CreatedAreInsertable(cfg, w, events, items, ids, b);
    CommitsIffInsertable(w.rows, items, ids, b);
    var made := BatchRows(items, ids, b.now, 0);
    assert made[..|events|] == made;
    BulkExactly(w.rows, items, ids, b);
  }
}
