/** `ORDER BY created_at DESC LIMIT l OFFSET o`. The query fixes the order of rows with different
    time stamps only; rows that share one may come in any order, and in another order next time. */
module Pagination {
  import opened Prelude
  import opened Rows

  ghost predicate NewestFirst(rows: seq<Row>) {
    forall i, j | 0 <= i < j < |rows| :: rows[i].createdAt >= rows[j].createdAt
  }

  /** One of the results the unlimited query may have. */
  ghost predicate IsListing(listing: seq<Row>, rows: seq<Row>) {
    NewestFirst(listing) && multiset(listing) == multiset(rows)
  }

  // ---------- The sort, with the planner's choice among ties as a parameter ----------

  predicate Before(a: Row, b: Row, tie: Row -> int) {
    a.createdAt > b.createdAt || (a.createdAt == b.createdAt && tie(a) <= tie(b))
  }

  function Insert(row: Row, sorted: seq<Row>, tie: Row -> int): seq<Row> {
    if sorted == [] || Before(row, sorted[0], tie) then [row] + sorted
    else [sorted[0]] + Insert(row, sorted[1..], tie)
  }

  /** The listing a plan produces that breaks ties by `tie`. */
  function Listing(rows: seq<Row>, tie: Row -> int): seq<Row> {
    if rows == [] then [] else Insert(rows[0], Listing(rows[1..], tie), tie)
  }

  ghost predicate SortedBy(rows: seq<Row>, tie: Row -> int) {
    forall i, j | 0 <= i < j < |rows| :: Before(rows[i], rows[j], tie)
  }

  lemma {:induction false} InsertSorts(row: Row, sorted: seq<Row>, tie: Row -> int)
    requires SortedBy(sorted, tie)
    ensures SortedBy(Insert(row, sorted, tie), tie)
    ensures multiset(Insert(row, sorted, tie)) == multiset(sorted) + multiset{row}
  {
    if sorted == [] {
      assert Insert(row, sorted, tie) == [row];
    } else if Before(row, sorted[0], tie) {
      assert Insert(row, sorted, tie) == [row] + sorted;
    } else {
      var rest := Insert(row, sorted[1..], tie);
      InsertSorts(row, sorted[1..], tie);
      assert sorted == [sorted[0]] + sorted[1..];
      forall k | 0 <= k < |rest|
        ensures Before(sorted[0], rest[k], tie)
      {
        assert rest[k] in multiset(sorted[1..]) + multiset{row};
        if rest[k] != row {
          assert rest[k] in sorted[1..];
        }
      }
    }
  }

  lemma {:induction false} ListingSorts(rows: seq<Row>, tie: Row -> int)
    ensures SortedBy(Listing(rows, tie), tie) && multiset(Listing(rows, tie)) == multiset(rows)
  {
    if rows != [] {
      ListingSorts(rows[1..], tie);
      InsertSorts(rows[0], Listing(rows[1..], tie), tie);
      hide Insert, SortedBy;
      assert rows == [rows[0]] + rows[1..];
    }
  }

  /** Whatever the plan, the query returns every row, newest first. */
  lemma ListingIsListing(rows: seq<Row>, tie: Row -> int)
    ensures IsListing(Listing(rows, tie), rows)
  {
    ListingSorts(rows, tie);
  }

  lemma SameHead(p: seq<Row>, q: seq<Row>, tie: Row -> int)
    requires SortedBy(p, tie) && SortedBy(q, tie) && multiset(p) == multiset(q) && p != []
    requires forall x, y | x in q && y in q && tie(x) == tie(y) :: x == y
    ensures q != [] && p[0] == q[0]
  {
    assert p[0] in multiset(p);
    assert p[0] in q;
    assert q[0] in multiset(q);
    assert q[0] in p;
    var a :| 0 <= a < |q| && q[a] == p[0];
    var b :| 0 <= b < |p| && p[b] == q[0];
  }

  lemma Tail(p: seq<Row>)
    requires p != []
    ensures multiset(p[1..]) == multiset(p) - multiset{p[0]}
  {
    assert p == [p[0]] + p[1..];
  }

  lemma {:induction false} SortedOnce(p: seq<Row>, q: seq<Row>, tie: Row -> int)
    requires SortedBy(p, tie) && SortedBy(q, tie) && multiset(p) == multiset(q)
    requires forall x, y | x in q && y in q && tie(x) == tie(y) :: x == y
    ensures p == q
  {
    if p == [] {
      assert |multiset(q)| == 0;
    } else {
      SameHead(p, q, tie);
      Tail(p);
      Tail(q);
      hide Before;
      SortedOnce(p[1..], q[1..], tie);
      assert p == [p[0]] + p[1..] && q == [q[0]] + q[1..];
    }
  }

  function PositionIn(q: seq<Row>, r: Row): nat {
    if q == [] || q[0] == r then 0 else 1 + PositionIn(q[1..], r)
  }

  lemma {:induction false} PositionOf(q: seq<Row>, i: nat)
    requires i < |q| && forall j | 0 <= j < i :: q[j] != q[i]
    ensures PositionIn(q, q[i]) == i
  {
    if i > 0 {
      PositionOf(q[1..], i - 1);
    }
  }

  /** Every listing of a table with unique ids is what some plan returns. */
  lemma EveryListingIsPlanned(rows: seq<Row>, q: seq<Row>) returns (tie: Row -> int)
    requires UniqueIds(rows) && IsListing(q, rows)
    ensures Listing(rows, tie) == q
  {
    tie := r => PositionIn(q, r);
    UniqueIdsDistinct(rows);
    forall i, j | 0 <= i < j < |q|
      ensures q[i] != q[j]
    {
      if q[i] == q[j] {
        CountedTwice(q, i, j);
        assert false;
      }
    }
    forall i | 0 <= i < |q|
      ensures PositionIn(q, q[i]) == i
    {
      PositionOf(q, i);
    }
    ListingSorts(rows, tie);
    hide PositionIn, Listing;
    SortedOnce(Listing(rows, tie), q, tie);
  }

  lemma CountedTwice(q: seq<Row>, i: nat, j: nat)
    requires i < j < |q| && q[i] == q[j]
    ensures multiset(q)[q[i]] >= 2
  {
    assert q == q[..i] + ([q[i]] + (q[i + 1..j] + ([q[j]] + q[j + 1..])));
  }

  /** What the plans that break ties by `ties[0]`, `ties[1]`, ... return. */
  function Planned(rows: seq<Row>, ties: seq<Row -> int>): (listings: seq<seq<Row>>)
    ensures |listings| == |ties| && forall i | 0 <= i < |ties| :: listings[i] == Listing(rows, ties[i])
  {
    seq(|ties|, i requires 0 <= i < |ties| => Listing(rows, ties[i]))
  }

  lemma {:induction false} PlansFor(rows: seq<Row>, listings: seq<seq<Row>>) returns (ties: seq<Row -> int>)
    requires UniqueIds(rows) && AllListings(listings, rows)
    ensures Planned(rows, ties) == listings
  {
    hide Listing, IsListing, UniqueIds;
    if listings == [] {
      ties := [];
    } else {
      var tie := EveryListingIsPlanned(rows, listings[0]);
      var rest := PlansFor(rows, listings[1..]);
      ties := [tie] + rest;
      assert Planned(rows, ties) == [Listing(rows, tie)] + Planned(rows, rest);
    }
  }

  /** Rows `offset` to `offset + limit` of a listing, as far as they exist. */
  function Page(listing: seq<Row>, limit: nat, offset: nat): seq<Row> {
    if offset >= |listing| then []
    else if offset + limit >= |listing| then listing[offset..]
    else listing[offset..offset + limit]
  }

  /** `r` is what LIMIT and OFFSET leave of `p`: as many rows as there are from `offset` on, at most
      `limit`, in the order of `p`. */
  ghost predicate IsWindow(r: seq<Row>, p: seq<Row>, limit: nat, offset: nat) {
    && (|r| == limit || |r| == Max(|p| - offset, 0))
    && |r| <= limit && |r| <= Max(|p| - offset, 0)
    && forall i | 0 <= i < |r| :: r[i] == p[offset + i]
  }

  /** One of the results the query with this LIMIT and OFFSET may have. */
  ghost predicate IsPage(r: seq<Row>, rows: seq<Row>, limit: nat, offset: nat) {
    exists p: seq<Row> :: IsListing(p, rows) && |p| == |rows| && IsWindow(r, p, limit, offset)
  }

  lemma PageIsWindow(p: seq<Row>, limit: nat, offset: nat)
    ensures IsWindow(Page(p, limit, offset), p, limit, offset)
  {
  }

  /** Whatever the plan, limit and offset, the query's result is such a page. */
  lemma PageIsPage(rows: seq<Row>, tie: Row -> int, limit: nat, offset: nat)
    ensures IsPage(Page(Listing(rows, tie), limit, offset), rows, limit, offset)
  {
    var p := Listing(rows, tie);
    ListingIsListing(rows, tie);
    PageIsWindow(p, limit, offset);
    assert |p| == |multiset(p)| == |multiset(rows)| == |rows|;
  }

  // ---------- Listings of one table agree up to ties ----------

  /** Rows created at `t` or later. */
  function CountSince(rows: seq<Row>, t: int): nat {
    if rows == [] then 0 else (if rows[0].createdAt >= t then 1 else 0) + CountSince(rows[1..], t)
  }

  lemma {:induction false} CountSinceAppend(a: seq<Row>, b: seq<Row>, t: int)
    ensures CountSince(a + b, t) == CountSince(a, t) + CountSince(b, t)
  {
    if a == [] {
      assert a + b == b;
    } else {
      assert (a + b)[1..] == a[1..] + b;
      CountSinceAppend(a[1..], b, t);
    }
  }

  lemma RemoveAt(b: seq<Row>, k: nat)
    requires k < |b|
    ensures multiset(b[..k] + b[k + 1..]) == multiset(b) - multiset{b[k]}
  {
    assert b == b[..k] + ([b[k]] + b[k + 1..]);
  }

  lemma {:induction false} CountSincePermutation(a: seq<Row>, b: seq<Row>, t: int)
    requires multiset(a) == multiset(b)
    ensures CountSince(a, t) == CountSince(b, t)
  {
    if a == [] {
      assert |multiset(b)| == 0;
    } else {
      var k := SamePosition(a, b);
      CountSincePermutation(a[1..], b[..k] + b[k + 1..], t);
      CountSinceWithout(b, k, t);
    }
  }

  lemma SamePosition(a: seq<Row>, b: seq<Row>) returns (k: nat)
    requires multiset(a) == multiset(b) && a != []
    ensures k < |b| && b[k] == a[0] && multiset(a[1..]) == multiset(b[..k] + b[k + 1..])
  {
    assert a[0] in multiset(a);
    k :| 0 <= k < |b| && b[k] == a[0];
    RemoveAt(b, k);
    assert a == [a[0]] + a[1..];
  }

  lemma CountSinceWithout(b: seq<Row>, k: nat, t: int)
    requires k < |b|
    ensures CountSince(b, t) == CountSince(b[..k] + b[k + 1..], t) + (if b[k].createdAt >= t then 1 else 0)
  {
    CountSinceAppend(b[..k], b[k + 1..], t);
    CountSinceAppend(b[..k], [b[k]] + b[k + 1..], t);
    assert b == b[..k] + ([b[k]] + b[k + 1..]);
    assert ([b[k]] + b[k + 1..])[1..] == b[k + 1..];
  }

  lemma {:induction false} CountSinceBounds(rows: seq<Row>, t: int)
    ensures CountSince(rows, t) <= |rows|
    ensures (forall i | 0 <= i < |rows| :: rows[i].createdAt >= t) ==> CountSince(rows, t) == |rows|
    ensures (forall i | 0 <= i < |rows| :: rows[i].createdAt < t) ==> CountSince(rows, t) == 0
  {
    if rows != [] {
      CountSinceBounds(rows[1..], t);
    }
  }

  lemma ManySince(p: seq<Row>, i: nat)
    requires NewestFirst(p) && i < |p|
    ensures CountSince(p, p[i].createdAt) > i
  {
    var t := p[i].createdAt;
    assert p == p[..i + 1] + p[i + 1..];
    CountSinceAppend(p[..i + 1], p[i + 1..], t);
    CountSinceBounds(p[..i + 1], t);
  }

  lemma FewSince(q: seq<Row>, i: nat, t: int)
    requires NewestFirst(q) && i < |q| && q[i].createdAt < t
    ensures CountSince(q, t) <= i
  {
    var tail := q[i..];
    forall j | 0 <= j < |tail|
      ensures tail[j].createdAt < t
    {
      assert tail[j] == q[i + j];
    }
    hide NewestFirst, CountSince;
    assert q == q[..i] + tail;
    CountSinceAppend(q[..i], tail, t);
    CountSinceBounds(q[..i], t);
    CountSinceBounds(tail, t);
  }

  lemma NotNewer(p: seq<Row>, q: seq<Row>, i: nat)
    requires NewestFirst(p) && NewestFirst(q) && multiset(p) == multiset(q) && i < |p| == |q|
    ensures p[i].createdAt <= q[i].createdAt
  {
    var t := p[i].createdAt;
    CountSincePermutation(p, q, t);
    ManySince(p, i);
    if q[i].createdAt < t {
      FewSince(q, i, t);
      assert false;
    }
  }

  lemma SameTimes(p: seq<Row>, q: seq<Row>)
    requires NewestFirst(p) && NewestFirst(q) && multiset(p) == multiset(q)
    ensures |p| == |q| && forall i | 0 <= i < |p| :: p[i].createdAt == q[i].createdAt
  {
    assert |p| == |multiset(p)| == |multiset(q)| == |q|;
    forall i | 0 <= i < |p|
      ensures p[i].createdAt == q[i].createdAt
    {
      NotNewer(p, q, i);
      NotNewer(q, p, i);
    }
  }

  /** The first `b` rows are the same rows in every listing, if no tie crosses position `b`. */
  lemma SamePrefix(p: seq<Row>, q: seq<Row>, b: nat)
    requires NewestFirst(p) && NewestFirst(q) && multiset(p) == multiset(q)
    requires 0 < b < |p| && p[b - 1].createdAt > p[b].createdAt
    ensures b < |q| && multiset(p[..b]) == multiset(q[..b])
  {
    SameTimes(p, q);
    forall x: Row
      ensures multiset(p[..b])[x] == multiset(q[..b])[x]
    {
      PrefixCount(p, b, x);
      PrefixCount(q, b, x);
    }
  }

  lemma PrefixCount(p: seq<Row>, b: nat, x: Row)
    requires NewestFirst(p) && 0 < b < |p| && p[b - 1].createdAt > p[b].createdAt
    ensures multiset(p[..b])[x] == if x.createdAt >= p[b - 1].createdAt then multiset(p)[x] else 0
  {
    assert p == p[..b] + p[b..];
    if x.createdAt >= p[b - 1].createdAt {
      assert x !in p[b..];
    } else {
      assert x !in p[..b];
    }
  }

  // ---------- Fetching page after page ----------

  /** Pages 0 .. n-1 of size `limit`, page k cut from the listing its own query produced. */
  function PagesInTurn(listings: seq<seq<Row>>, limit: nat, n: nat): seq<Row>
    requires n <= |listings|
  {
    if n == 0 then []
    else PagesInTurn(listings, limit, n - 1) + Page(listings[n - 1], limit, (n - 1) * limit)
  }

  ghost predicate AllListings(listings: seq<seq<Row>>, rows: seq<Row>) {
    forall k | 0 <= k < |listings| :: IsListing(listings[k], rows)
  }

  /** Every client that fetches `n` pages sees each row exactly as often as the table holds it,
      whatever order each query gave to ties. */
  ghost predicate PagesPartition(rows: seq<Row>, limit: nat, n: nat) {
    forall listings: seq<seq<Row>> | |listings| == n && AllListings(listings, rows) ::
      multiset(PagesInTurn(listings, limit, n)) == multiset(rows)
  }

  /** No two rows with one time stamp are separated by a page boundary. */
  ghost predicate NoTieAcrossPages(listing: seq<Row>, limit: nat) {
    forall k: nat | 0 < k * limit < |listing| ::
      listing[k * limit - 1].createdAt > listing[k * limit].createdAt
  }

  function Least(a: nat, b: nat): nat {
    if a < b then a else b
  }

  lemma PageExtends(p: seq<Row>, limit: nat, k: nat)
    ensures k * limit + limit == (k + 1) * limit
    ensures p[..Least(k * limit, |p|)] + Page(p, limit, k * limit) == p[..Least((k + 1) * limit, |p|)]
  {
  }

  lemma {:induction false} FetchedPrefix(listings: seq<seq<Row>>, p: seq<Row>, rows: seq<Row>, limit: nat, n: nat)
    requires n <= |listings| && AllListings(listings, rows) && IsListing(p, rows)
    requires NoTieAcrossPages(p, limit)
    ensures multiset(PagesInTurn(listings, limit, n)) == multiset(p[..Least(n * limit, |p|)])
  {
    hide Page, NoTieAcrossPages, IsListing;
    if n > 0 {
      var k, q := n - 1, listings[n - 1];
      FetchedPrefix(listings, p, rows, limit, k);
      SamePrefixAt(p, q, rows, limit, k);
      SamePrefixAt(p, q, rows, limit, n);
      PageExtends(q, limit, k);
      var a, b := Least(k * limit, |q|), Least(n * limit, |q|);
      var before, page := PagesInTurn(listings, limit, k), Page(q, limit, k * limit);
      assert PagesInTurn(listings, limit, n) == before + page;
      hide PagesInTurn, Least;
      assert multiset(before + page) == multiset(q[..a]) + multiset(page) == multiset(q[..a] + page);
      assert q[..a] + page == q[..b];
    }
  }

  lemma SamePrefixAt(p: seq<Row>, q: seq<Row>, rows: seq<Row>, limit: nat, k: nat)
    requires IsListing(p, rows) && IsListing(q, rows) && NoTieAcrossPages(p, limit)
    ensures |p| == |q| && multiset(p[..Least(k * limit, |p|)]) == multiset(q[..Least(k * limit, |q|)])
  {
    SameTimes(p, q);
    var b := Least(k * limit, |p|);
    if b == |p| {
      assert p[..b] == p && q[..b] == q;
    } else if b > 0 {
      SamePrefix(p, q, b);
    }
  }

  /** Swapping two neighbours with one time stamp gives another listing. */
  lemma SwappedListing(p: seq<Row>, rows: seq<Row>, b: nat) returns (q: seq<Row>)
    requires IsListing(p, rows) && 0 < b < |p| && p[b - 1].createdAt == p[b].createdAt
    ensures IsListing(q, rows) && q == p[b - 1 := p[b]][b := p[b - 1]]
  {
    q := p[b - 1 := p[b]][b := p[b - 1]];
    assert p == p[..b - 1] + [p[b - 1], p[b]] + p[b + 1..];
    assert q == p[..b - 1] + [p[b], p[b - 1]] + p[b + 1..];
    assert multiset([p[b - 1], p[b]]) == multiset([p[b], p[b - 1]]);
  }

  ghost predicate DistinctRows(rows: seq<Row>) {
    forall x: Row :: multiset(rows)[x] <= 1
  }

  lemma OneOccurrence(rows: seq<Row>, k: nat)
    requires UniqueIds(rows) && k < |rows|
    ensures multiset(rows)[rows[k]] == 1
  {
    var a, x, b := rows[..k], rows[k], rows[k + 1..];
    assert x !in a && x !in b;
    assert rows == a + [x] + b;
    hide UniqueIds;
    assert multiset(rows) == multiset(a) + multiset([x]) + multiset(b);
    assert multiset(a)[x] == 0 && multiset(b)[x] == 0;
  }

  lemma UniqueIdsDistinct(rows: seq<Row>)
    requires UniqueIds(rows)
    ensures DistinctRows(rows)
  {
    forall x: Row
      ensures multiset(rows)[x] <= 1
    {
      if x in rows {
        var k :| 0 <= k < |rows| && rows[k] == x;
        OneOccurrence(rows, k);
      }
    }
  }

  lemma NothingTaken(p: seq<Row>, limit: nat)
    ensures p[..Least(0 * limit, |p|)] == []
  {
  }

  /** The two halves of a fetch that uses listing `p` for the first `k` pages. */
  lemma {:induction false} FetchedConstant(listings: seq<seq<Row>>, p: seq<Row>, limit: nat, k: nat)
    requires k <= |listings| && forall i | 0 <= i < k :: listings[i] == p
    ensures PagesInTurn(listings, limit, k) == p[..Least(k * limit, |p|)]
  {
    hide Page, Least;
    if k > 0 {
      var j := k - 1;
      FetchedConstant(listings, p, limit, j);
      PageExtends(p, limit, j);
      assert PagesInTurn(listings, limit, k) == PagesInTurn(listings, limit, j) + Page(p, limit, j * limit);
    } else {
      NothingTaken(p, limit);
    }
  }

  lemma {:induction false} FetchedContains(listings: seq<seq<Row>>, limit: nat, k: nat, n: nat, x: Row)
    requires k < n <= |listings|
    ensures multiset(PagesInTurn(listings, limit, k))[x] + multiset(Page(listings[k], limit, k * limit))[x]
         <= multiset(PagesInTurn(listings, limit, n))[x]
  {
    hide Page;
    var before, page := PagesInTurn(listings, limit, n - 1), Page(listings[n - 1], limit, (n - 1) * limit);
    assert PagesInTurn(listings, limit, n) == before + page;
    if k + 1 < n {
      FetchedContains(listings, limit, k, n - 1, x);
    }
    hide PagesInTurn;
    assert multiset(before + page) == multiset(before) + multiset(page);
  }

  lemma ServedTwice(listings: seq<seq<Row>>, limit: nat, k: nat, n: nat, x: Row)
    requires k < n <= |listings|
    requires x in PagesInTurn(listings, limit, k) && x in Page(listings[k], limit, k * limit)
    ensures multiset(PagesInTurn(listings, limit, n))[x] >= 2
  {
    FetchedContains(listings, limit, k, n, x);
    hide Page, PagesInTurn;
  }

  /** A tie across the boundary in front of page k lets a row be served twice. */
  lemma TieBreaksPaging(p: seq<Row>, rows: seq<Row>, limit: nat, k: nat, n: nat) returns (listings: seq<seq<Row>>)
    requires UniqueIds(rows) && IsListing(p, rows) && limit > 0
    requires 0 < k * limit < |p| && p[k * limit - 1].createdAt == p[k * limit].createdAt && k < n
    ensures |listings| == n && AllListings(listings, rows)
    ensures multiset(PagesInTurn(listings, limit, n))[p[k * limit - 1]] >= 2
    ensures multiset(PagesInTurn(listings, limit, n)) != multiset(rows)
  {
    var b := k * limit;
    var q := SwappedListing(p, rows, b);
    listings := seq(n, i => if i < k then p else q);
    var x := p[b - 1];
    hide IsListing, UniqueIds, PagesInTurn, Page;
    assert multiset(rows)[x] <= 1 by {
      UniqueIdsDistinct(rows);
    }
    LastBeforeBoundary(listings, p, limit, k, b);
    StartsPage(q, limit, b);
    ServedTwice(listings, limit, k, n, x);
  }

  lemma LastBeforeBoundary(listings: seq<seq<Row>>, p: seq<Row>, limit: nat, k: nat, b: nat)
    requires k <= |listings| && forall i | 0 <= i < k :: listings[i] == p
    requires b == k * limit && 0 < b < |p|
    ensures p[b - 1] in PagesInTurn(listings, limit, k)
  {
    FetchedConstant(listings, p, limit, k);
    hide PagesInTurn;
    assert p[..b][b - 1] == p[b - 1];
  }

  lemma StartsPage(q: seq<Row>, limit: nat, b: nat)
    requires limit > 0 && b < |q|
    ensures q[b] in Page(q, limit, b)
  {
  }

  /** Exactly when paging is sound. For a table with unique ids and any page size, fetching all n
      pages always yields every row exactly once if and only if no page boundary falls between two
      rows with the same `created_at`. */
  lemma PagesPartitionIff(rows: seq<Row>, p: seq<Row>, limit: nat, n: nat)
    requires UniqueIds(rows) && IsListing(p, rows)
    requires limit > 0 && n * limit >= |rows|
    ensures PagesPartition(rows, limit, n) <==> NoTieAcrossPages(p, limit)
  {
    assert |p| == |multiset(p)| == |multiset(rows)| == |rows|;
    if NoTieAcrossPages(p, limit) {
      forall listings: seq<seq<Row>> | |listings| == n && AllListings(listings, rows)
        ensures multiset(PagesInTurn(listings, limit, n)) == multiset(rows)
      {
        FetchedPrefix(listings, p, rows, limit, n);
        assert p[..Least(n * limit, |p|)] == p;
      }
    } else {
      var k: nat :| 0 < k * limit < |p| && p[k * limit - 1].createdAt <= p[k * limit].createdAt;
      PageBefore(k, n, limit);
      var listings := TieBreaksPaging(p, rows, limit, k, n);
    }
  }

  lemma PageBefore(k: nat, n: nat, limit: nat)
    requires k * limit < n * limit
    ensures k < n
  {
  }

  ghost predicate DistinctTimes(rows: seq<Row>) {
    forall i, j | 0 <= i < j < |rows| :: rows[i].createdAt != rows[j].createdAt
  }

  /** With pairwise different time stamps there is one listing, and the pages concatenate to it. */
  lemma DistinctTimesOneListing(rows: seq<Row>, p: seq<Row>, q: seq<Row>)
    requires DistinctTimes(rows) && IsListing(p, rows) && IsListing(q, rows)
    ensures p == q
  {
    SameTimes(p, q);
    forall i | 0 <= i < |p|
      ensures p[i] == q[i]
    {
      assert p[i] in multiset(rows) && q[i] in multiset(rows);
      var a :| 0 <= a < |rows| && rows[a] == p[i];
      var b :| 0 <= b < |rows| && rows[b] == q[i];
    }
  }

  /** Pages at offsets 0, L, 2L, ... concatenate to the whole table, newest first. */
  lemma DistinctTimesPaging(rows: seq<Row>, p: seq<Row>, listings: seq<seq<Row>>, limit: nat)
    requires DistinctTimes(rows) && IsListing(p, rows) && AllListings(listings, rows)
    requires |listings| * limit >= |rows|
    ensures PagesInTurn(listings, limit, |listings|) == p
  {
    forall k | 0 <= k < |listings|
      ensures listings[k] == p
    {
      DistinctTimesOneListing(rows, p, listings[k]);
    }
    FetchedConstant(listings, p, limit, |listings|);
    assert |p| == |multiset(p)| == |multiset(rows)| == |rows|;
  }

  /** Two rows of one bulk batch share their time stamp, so a table holding such a batch cannot be
      paged one row at a time. */
  lemma SharedTimeBreaksUnitPages(rows: seq<Row>, i: nat, j: nat, n: nat)
    requires UniqueIds(rows) && i < j < |rows| && rows[i].createdAt == rows[j].createdAt && n >= |rows|
    ensures !PagesPartition(rows, 1, n)
  {
    var p := Listing(rows, r => 0);
    ListingIsListing(rows, r => 0);
    PagesPartitionIff(rows, p, 1, n);
    hide Listing, PagesPartition, NoTieAcrossPages;
    assert rows[i] in multiset(p) && rows[j] in multiset(p);
    var a :| 0 <= a < |p| && p[a] == rows[i];
    var b :| 0 <= b < |p| && p[b] == rows[j];
    AdjacentTie(p, if a < b then a else b, if a < b then b else a);
  }

  lemma AdjacentTie(p: seq<Row>, a: nat, b: nat)
    requires NewestFirst(p) && a < b < |p| && p[a].createdAt == p[b].createdAt
    ensures !NoTieAcrossPages(p, 1)
  {
    assert p[b - 1].createdAt == p[b].createdAt;
    if NoTieAcrossPages(p, 1) {
      CleanBoundary(p, 1, b);
      assert false;
    }
  }

  lemma CleanBoundary(p: seq<Row>, limit: nat, k: nat)
    requires NoTieAcrossPages(p, limit) && 0 < k * limit < |p|
    ensures p[k * limit - 1].createdAt > p[k * limit].createdAt
  {
  }
}
