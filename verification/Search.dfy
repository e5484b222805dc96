/** `RouteRepository.list_active`: filter, order by departure, and cut into pages. */
module Search {
  import opened Sets
  import opened Rows
  import opened Ordering
  import opened CacheKeys

  type Positive = n: nat | n >= 1 witness 1

  /** Case-insensitive pattern matching is the database's; only that it is a function of its two texts matters. */
  type Like = (string, string) -> bool

  datatype Query = Query(origin: Option<string>, destination: Option<string>, page: Positive, size: Positive)

  function KeyOf(q: Query): string { RouteKey(q.origin, q.destination, q.page, q.size) }

  /** A search whose cache key shows it unambiguously. */
  predicate CleanQuery(q: Query) { Clean(q.origin) && Clean(q.destination) }

  datatype RouteOut = RouteOut(id: nat, route: Route)

  datatype RoutePage = RoutePage(total: nat, page: nat, size: nat, items: seq<RouteOut>)

  /** A missing or empty filter restricts nothing. */
  predicate Passes(filter: Option<string>, text: string, like: Like) {
    filter.Some? && filter.value != "" ==> like(filter.value, text)
  }

  predicate Matches(r: Route, origin: Option<string>, destination: Option<string>, like: Like) {
    r.active && Passes(origin, r.origin, like) && Passes(destination, r.destination, like)
  }

  function Departures(db: Db, origin: Option<string>, destination: Option<string>, like: Like): map<nat, int> {
    map r | r in db.routes && Matches(db.routes[r], origin, destination, like) :: db.routes[r].departure
  }

  function Min(a: nat, b: nat): nat { if a <= b then a else b }

  /** OFFSET (page - 1) * size LIMIT size. */
  function PageOf(ids: seq<nat>, page: Positive, size: Positive): (cut: seq<nat>)
    ensures forall x :: x in cut ==> x in ids
  {
    var start := Min((page - 1) * size, |ids|);
    ids[start..Min(start + size, |ids|)]
  }

  function Items(routes: map<nat, Route>, ids: seq<nat>): (out: seq<RouteOut>)
    requires forall i :: 0 <= i < |ids| ==> ids[i] in routes
    ensures |out| == |ids| && forall i :: 0 <= i < |ids| ==> out[i] == RouteOut(ids[i], routes[ids[i]])
  {
    if ids == [] then [] else Items(routes, ids[..|ids| - 1]) + [RouteOut(ids[|ids| - 1], routes[ids[|ids| - 1]])]
  }

  function AllIds(db: Db, origin: Option<string>, destination: Option<string>, like: Like): (ids: seq<nat>)
    ensures forall i :: 0 <= i < |ids| ==> ids[i] in db.routes
  {
    var keys := Departures(db, origin, destination, like);
    var ids := Sorted(keys);
    assert forall i :: 0 <= i < |ids| ==> ids[i] in keys;
    ids
  }

  function ListActive(db: Db, q: Query, like: Like): RoutePage {
    var ids := AllIds(db, q.origin, q.destination, like);
    var cut := PageOf(ids, q.page, q.size);
    assert forall i :: 0 <= i < |cut| ==> cut[i] in ids;
    RoutePage(|ids|, q.page, q.size, Items(db.routes, cut))
  }

  /** A search depends on the routes table and nothing else. */
  lemma SearchFrame(db: Db, db': Db, q: Query, like: Like)
    requires db'.routes == db.routes
    ensures ListActive(db', q, like) == ListActive(db, q, like)
  {
    assert Departures(db', q.origin, q.destination, like) == Departures(db, q.origin, q.destination, like);
  }

  // ---- pages partition the result ----

  function Joined(ids: seq<nat>, size: Positive, pages: nat): seq<nat> {
    if pages == 0 then [] else Joined(ids, size, pages - 1) + PageOf(ids, pages, size)
  }

  lemma {:induction false} JoinedIsPrefix(ids: seq<nat>, size: Positive, pages: nat)
    ensures Joined(ids, size, pages) == ids[..Min(pages * size, |ids|)]
  {
    if pages > 0 {
      JoinedIsPrefix(ids, size, pages - 1);
      assert pages * size == (pages - 1) * size + size;
    }
  }

  function Ceil(total: nat, size: Positive): nat { (total + size - 1) / size }

  lemma CeilCovers(total: nat, size: Positive)
    ensures total <= Ceil(total, size) * size < total + size
  {
    var q, r := (total + size - 1) / size, (total + size - 1) % size;
    assert total + size - 1 == q * size + r && 0 <= r < size;
  }

  function JoinedItems(db: Db, q: Query, like: Like, pages: nat): seq<RouteOut> {
    if pages == 0 then []
    else JoinedItems(db, q, like, pages - 1) + ListActive(db, q.(page := pages), like).items
  }

  lemma ItemsConcat(routes: map<nat, Route>, a: seq<nat>, b: seq<nat>)
    requires forall x :: x in a + b ==> x in routes
    ensures (forall i :: 0 <= i < |a| ==> a[i] in routes) && (forall i :: 0 <= i < |b| ==> b[i] in routes)
    ensures Items(routes, a + b) == Items(routes, a) + Items(routes, b)
  {
    assert forall i :: 0 <= i < |a| ==> a[i] == (a + b)[i];
    assert forall i :: 0 <= i < |b| ==> b[i] == (a + b)[|a| + i];
  }

  lemma {:induction false} JoinedItemsAre(db: Db, q: Query, like: Like, pages: nat)
    ensures var ids := AllIds(db, q.origin, q.destination, like);
            && (forall x :: x in Joined(ids, q.size, pages) ==> x in db.routes)
            && JoinedItems(db, q, like, pages) == Items(db.routes, Joined(ids, q.size, pages))
  {
    hide PageOf, AllIds;
    var ids := AllIds(db, q.origin, q.destination, like);
    if pages > 0 {
      JoinedItemsAre(db, q, like, pages - 1);
      ItemsConcat(db.routes, Joined(ids, q.size, pages - 1), PageOf(ids, pages, q.size));
    }
  }

  lemma {:induction false} TimesMonotone(a: nat, b: nat, n: nat)
    requires a <= b
    ensures a * n <= b * n
    decreases b
  {
    if a < b {
      TimesMonotone(a, b - 1, n);
      assert b * n == (b - 1) * n + n;
    }
  }

  lemma LaterPagesEmpty(ids: seq<nat>, page: Positive, size: Positive, pages: nat)
    requires page > pages && |ids| <= pages * size
    ensures PageOf(ids, page, size) == []
  {
    TimesMonotone(pages, page - 1, size);
    assert Min((page - 1) * size, |ids|) == |ids|;
  }

  /** Pages 1..ceil(total/size) joined give every matching active route once, in departure order;
      `total` is how many there are, and every later page is empty. */
  lemma PagesPartition(db: Db, q: Query, like: Like)
    ensures var ids := AllIds(db, q.origin, q.destination, like);
            && IsOrdering(Departures(db, q.origin, q.destination, like), ids)
            && ListActive(db, q, like).total == |ids|
            && JoinedItems(db, q, like, Ceil(|ids|, q.size)) == Items(db.routes, ids)
            && (q.page > Ceil(|ids|, q.size) ==> ListActive(db, q, like).items == [])
  {
    hide PageOf, Ceil, Items, JoinedItems, Joined;
    var ids := AllIds(db, q.origin, q.destination, like);
    var pages := Ceil(|ids|, q.size);
    CeilCovers(|ids|, q.size);
    JoinedItemsAre(db, q, like, pages);
    JoinedIsPrefix(ids, q.size, pages);
    assert ids[..|ids|] == ids;
    if q.page > pages { LaterPagesEmpty(ids, q.page, q.size, pages); }
  }

  // ---- ties ----

  /** What ORDER BY departure alone promises: rows with equal departures may come in any order. */
  ghost predicate DepartureOrder(keys: map<nat, int>, ids: seq<nat>) {
    && (forall i :: 0 <= i < |ids| ==> ids[i] in keys)
    && (forall k {:trigger k in ids} :: k in keys ==> k in ids)
    && (forall i, j :: 0 <= i < j < |ids| ==> ids[i] != ids[j] && keys[ids[i]] <= keys[ids[j]])
  }

  /** Some route shown on page `p` of one query is shown again on page `q` of another. */
  ghost predicate CanRepeat(keys: map<nat, int>, size: Positive, p: Positive, q: Positive) {
    exists a, b, x: nat ::
      DepartureOrder(keys, a) && DepartureOrder(keys, b) && x in PageOf(a, p, size) && x in PageOf(b, q, size)
  }

  function Front(ids: seq<nat>, n: nat): set<nat>
    requires n <= |ids|
  {
    set x | x in ids[..n]
  }

  lemma {:induction false} FrontSize(ids: seq<nat>, n: nat)
    requires n <= |ids| && forall i, j :: 0 <= i < j < |ids| ==> ids[i] != ids[j]
    ensures |Front(ids, n)| == n
  {
    if n > 0 {
      FrontSize(ids, n - 1);
      assert ids[..n] == ids[..n - 1] + [ids[n - 1]];
      assert Front(ids, n) == Front(ids, n - 1) + {ids[n - 1]};
    }
  }

  lemma OrderLength(keys: map<nat, int>, ids: seq<nat>)
    requires DepartureOrder(keys, ids)
    ensures |ids| == |keys|
  {
    FrontSize(ids, |ids|);
    assert ids[..|ids|] == ids;
    assert Front(ids, |ids|) == keys.Keys;
  }

  /** However ties are broken, the departure at a given position is the same: the rows up to `i` in one order are
      too many to fit before `i` in the other. */
  lemma SameAtRank(keys: map<nat, int>, a: seq<nat>, b: seq<nat>, i: nat)
    requires DepartureOrder(keys, a) && DepartureOrder(keys, b) && i < |a| && i < |b|
    ensures keys[a[i]] == keys[b[i]]
  {
    NotBelowAtRank(keys, a, b, i);
    NotBelowAtRank(keys, b, a, i);
  }

  lemma NotBelowAtRank(keys: map<nat, int>, a: seq<nat>, b: seq<nat>, i: nat)
    requires DepartureOrder(keys, a) && DepartureOrder(keys, b) && i < |a| && i < |b|
    ensures keys[a[i]] >= keys[b[i]]
  {
    if keys[a[i]] < keys[b[i]] {
      forall x | x in Front(a, i + 1) ensures x in Front(b, i) {
        var m :| 0 <= m <= i && a[m] == x;
        assert keys[x] <= keys[a[i]];
        assert x in b;
        var n :| 0 <= n < |b| && b[n] == x;
        assert n < i;
        assert b[..i][n] == x;
      }
      FrontSize(a, i + 1);
      FrontSize(b, i);
      SubsetSize(Front(a, i + 1), Front(b, i));
    }
  }

  /** The code orders by departure only, so each page query may break ties its own way. For any page size and any
      pages p < q, a route can be on both exactly when page q has a first row and the last row of page p departs at
      the same time as it. */
  lemma RepeatsIffTies(keys: map<nat, int>, size: Positive, p: Positive, q: Positive)
    requires p < q
    ensures CanRepeat(keys, size, p, q)
       <==> (q - 1) * size < |keys| && TieAt(keys, Sorted(keys), p * size - 1, (q - 1) * size)
  {
    PagesApart(size, p, q);
    if CanRepeat(keys, size, p, q) {
      var a, b, x: nat :|
        DepartureOrder(keys, a) && DepartureOrder(keys, b) && x in PageOf(a, p, size) && x in PageOf(b, q, size);
      RepeatTies(keys, size, p, q, a, b, x);
    }
    if (q - 1) * size < |keys| && TieAt(keys, Sorted(keys), p * size - 1, (q - 1) * size) {
      TieRepeats(keys, size, p, q);
    }
  }

  predicate TieAt(keys: map<nat, int>, ids: seq<nat>, u: int, v: int) {
    0 <= u < |ids| && 0 <= v < |ids| && ids[u] in keys && ids[v] in keys && keys[ids[u]] == keys[ids[v]]
  }

  lemma PagesApart(size: Positive, p: Positive, q: Positive)
    requires p < q
    ensures 0 <= p * size - 1 < (q - 1) * size
    ensures (p - 1) * size + size == p * size
  {
    TimesMonotone(p, q - 1, size);
    assert p * size == (p - 1) * size + size;
    TimesMonotone(0, p - 1, size);
  }

  lemma PagePosition(ids: seq<nat>, page: Positive, size: Positive, x: nat) returns (i: nat)
    requires x in PageOf(ids, page, size)
    ensures i < |ids| && ids[i] == x && (page - 1) * size <= i < page * size
  {
    assert page * size == (page - 1) * size + size;
    var cut := PageOf(ids, page, size);
    var n :| 0 <= n < |cut| && cut[n] == x;
    var start := (page - 1) * size;
    assert start < |ids|;
    i := start + n;
  }

  lemma OnPage(ids: seq<nat>, page: Positive, size: Positive, i: nat)
    requires i < |ids| && (page - 1) * size <= i < page * size
    ensures ids[i] in PageOf(ids, page, size)
  {
    assert page * size == (page - 1) * size + size;
    var start := (page - 1) * size;
    assert PageOf(ids, page, size)[i - start] == ids[i];
  }

  lemma RepeatTies(keys: map<nat, int>, size: Positive, p: Positive, q: Positive, a: seq<nat>, b: seq<nat>, x: nat)
    requires p < q && DepartureOrder(keys, a) && DepartureOrder(keys, b)
    requires x in PageOf(a, p, size) && x in PageOf(b, q, size)
    ensures (q - 1) * size < |keys| && TieAt(keys, Sorted(keys), p * size - 1, (q - 1) * size)
  {
    hide PageOf, DepartureOrder, IsOrdering;
    var ids := Sorted(keys);
    var u, v := p * size - 1, (q - 1) * size;
    PagesApart(size, p, q);
    var i := PagePosition(a, p, size, x);
    var j := PagePosition(b, q, size, x);
    SortedByDeparture(keys);
    OrderLength(keys, a);
    OrderLength(keys, b);
    SameAtRank(keys, a, ids, i);
    SameAtRank(keys, b, ids, j);
    Ascends(keys, ids, i, u);
    Ascends(keys, ids, u, v);
    Ascends(keys, ids, v, j);
  }

  lemma Ascends(keys: map<nat, int>, ids: seq<nat>, i: nat, j: nat)
    requires DepartureOrder(keys, ids) && i <= j < |ids|
    ensures ids[i] in keys && ids[j] in keys && keys[ids[i]] <= keys[ids[j]]
  {
  }

  lemma SortedByDeparture(keys: map<nat, int>)
    ensures DepartureOrder(keys, Sorted(keys))
  {
    var ids := Sorted(keys);
    forall i, j | 0 <= i < j < |ids| ensures ids[i] != ids[j] && keys[ids[i]] <= keys[ids[j]] {
      assert Before(keys, ids[i], ids[j]);
    }
  }

  function Swapped(ids: seq<nat>, u: nat, v: nat): seq<nat>
    requires u < |ids| && v < |ids|
  {
    ids[u := ids[v]][v := ids[u]]
  }

  lemma TieRepeats(keys: map<nat, int>, size: Positive, p: Positive, q: Positive)
    requires p < q && (q - 1) * size < |keys| && TieAt(keys, Sorted(keys), p * size - 1, (q - 1) * size)
    ensures CanRepeat(keys, size, p, q)
  {
    hide PageOf, DepartureOrder, IsOrdering;
    var u, v := p * size - 1, (q - 1) * size;
    PagesApart(size, p, q);
    var a := Sorted(keys);
    SortedByDeparture(keys);
    var b := Swapped(a, u, v);
    SwapKeepsOrder(keys, a, u, v);
    OnPage(a, p, size, u);
    TimesMonotone(q - 1, q, size);
    assert q * size == (q - 1) * size + size;
    OnPage(b, q, size, v);
    var x: nat := a[u];
    assert x in PageOf(a, p, size) && x in PageOf(b, q, size);
  }

  lemma SwapKeepsOrder(keys: map<nat, int>, a: seq<nat>, u: nat, v: nat)
    requires DepartureOrder(keys, a) && u < v < |a| && keys[a[u]] == keys[a[v]]
    ensures DepartureOrder(keys, Swapped(a, u, v))
  {
    var b := Swapped(a, u, v);
    forall k | k in keys ensures k in b {
      assert k in a;
      var j :| 0 <= j < |a| && a[j] == k;
      assert b[if j == u then v else if j == v then u else j] == k;
    }
    forall i, j | 0 <= i < j < |b| ensures b[i] != b[j] && keys[b[i]] <= keys[b[j]] {
      assert keys[b[i]] == keys[a[i]] && keys[b[j]] == keys[a[j]];
    }
  }

  /** Walking the pages of a given size can meet a route twice exactly when some page ends inside a tie. */
  lemma WalkRepeatsIff(keys: map<nat, int>, size: Positive)
    ensures (exists p: Positive, q: Positive :: p < q && CanRepeat(keys, size, p, q))
       <==> (exists p: Positive :: EndsInTie(keys, size, p))
  {
    hide CanRepeat, EndsInTie;
    if p: Positive, q: Positive :| p < q && CanRepeat(keys, size, p, q) {
      RepeatEndsInTie(keys, size, p, q);
    }
    if p: Positive :| EndsInTie(keys, size, p) {
      TieIsRepeated(keys, size, p);
      var q: Positive := p + 1;
      assert p < q && CanRepeat(keys, size, p, q);
    }
  }

  /** The last row of page `p` and the first of the next one depart at the same time. */
  predicate EndsInTie(keys: map<nat, int>, size: Positive, p: Positive) {
    p * size < |keys| && TieAt(keys, Sorted(keys), p * size - 1, p * size)
  }

  lemma TieStartsAtOnce(keys: map<nat, int>, size: Positive, p: Positive, q: Positive)
    requires p < q && (q - 1) * size < |keys| && TieAt(keys, Sorted(keys), p * size - 1, (q - 1) * size)
    ensures EndsInTie(keys, size, p)
  {
    hide DepartureOrder, IsOrdering;
    PagesApart(size, p, q);
    PagesApart(size, p, p + 1);
    SortedByDeparture(keys);
    Ascends(keys, Sorted(keys), p * size - 1, p * size);
    Ascends(keys, Sorted(keys), p * size, (q - 1) * size);
  }

  lemma RepeatEndsInTie(keys: map<nat, int>, size: Positive, p: Positive, q: Positive)
    requires p < q && CanRepeat(keys, size, p, q)
    ensures EndsInTie(keys, size, p)
  {
    hide CanRepeat, EndsInTie;
    RepeatsIffTies(keys, size, p, q);
    TieStartsAtOnce(keys, size, p, q);
  }

  lemma TieIsRepeated(keys: map<nat, int>, size: Positive, p: Positive)
    requires EndsInTie(keys, size, p)
    ensures CanRepeat(keys, size, p, p + 1)
  {
    hide CanRepeat;
    RepeatsIffTies(keys, size, p, p + 1);
  }

  /** Any one order, however it breaks ties, is cut by its pages into pieces that join to the whole. */
  lemma AnyOrderPartitions(keys: map<nat, int>, ids: seq<nat>, size: Positive, page: Positive)
    requires DepartureOrder(keys, ids)
    ensures |ids| == |keys| && Joined(ids, size, Ceil(|keys|, size)) == ids
    ensures page > Ceil(|keys|, size) ==> PageOf(ids, page, size) == []
  {
    hide PageOf, Ceil;
    OrderLength(keys, ids);
    CeilCovers(|ids|, size);
    JoinedIsPrefix(ids, size, Ceil(|ids|, size));
    assert ids[..|ids|] == ids;
    if page > Ceil(|ids|, size) { LaterPagesEmpty(ids, page, size, Ceil(|ids|, size)); }
  }

  // ---- routes missed by a walk ----

  /** Each page of the walk is cut from an order of its own, and some route is on none of them. */
  ghost predicate CanMiss(keys: map<nat, int>, size: Positive) {
    exists orders: seq<seq<nat>>, x: nat :: Misses(keys, size, orders, x)
  }

  ghost predicate Misses(keys: map<nat, int>, size: Positive, orders: seq<seq<nat>>, x: nat) {
    && |orders| == Ceil(|keys|, size) && x in keys
    && forall i :: 0 <= i < |orders| ==> DepartureOrder(keys, orders[i]) && x !in PageOf(orders[i], i + 1, size)
  }

  /** Walking all pages of a given size can leave a route out exactly when it can meet one twice: when some page ends
      inside a tie. */
  lemma WalkMissesIff(keys: map<nat, int>, size: Positive)
    ensures CanMiss(keys, size) <==> exists p: Positive :: EndsInTie(keys, size, p)
  {
    hide Misses, EndsInTie;
    if orders: seq<seq<nat>>, x: nat :| Misses(keys, size, orders, x) {
      var p := MissedAtTie(keys, size, orders, x);
    }
    if p: Positive :| EndsInTie(keys, size, p) {
      TieIsMissed(keys, size, p);
    }
  }

  lemma PageIndex(i: nat, n: nat, size: Positive) returns (p: Positive)
    requires i < n
    ensures (p - 1) * size <= i < p * size && p <= Ceil(n, size)
  {
    p := i / size + 1;
    assert i == (i / size) * size + i % size;
    assert p * size == (p - 1) * size + size;
    CeilCovers(n, size);
    if Ceil(n, size) < p { TimesMonotone(Ceil(n, size), p - 1, size); }
  }

  /** The missed route stands in a tie that reaches over an end of the page it is on in the sorted order. */
  lemma MissedAtTie(keys: map<nat, int>, size: Positive, orders: seq<seq<nat>>, x: nat) returns (p: Positive)
    requires Misses(keys, size, orders, x)
    ensures EndsInTie(keys, size, p)
  {
    hide PageOf, DepartureOrder, IsOrdering, Ceil;
    var ids := Sorted(keys);
    assert IsOrdering(keys, ids);
    SortedByDeparture(keys);
    var i := PositionOf(keys, ids, x);
    var home := PageIndex(i, |keys|, size);
    var a := orders[home - 1];
    assert DepartureOrder(keys, a) && x !in PageOf(a, home, size);
    var j := PositionOf(keys, a, x);
    OrderLength(keys, a);
    if (home - 1) * size <= j < home * size { OnPage(a, home, size, j); }
    SameAtRank(keys, a, ids, j);
    if j >= home * size {
      p := home;
      TieReachesOver(keys, size, p, i, j);
    } else {
      assert (home - 1) * size >= 1;
      p := home - 1;
      TieReachesOver(keys, size, p, j, i);
    }
  }

  lemma PositionOf(keys: map<nat, int>, ids: seq<nat>, x: nat) returns (i: nat)
    requires DepartureOrder(keys, ids) && x in keys
    ensures i < |ids| && ids[i] == x
  {
    assert x in ids;
    i :| 0 <= i < |ids| && ids[i] == x;
  }

  lemma TieReachesOver(keys: map<nat, int>, size: Positive, p: Positive, i: nat, j: nat)
    requires i < p * size <= j < |keys| && TieAt(keys, Sorted(keys), i, j)
    ensures EndsInTie(keys, size, p)
  {
    hide DepartureOrder, IsOrdering;
    SortedByDeparture(keys);
    Ascends(keys, Sorted(keys), i, p * size - 1);
    Ascends(keys, Sorted(keys), p * size - 1, p * size);
    Ascends(keys, Sorted(keys), p * size, j);
  }

  /** Page `p` is cut from an order in which the tie at its end is swapped, all others from the sorted one. */
  function TieOrders(keys: map<nat, int>, size: Positive, p: Positive): (orders: seq<seq<nat>>)
    requires p <= Ceil(|keys|, size) && p * size < |keys|
    ensures |orders| == Ceil(|keys|, size) && orders[p - 1] == Swapped(Sorted(keys), p * size - 1, p * size)
    ensures forall i :: 0 <= i < |orders| && i != p - 1 ==> orders[i] == Sorted(keys)
  {
    seq(Ceil(|keys|, size), i => Sorted(keys))[p - 1 := Swapped(Sorted(keys), p * size - 1, p * size)]
  }

  lemma TieIsMissed(keys: map<nat, int>, size: Positive, p: Positive)
    requires EndsInTie(keys, size, p)
    ensures CanMiss(keys, size)
  {
    hide PageOf, DepartureOrder, IsOrdering, Ceil, TieOrders;
    var a, u := Sorted(keys), p * size - 1;
    PagesApart(size, p, p + 1);
    SortedByDeparture(keys);
    SwapKeepsOrder(keys, a, u, u + 1);
    CeilCovers(|keys|, size);
    if Ceil(|keys|, size) < p { TimesMonotone(Ceil(|keys|, size), p, size); }
    var orders := TieOrders(keys, size, p);
    var x: nat := a[u];
    forall i: nat | i < |orders| ensures DepartureOrder(keys, orders[i]) && x !in PageOf(orders[i], i + 1, size) {
      AwayFromPage(size, p, i + 1);
      NotOnPage(keys, orders[i], i + 1, size, x, if i == p - 1 then u + 1 else u);
    }
    MissesAll(keys, size, orders, x);
  }

  lemma MissesAll(keys: map<nat, int>, size: Positive, orders: seq<seq<nat>>, x: nat)
    requires |orders| == Ceil(|keys|, size) && x in keys
    requires forall i: nat :: i < |orders| ==> DepartureOrder(keys, orders[i]) && x !in PageOf(orders[i], i + 1, size)
    ensures CanMiss(keys, size)
  {
    hide PageOf, DepartureOrder, Ceil;
    assert Misses(keys, size, orders, x);
  }

  /** The last position of page `p` is on no other page. */
  lemma AwayFromPage(size: Positive, p: Positive, page: Positive)
    ensures page != p ==> p * size - 1 < (page - 1) * size || p * size - 1 >= page * size
  {
    assert p * size == (p - 1) * size + size;
    if page < p { TimesMonotone(page, p - 1, size); }
    if page > p { TimesMonotone(p, page - 1, size); }
  }

  /** A route is only on the page of its position. */
  lemma NotOnPage(keys: map<nat, int>, ids: seq<nat>, page: Positive, size: Positive, x: nat, at: nat)
    requires DepartureOrder(keys, ids) && at < |ids| && ids[at] == x
    requires at < (page - 1) * size || at >= page * size
    ensures x !in PageOf(ids, page, size)
  {
    hide PageOf;
    if x in PageOf(ids, page, size) {
      var i := PagePosition(ids, page, size, x);
    }
  }
}
