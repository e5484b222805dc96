/** Cached searches in runs of whole requests: whose result an answer is, and when it is the right one. */
module SerialSearches {
  import opened Rows
  import opened Listing
  import opened CacheKeys
  import opened Search
  import opened Requests
  import opened SerialRuns

  // ---- who filled an entry ----

  /** A search that finds nothing under `key` and so puts its own page there. */
  predicate Fills(a: App, call: Call, key: string) {
    call.GetRoutes? && KeyOf(call.query) == key && a.on && (key !in a.cache || a.now > a.cache[key].expires
                                                            || !Truthy(a.cache[key].value))
  }

  /** The last search of the run that filled `key`. */
  function Filler(a: App, calls: seq<Call>, like: Like, key: string): Option<Query> {
    if calls == [] then None
    else
      var n := |calls| - 1;
      if Fills(HandleAll(a, calls[..n], like), calls[n], key) then Some(calls[n].query)
      else Filler(a, calls[..n], like, key)
  }

  /** The search whose result answers `q` after the run: the one that filled the entry it hits, else `q` itself. */
  function Answerer(a: App, calls: seq<Call>, like: Like, q: Query): Query {
    var f := Filler(a, calls, like, KeyOf(q));
    var a' := HandleAll(a, calls, like);
    if Lookup(a', KeyOf(q)).Some? && f.Some? then f.value else q
  }

  lemma {:induction false} FillerWasAsked(a: App, calls: seq<Call>, like: Like, key: string)
    requires Filler(a, calls, like, key).Some?
    ensures KeyOf(Filler(a, calls, like, key).value) == key
    ensures exists i :: 0 <= i < |calls| && calls[i] == GetRoutes(Filler(a, calls, like, key).value)
    decreases |calls|
  {
    hide KeyOf, HandleAll, ListActive;
    var n := |calls| - 1;
    if Fills(HandleAll(a, calls[..n], like), calls[n], key) {
      assert calls[n] == GetRoutes(Filler(a, calls, like, key).value);
    } else {
      FillerWasAsked(a, calls[..n], like, key);
      var i :| 0 <= i < n && calls[..n][i] == GetRoutes(Filler(a, calls[..n], like, key).value);
      assert calls[i] == GetRoutes(Filler(a, calls, like, key).value);
    }
  }

  // ---- every cached page is its filler's current result ----

  ghost predicate PagesOfFillers(a: App, calls: seq<Call>, like: Like) {
    var a' := HandleAll(a, calls, like);
    forall q: Query {:trigger KeyOf(q)} :: KeyOf(q) in a'.cache ==>
      var f := Filler(a, calls, like, KeyOf(q));
      f.Some? && a'.cache[KeyOf(q)].value == PageValue(ListActive(a'.core.db, f.value, like))
  }

  /** A call either fills the entry, or leaves it and the routes table alone, or removes it. */
  lemma CallOnPage(a: App, call: Call, like: Like, q: Query)
    requires !a.on ==> a.cache == map[]
    ensures var a' := Handle(a, call, like);
            && (Fills(a, call, KeyOf(q)) ==>
                  KeyOf(q) in a'.cache
                  && a'.cache[KeyOf(q)].value == PageValue(ListActive(a'.core.db, call.query, like)))
            && (!Fills(a, call, KeyOf(q)) && KeyOf(q) in a'.cache ==>
                  KeyOf(q) in a.cache && a'.cache[KeyOf(q)].value == a.cache[KeyOf(q)].value
                  && a'.core.db.routes == a.core.db.routes)
  {
    hide ListActive, SeatKey, SeatList, Glob, SeatPattern, SeatTaken, RouteKey, BookGuard, CancelGuard;
    match call
    case PostRoute(_, _) => SearchesDropped(q);
    case GetSeats(r) => KeyKinds(r, q);
    case _ =>
  }

  lemma SearchesDropped(q: Query)
    ensures Glob(ROUTES_PATTERN, KeyOf(q))
  {
    RoutesPatternIsPrecise(0, q.origin, q.destination, q.page, q.size, "", "");
  }

  lemma OffStaysEmpty(a: App, call: Call, like: Like)
    requires !a.on ==> a.cache == map[]
    ensures !Handle(a, call, like).on ==> Handle(a, call, like).cache == map[]
  {
    hide ListActive, SeatKey, SeatList, Glob, SeatPattern, SeatTaken, RouteKey;
  }

  lemma {:induction false} RunsKeepFillers(a: App, calls: seq<Call>, like: Like)
    requires a.cache == map[]
    ensures PagesOfFillers(a, calls, like)
    ensures !a.on ==> HandleAll(a, calls, like).cache == map[]
    decreases |calls|
  {
    hide Handle, ListActive, KeyOf, Fills;
    StaysOff(a, calls, like);
    if calls != [] {
      var n := |calls| - 1;
      var front := HandleAll(a, calls[..n], like);
      RunsKeepFillers(a, calls[..n], like);
      StaysOff(a, calls[..n], like);
      OffStaysEmpty(front, calls[n], like);
      var a' := HandleAll(a, calls, like);
      forall q: Query {:trigger KeyOf(q)} | KeyOf(q) in a'.cache
        ensures var f := Filler(a, calls, like, KeyOf(q));
                f.Some? && a'.cache[KeyOf(q)].value == PageValue(ListActive(a'.core.db, f.value, like))
      {
        CallOnPage(front, calls[n], like, q);
        if !Fills(front, calls[n], KeyOf(q)) {
          SearchFrame(front.core.db, a'.core.db, Filler(a, calls[..n], like, KeyOf(q)).value, like);
        }
      }
    }
  }

  /** After any sequence of whole requests, with any filters and whatever fails or expires, the answer to a search is
      the current result of one asked in the run, or of itself, that has the same cache key; and it is right exactly
      when that one's current result is its own. */
  lemma SearchAnswersAre(a: App, calls: seq<Call>, like: Like, q: Query)
    requires a.cache == map[]
    ensures var a', f := HandleAll(a, calls, like), Answerer(a, calls, like, q);
            && KeyOf(f) == KeyOf(q) && (f == q || exists i :: 0 <= i < |calls| && calls[i] == GetRoutes(f))
            && ListRoutes(a', q, like).1 == PageValue(ListActive(a'.core.db, f, like))
            && (ListRoutes(a', q, like).1 == PageValue(ListActive(a'.core.db, q, like))
                <==> ListActive(a'.core.db, f, like) == ListActive(a'.core.db, q, like))
  {
    hide ListActive, HandleAll, RouteKey, Filler;
    RunsKeepFillers(a, calls, like);
    if Filler(a, calls, like, KeyOf(q)).Some? { FillerWasAsked(a, calls, like, KeyOf(q)); }
  }

  // ---- consequences ----

  /** Every search asked in the run has filters that its key shows unambiguously. */
  ghost predicate CleanCall(call: Call) { call.GetRoutes? ==> CleanQuery(call.query) }

  /** If all searches are clean, `list_routes` answers what `list_active` would answer now. */
  lemma SearchAnswersAreExact(a: App, calls: seq<Call>, like: Like, q: Query)
    requires a.cache == map[] && CleanQuery(q) && forall i :: 0 <= i < |calls| ==> CleanCall(calls[i])
    ensures var a' := HandleAll(a, calls, like);
            ListRoutes(a', q, like).1 == PageValue(ListActive(a'.core.db, q, like))
  {
    hide ListActive, HandleAll, RouteKey, Clean, Answerer, ListRoutes;
    var f := Answerer(a, calls, like, q);
    SearchAnswersAre(a, calls, like, q);
    if f != q {
      var i :| 0 <= i < |calls| && calls[i] == GetRoutes(f);
      assert CleanCall(calls[i]);
    }
    CleanKeysDistinct(f.origin, f.destination, f.page, f.size, q.origin, q.destination, q.page, q.size);
  }

  /** Two searches in a row, of any texts, on an empty cache: the second is answered rightly exactly when it has
      another page, size or printed filters than the first, or happens to have the same result. */
  lemma SecondSearchRightIff(a: App, q1: Query, q2: Query, like: Like)
    requires a.on && a.cache == map[]
    ensures ListRoutes(ListRoutes(a, q1, like).0, q2, like).1 == PageValue(ListActive(a.core.db, q2, like))
       <==> q1.page != q2.page || q1.size != q2.size
            || Filters(q1.origin, q1.destination) != Filters(q2.origin, q2.destination)
            || ListActive(a.core.db, q1, like) == ListActive(a.core.db, q2, like)
  {
    hide ListActive, Filters, RouteKey, ListRoutes;
    var calls := [GetRoutes(q1)];
    assert calls[..0] == [];
    SearchAnswersAre(a, calls, like, q2);
    SearchChangesNoRow(a, q1, like);
    FirstFills(a, q1, q2, like);
    RouteKeysCollide(q1.origin, q1.destination, q1.page, q1.size, q2.origin, q2.destination, q2.page, q2.size);
  }

  lemma FirstFills(a: App, q1: Query, q2: Query, like: Like)
    requires a.on && a.cache == map[]
    ensures Answerer(a, [GetRoutes(q1)], like, q2) == if KeyOf(q1) == KeyOf(q2) then q1 else q2
  {
    hide ListActive, RouteKey;
    assert [GetRoutes(q1)][..0] == [];
  }

  lemma SmallerSearch(keys: map<nat, int>, fewer: map<nat, int>)
    requires fewer.Keys <= keys.Keys && |fewer| == |keys|
    ensures fewer.Keys == keys.Keys
  {
    var rest := keys.Keys - fewer.Keys;
    assert keys.Keys == fewer.Keys + rest;
    assert |keys| == |keys.Keys| && |fewer| == |fewer.Keys|;
  }

  /** Adding a filter changes the answer, on whatever page, exactly when it shuts out a route: the total tells. */
  lemma NarrowerSearch(db: Db, q: Query, origin: string, like: Like)
    requires q.origin == None && origin != ""
    ensures ListActive(db, q, like) == ListActive(db, q.(origin := Some(origin)), like)
       <==> forall r :: r in db.routes && Matches(db.routes[r], None, q.destination, like)
              ==> like(origin, db.routes[r].origin)
  {
    hide PageOf, Items;
    var keys, fewer := Departures(db, None, q.destination, like), Departures(db, Some(origin), q.destination, like);
    if ListActive(db, q, like) == ListActive(db, q.(origin := Some(origin)), like) {
      SmallerSearch(keys, fewer);
      forall r | r in db.routes && Matches(db.routes[r], None, q.destination, like)
        ensures like(origin, db.routes[r].origin)
      {
        assert r in keys.Keys;
      }
    }
    if forall r :: r in db.routes && Matches(db.routes[r], None, q.destination, like)
         ==> like(origin, db.routes[r].origin) {
      assert keys == fewer;
    }
  }

  /** A search without an origin, then the same one for the origin "None", on an empty cache: the second is answered
      rightly exactly when every active route that passes the destination filter also matches "None". */
  lemma NoneSearchRightIff(a: App, q: Query, like: Like)
    requires a.on && a.cache == map[] && q.origin == None
    ensures var none := q.(origin := Some("None"));
            ListRoutes(ListRoutes(a, q, like).0, none, like).1 == PageValue(ListActive(a.core.db, none, like))
            <==> forall r :: r in a.core.db.routes && Matches(a.core.db.routes[r], None, q.destination, like)
                   ==> like("None", a.core.db.routes[r].origin)
  {
    hide ListRoutes, ListActive, Matches;
    var none := q.(origin := Some("None"));
    SecondSearchRightIff(a, q, none, like);
    assert Filters(None, q.destination) == Filters(Some("None"), q.destination);
    NarrowerSearch(a.core.db, q, "None", like);
  }
}
