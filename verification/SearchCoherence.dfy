/** When a page is the state of one moment, and when it is the current one, under any interleaving. */
module SearchCoherence {
  import opened Rows
  import opened Ordering
  import opened CacheKeys
  import opened Search
  import opened Protocol
  import opened ProtocolSafety
  import opened ProtocolResults
  import opened Staleness
  import opened SearchStaleness
  import S = SerialIsRun

  // ---- routes are only ever added ----

  ghost predicate RoutesGrow(db: Db, db': Db) {
    forall r :: r in db.routes ==> r in db'.routes && db'.routes[r] == db.routes[r]
  }

  /** The routes `db'` has more than `db` that a search finds. */
  function NewMatches(db: Db, db': Db, q: Query, like: Like): set<nat> {
    set r | r in db'.routes && r !in db.routes && Matches(db'.routes[r], q.origin, q.destination, like)
  }

  /** A new matching route always changes the answer: the total tells, whatever the page. */
  lemma GrowthShows(db: Db, db': Db, q: Query, like: Like)
    requires RoutesGrow(db, db')
    ensures ListActive(db', q, like).total == ListActive(db, q, like).total + |NewMatches(db, db', q, like)|
    ensures NewMatches(db, db', q, like) == {} <==> ListActive(db', q, like) == ListActive(db, q, like)
  {
    hide Matches, PageOf, Items;
    var keys, keys' := Departures(db, q.origin, q.destination, like), Departures(db', q.origin, q.destination, like);
    var more := NewMatches(db, db', q, like);
    assert keys'.Keys == keys.Keys + more;
    assert |keys'| == |keys'.Keys| && |keys| == |keys.Keys|;
    assert |keys.Keys + more| == |keys.Keys| + |more|;
    if more == {} { SameMatches(db, db', q, like); }
  }

  lemma SameItems(db: Db, db': Db, ids: seq<nat>)
    requires RoutesGrow(db, db') && forall i :: 0 <= i < |ids| ==> ids[i] in db.routes
    ensures Items(db'.routes, ids) == Items(db.routes, ids)
  {
  }

  lemma SameMatches(db: Db, db': Db, q: Query, like: Like)
    requires RoutesGrow(db, db') && NewMatches(db, db', q, like) == {}
    ensures ListActive(db', q, like) == ListActive(db, q, like)
  {
    hide Matches, PageOf;
    var keys, keys' := Departures(db, q.origin, q.destination, like), Departures(db', q.origin, q.destination, like);
    forall r | r in keys' ensures r in keys && keys'[r] == keys[r] {
      assert r !in NewMatches(db, db', q, like);
    }
    assert keys' == keys;
    var ids := Sorted(keys);
    var cut := PageOf(ids, q.page, q.size);
    forall i | 0 <= i < |cut| ensures cut[i] in keys {
      assert cut[i] in ids;
    }
    SameItems(db, db', cut);
  }

  ghost predicate Monotone(h: seq<Snapshot>) {
    forall i, j :: 0 <= i <= j < |h| ==> RoutesGrow(h[i].db, h[j].db)
  }

  lemma EvolvingRoutesGrow(db: Db, db': Db)
    requires Evolves(db, db')
    ensures RoutesGrow(db, db')
  {
  }

  lemma MonotoneSnoc(h: seq<Snapshot>, h': seq<Snapshot>)
    requires Monotone(h) && |h| > 0 && |h'| == |h| + 1 && h'[..|h|] == h
    requires RoutesGrow(h[|h| - 1].db, h'[|h|].db)
    ensures Monotone(h')
  {
    forall i, j | 0 <= i <= j < |h'| ensures RoutesGrow(h'[i].db, h'[j].db) {
      assert i < |h| ==> h'[i] == h[i];
      if j < |h| {
        assert h'[j] == h[j];
      } else if i < |h| {
        assert RoutesGrow(h[i].db, h[|h| - 1].db);
      }
    }
  }

  lemma OtherKeepsMonotone(s: Sys, a: Action)
    requires Safe(s) && Monotone(s.history) && BoundedStaleness(s)
    ensures Safe(Next(s, a)) && Monotone(Next(s, a).history)
  {
    hide Safe, Next, Monotone, BoundedStaleness, Extends, Evolves, RoutesGrow;
    var s' := Next(s, a);
    NextKeepsSafe(s, a);
    HistoryExtends(s, a);
    StepEvolves(s, a);
    EvolvingRoutesGrow(s.core.db, s'.core.db);
    NextKeepsBound(s, a);
    Now(s);
    Now(s');
    GrownHistory(s.history, s'.history, s.now);
  }

  lemma GrownHistory(h: seq<Snapshot>, h': seq<Snapshot>, now: nat)
    requires Extends(h, h', now) && Monotone(h) && |h| > 0 && |h'| > 0
    requires RoutesGrow(h[|h| - 1].db, h'[|h'| - 1].db)
    ensures Monotone(h')
  {
    hide RoutesGrow;
    if h' != h { MonotoneSnoc(h, h'); }
  }

  lemma {:induction false} RunsAreMonotone(t: Site, steps: seq<Step>, like: Like)
    requires Opens(t)
    ensures var t' := RunSite(t, steps, like); Safe(t'.sys) && Monotone(t'.sys.history)
    decreases |steps|
  {
    hide Safe, Next, GoOn, Abandon, ClearsPages, SiteBounded;
    if steps == [] {
      EveryRunIsSafe(t.sys, []);
    } else {
      hide Opens, Monotone, BoundedStaleness;
      var front, step := RunSite(t, steps[..|steps| - 1], like), steps[|steps| - 1];
      RunsAreMonotone(t, steps[..|steps| - 1], like);
      RunsAreBounded(t, steps[..|steps| - 1], like);
      BoundedSys(front, like);
      if step.Other? { OtherKeepsMonotone(front.sys, step.a); } else { SearchesTouchNothing(front, step, like); }
    }
  }

  lemma BoundedSys(t: Site, like: Like)
    requires SiteBounded(t, like)
    ensures BoundedStaleness(t.sys)
  {
    hide BoundedStaleness;
  }

  lemma SearchesTouchNothing(t: Site, step: Step, like: Like)
    requires !step.Other?
    ensures NextSite(t, step, like).sys == t.sys
  {
    hide ListActive, KeyOf;
  }

  // ---- a page of one moment ----

  predicate IsPageAt(h: seq<Snapshot>, k: nat, q: Query, page: RoutePage, like: Like) {
    1 <= k <= |h| && page == ListActive(h[k - 1].db, q, like)
  }

  /** A page read in two queries is the page of the moment its rows were read exactly when no matching route was
      committed in between; and it is the page of any committed state at all exactly when its rows did not change. */
  lemma WholePageIff(h: seq<Snapshot>, q: Query, r: PageReading, now: nat, like: Like)
    requires PageOk(h, q, r, now, like) && Monotone(h)
    ensures IsPageAt(h, r.rowsSnap, q, r.page, like)
       <==> NewMatches(h[r.countSnap - 1].db, h[r.rowsSnap - 1].db, q, like) == {}
    ensures (exists k: nat :: IsPageAt(h, k, q, r.page, like))
       <==> ListActive(h[r.countSnap - 1].db, q, like).items == r.page.items
  {
    hide ListActive, NewMatches, RoutesGrow;
    PageShape(h[r.countSnap - 1].db, q, like);
    PageShape(h[r.rowsSnap - 1].db, q, like);
    GrowthShows(h[r.countSnap - 1].db, h[r.rowsSnap - 1].db, q, like);
    if k: nat :| IsPageAt(h, k, q, r.page, like) {
      SameTotalSamePage(h, k, r.countSnap, q, like);
    }
    if ListActive(h[r.countSnap - 1].db, q, like).items == r.page.items {
      assert IsPageAt(h, r.countSnap, q, r.page, like);
    }
  }

  lemma PageShape(db: Db, q: Query, like: Like)
    ensures ListActive(db, q, like).page == q.page && ListActive(db, q, like).size == q.size
  {
  }

  lemma SameTotalSamePage(h: seq<Snapshot>, k: nat, n: nat, q: Query, like: Like)
    requires Monotone(h) && 1 <= k <= |h| && 1 <= n <= |h|
    requires ListActive(h[k - 1].db, q, like).total == ListActive(h[n - 1].db, q, like).total
    ensures ListActive(h[k - 1].db, q, like) == ListActive(h[n - 1].db, q, like)
  {
    hide ListActive, NewMatches, RoutesGrow;
    if k <= n {
      GrowthShows(h[k - 1].db, h[n - 1].db, q, like);
    } else {
      GrowthShows(h[n - 1].db, h[k - 1].db, q, like);
    }
  }

  /** Every page served in any interleaving: its reading, how old it may be, and exactly when it is whole. */
  lemma ServedPageWholeIff(t: Site, steps: seq<Step>, like: Like, v: ServedPage) returns (r: PageReading)
    requires Opens(t) && v in RunSite(t, steps, like).served
    ensures var h := RunSite(t, steps, like).sys.history;
            && (exists written: nat :: PageFrom(h, v, r, written, like))
            && (IsPageAt(h, r.rowsSnap, v.filler, v.page, like)
                <==> NewMatches(h[r.countSnap - 1].db, h[r.rowsSnap - 1].db, v.filler, like) == {})
            && ((exists k: nat :: IsPageAt(h, k, v.filler, v.page, like))
                <==> ListActive(h[r.countSnap - 1].db, v.filler, like).items == v.page.items)
  {
    hide Opens, RunSite, Monotone, NewMatches, ListActive, Safe;
    var h := RunSite(t, steps, like).sys.history;
    ServedSearchesAreFresh(t, steps, like, v);
    RunsAreMonotone(t, steps, like);
    var written: nat;
    r, written :| PageFrom(h, v, r, written, like);
    WholePageIff(h, v.filler, r, written, like);
  }

  // ---- a current page ----

  /** A cached page of `f` that has not expired. */
  predicate ServablePage(t: Site, f: Query) {
    KeyOf(f) in t.pages && t.sys.now <= t.pages[KeyOf(f)].expires && t.pages[KeyOf(f)].query == f
  }

  predicate WorksOn(w: Searcher, f: Query) { (w.Counted? || w.Queried?) && w.query == f }

  /** A page of `f` is cached and not expired, or a reader of `f` has begun to read. */
  ghost predicate HeldPage(t: Site, f: Query) {
    ServablePage(t, f) || exists i :: i in t.searchers && WorksOn(t.searchers[i], f)
  }

  predicate CurrentWork(w: Searcher, f: Query, db: Db, like: Like) {
    && (w.Counted? && w.query == f ==> w.total == ListActive(db, f, like).total)
    && (w.Queried? && w.query == f ==> w.reading.page == ListActive(db, f, like))
  }

  /** Whatever is held of `f` agrees with the committed tables. */
  ghost predicate Current(t: Site, f: Query, like: Like) {
    && (ServablePage(t, f) ==> t.pages[KeyOf(f)].reading.page == ListActive(t.sys.core.db, f, like))
    && (forall i :: i in t.searchers ==> CurrentWork(t.searchers[i], f, t.sys.core.db, like))
  }

  lemma SearchesKeepCurrent(t: Site, step: Step, f: Query, like: Like)
    requires Current(t, f, like) && !step.Other?
    ensures Current(NextSite(t, step, like), f, like)
  {
    hide KeyOf, AllIds, PageOf, Items;
    match step
    case Ask(_, _) =>
    case Go(rid) => if rid in t.searchers { assert CurrentWork(t.searchers[rid], f, t.sys.core.db, like); }
    case GiveUp(rid, _) => if rid in t.searchers { assert CurrentWork(t.searchers[rid], f, t.sys.core.db, like); }
    case Forget(_) =>
  }

  lemma QuietKeepsCurrent(t: Site, a: Action, f: Query, like: Like)
    requires Current(t, f, like) && Next(t.sys, a).core.db == t.sys.core.db
    ensures Current(NextSite(t, Other(a), like), f, like)
  {
    hide KeyOf, ListActive, Next, Glob, Extends, ClearsPages;
    HistoryExtends(t.sys, a);
  }

  /** A commit: its session has long passed the statement that clears the cached searches. */
  lemma CommitLeavesPages(t: Site, a: Action, like: Like)
    requires Next(t.sys, a).core.db != t.sys.core.db
    ensures var t' := NextSite(t, Other(a), like);
            t' == t.(sys := Next(t.sys, a)) && t'.sys.now == t.sys.now
  {
    hide Next, Run1, Waits, Overlay;
    OnlyCommitsShow(t.sys, a);
    CommitIsNow(t.sys, a);
  }

  lemma CommitIsNow(s: Sys, a: Action)
    requires a.Exec? && a.sid in s.sessions && AtCommit(s.sessions[a.sid])
    ensures Next(s, a).now == s.now
  {
    hide Overlay, Waits, Run1;
    Run1Rows(s, a.sid, s.sessions[a.sid]);
  }

  /** One step keeps the pages of `f` current if and only if it commits no route that `f` finds, or nothing of `f` is
      held at that moment: clearing the cache before the commit does not help a reader that comes in between. */
  lemma StepCurrentIff(t: Site, step: Step, f: Query, like: Like)
    requires Current(t, f, like) && Safe(t.sys)
    ensures var t' := NextSite(t, step, like);
            Current(t', f, like) <==> NewMatches(t.sys.core.db, t'.sys.core.db, f, like) == {} || !HeldPage(t, f)
  {
    hide Current, HeldPage, Safe, Next, ListActive, KeyOf, RoutesGrow, Evolves;
    var t' := NextSite(t, step, like);
    if !step.Other? {
      SearchesKeepCurrent(t, step, f, like);
      SearchesTouchNothing(t, step, like);
    } else if t'.sys.core.db == t.sys.core.db {
      QuietKeepsCurrent(t, step.a, f, like);
    } else {
      StepEvolves(t.sys, step.a);
      EvolvingRoutesGrow(t.sys.core.db, t'.sys.core.db);
      GrowthShows(t.sys.core.db, t'.sys.core.db, f, like);
      CommitLeavesPages(t, step.a, like);
      CommitCurrentIff(t, t', f, like);
    }
  }

  lemma CommitCurrentIff(t: Site, t': Site, f: Query, like: Like)
    requires Current(t, f, like) && t' == t.(sys := t'.sys) && t'.sys.now == t.sys.now
    requires ListActive(t'.sys.core.db, f, like) == ListActive(t.sys.core.db, f, like)
          || ListActive(t'.sys.core.db, f, like).total != ListActive(t.sys.core.db, f, like).total
    ensures Current(t', f, like)
       <==> ListActive(t'.sys.core.db, f, like) == ListActive(t.sys.core.db, f, like) || !HeldPage(t, f)
  {
    hide ListActive, KeyOf;
    if HeldPage(t, f) && !ServablePage(t, f) {
      var i :| i in t.searchers && WorksOn(t.searchers[i], f);
      assert CurrentWork(t.searchers[i], f, t.sys.core.db, like);
      assert Current(t', f, like) ==> CurrentWork(t'.searchers[i], f, t'.sys.core.db, like);
    }
  }

  ghost predicate CurrentThroughout(t: Site, steps: seq<Step>, f: Query, like: Like) {
    forall n: nat {:trigger steps[..n]} | n <= |steps| :: Current(RunSite(t, steps[..n], like), f, like)
  }

  ghost predicate Harmless(t: Site, step: Step, f: Query, like: Like) {
    NewMatches(t.sys.core.db, NextSite(t, step, like).sys.core.db, f, like) == {} || !HeldPage(t, f)
  }

  ghost predicate AllHarmless(t: Site, steps: seq<Step>, f: Query, like: Like) {
    forall n: nat {:trigger steps[..n]} | n < |steps| :: Harmless(RunSite(t, steps[..n], like), steps[n], f, like)
  }

  lemma {:induction false} HarmlessRunsAreCurrent(t: Site, steps: seq<Step>, f: Query, like: Like)
    requires Opens(t) && AllHarmless(t, steps, f, like)
    ensures Current(RunSite(t, steps, like), f, like)
    decreases |steps|
  {
    hide NextSite, Harmless, Initial;
    if steps != [] {
      hide Current, Opens, AllHarmless;
      var n := |steps| - 1;
      HarmlessFront(t, steps, n, f, like);
      HarmlessRunsAreCurrent(t, steps[..n], f, like);
      RunsAreMonotone(t, steps[..n], like);
      hide RunSite, Safe, Monotone;
      RunSiteLast(t, steps, like);
      StepHarmlessIff(RunSite(t, steps[..n], like), steps[n], f, like);
    }
  }

  lemma StepHarmlessIff(t: Site, step: Step, f: Query, like: Like)
    requires Current(t, f, like) && Safe(t.sys)
    ensures Current(NextSite(t, step, like), f, like) <==> Harmless(t, step, f, like)
  {
    hide Current, Safe, NextSite, HeldPage, NewMatches;
    StepCurrentIff(t, step, f, like);
  }

  lemma HarmlessFront(t: Site, steps: seq<Step>, n: nat, f: Query, like: Like)
    requires AllHarmless(t, steps, f, like) && n <= |steps|
    ensures AllHarmless(t, steps[..n], f, like)
    ensures n < |steps| ==> Harmless(RunSite(t, steps[..n], like), steps[n], f, like)
  {
    hide RunSite, Harmless;
    var front := steps[..n];
    assert steps[..n] == front;
    forall m: nat {:trigger front[..m]} | m < |front|
      ensures Harmless(RunSite(t, front[..m], like), front[m], f, like)
    {
      assert steps[..m] == front[..m];
    }
  }

  lemma RunSiteLast(t: Site, steps: seq<Step>, like: Like)
    requires steps != []
    ensures RunSite(t, steps, like)
         == NextSite(RunSite(t, steps[..|steps| - 1], like), steps[|steps| - 1], like)
  {
    hide NextSite;
  }

  /** The pages of `f`, cached or being read, are current from the first state of a run to the last if and only if no
      step commits a route that `f` finds while something of `f` is held. */
  lemma CurrentThroughoutIff(t: Site, steps: seq<Step>, f: Query, like: Like)
    requires Opens(t)
    ensures CurrentThroughout(t, steps, f, like) <==> AllHarmless(t, steps, f, like)
  {
    hide Opens, RunSite, NextSite, Current, Harmless, Safe, Monotone;
    if CurrentThroughout(t, steps, f, like) {
      forall n: nat {:trigger steps[..n]} | n < |steps|
        ensures Harmless(RunSite(t, steps[..n], like), steps[n], f, like)
      {
        var upto := steps[..n + 1];
        assert upto[..n] == steps[..n];
        RunSiteLast(t, upto, like);
        RunsAreMonotone(t, steps[..n], like);
        StepHarmlessIff(RunSite(t, steps[..n], like), steps[n], f, like);
      }
    }
    if AllHarmless(t, steps, f, like) {
      forall n: nat {:trigger steps[..n]} | n <= |steps| ensures Current(RunSite(t, steps[..n], like), f, like) {
        HarmlessFront(t, steps, n, f, like);
        HarmlessRunsAreCurrent(t, steps[..n], f, like);
      }
    }
  }

  /** A page of `f` served in such a state is what the database would answer at that moment. */
  lemma AnswersAreCurrent(t: Site, step: Step, f: Query, like: Like)
    requires Current(t, f, like) && |NextSite(t, step, like).served| > |t.served|
    requires NextSite(t, step, like).served[|t.served|].filler == f
    requires SiteBounded(t, like)
    ensures NextSite(t, step, like).served[|t.served|].page == ListActive(t.sys.core.db, f, like)
  {
    hide KeyOf, ListActive, Next, BoundedStaleness, FreshPage, PageOk;
    assert CurrentWork(t.searchers[step.rid], f, t.sys.core.db, like);
    var q := t.searchers[step.rid].query;
    assert KeyOf(q) in t.pages ==> PageEntryOk(t.sys.history, KeyOf(q), t.pages[KeyOf(q)], t.sys.now, like);
  }

  // ---- what goes wrong, from any opening state ----

  lemma OnePageShowsAll(db: Db, q: Query, like: Like)
    requires q.page == 1 && ListActive(db, q, like).total <= q.size
    ensures |ListActive(db, q, like).items| == ListActive(db, q, like).total
  {
    hide AllIds;
    assert (q.page - 1) * q.size == 0;
  }

  lemma AddedRouteCounts(db: Db, id: nat, r: Route, first: nat, q: Query, like: Like)
    requires id !in db.routes && Matches(r, q.origin, q.destination, like)
    ensures ListActive(WithRoute(db, id, r, first), q, like).total == ListActive(db, q, like).total + 1
  {
    hide Matches, ListActive, NewSeats;
    assert NewMatches(db, WithRoute(db, id, r, first), q, like) == {id};
    GrowthShows(db, WithRoute(db, id, r, first), q, like);
  }

  lemma Follow(t: Site, steps: seq<Step>, step: Step, like: Like)
    ensures RunSite(t, steps + [step], like) == NextSite(RunSite(t, steps, like), step, like)
  {
    hide NextSite;
    RunSiteLast(t, steps + [step], like);
    assert (steps + [step])[..|steps|] == steps;
  }

  /** A route creation that has done everything but commit, beside no cached page. */
  ghost predicate AboutToCommit(t: Site, c: Core, r: Route) {
    Safe(t.sys) && S.RouteAt(t.sys, 3, c, r) && t.pages == map[] && t.searchers == map[] && t.served == []
  }

  lemma OtherOnNothing(t: Site, a: Action, like: Like)
    requires t.pages == map[]
    ensures NextSite(t, Other(a), like) == t.(sys := Next(t.sys, a))
  {
    hide Next, ClearsPages;
  }

  function Prelude(r: Route): seq<Step> {
    [Other(Begin(0, AddRoute(r)))] + [Other(Exec(0))] + [Other(Exec(0))] + [Other(Exec(0))]
  }

  lemma PreludeRuns(t: Site, r: Route, like: Like)
    requires Opens(t)
    ensures AboutToCommit(RunSite(t, Prelude(r), like), t.sys.core, r)
    ensures RunSite(t, Prelude(r), like).sys.core.db == t.sys.core.db
  {
    hide Safe, Next, S.RouteAt, RunSite, NextSite, Consistent;
    EveryRunIsSafe(t.sys, []);
    S.RouteBegins(t.sys, r);
    var s0 := Next(t.sys, Begin(0, AddRoute(r)));
    S.RouteStep(s0, 0, t.sys.core, r);
    var s1 := Next(s0, Exec(0));
    S.RouteStep(s1, 1, t.sys.core, r);
    var s2 := Next(s1, Exec(0));
    S.RouteStep(s2, 2, t.sys.core, r);
    OtherOnNothing(t, Begin(0, AddRoute(r)), like);
    OtherOnNothing(t.(sys := s0), Exec(0), like);
    OtherOnNothing(t.(sys := s1), Exec(0), like);
    OtherOnNothing(t.(sys := s2), Exec(0), like);
    var p1 := [Other(Begin(0, AddRoute(r)))];
    assert [] + p1 == p1;
    Follow(t, [], Other(Begin(0, AddRoute(r))), like);
    Follow(t, p1, Other(Exec(0)), like);
    Follow(t, p1 + [Other(Exec(0))], Other(Exec(0)), like);
    Follow(t, p1 + [Other(Exec(0))] + [Other(Exec(0))], Other(Exec(0)), like);
    StartsHere(t, like);
    RouteAtCore(Next(s2, Exec(0)), t.sys.core, r);
  }

  lemma StartsHere(t: Site, like: Like)
    ensures RunSite(t, [], like) == t
  {
  }

  lemma RouteAtCore(s: Sys, c: Core, r: Route)
    requires S.RouteAt(s, 3, c, r)
    ensures s.core.db == c.db
  {
  }

  lemma CommitAdds(t: Site, c: Core, r: Route, like: Like)
    requires Safe(t.sys) && S.RouteAt(t.sys, 3, c, r)
    ensures var t' := NextSite(t, Other(Exec(0)), like);
            && t' == t.(sys := t'.sys) && t'.sys.sessions == map[] && t'.sys.now == t.sys.now
            && c.nextRoute !in c.db.routes && t'.sys.core.db == WithRoute(c.db, c.nextRoute, r, c.nextSeat)
  {
    hide Safe, Overlay, CoreOk, NewSeats;
    SafeParts(t.sys, 0);
    RouteRows(t.sys.core, t.sys.sessions[0]);
    assert !Waits(t.sys, 0);
  }

  /** Both queries of a search with the commit of a matching route between them: when everything has finished, a page
      has been served that lists one route more than its total. */
  lemma TotalBehindRows(t: Site, r: Route, q: Query, like: Like) returns (steps: seq<Step>)
    requires Opens(t) && Matches(r, q.origin, q.destination, like)
    requires q.page == 1 && ListActive(t.sys.core.db, q, like).total < q.size
    ensures var t' := RunSite(t, steps, like);
            && t'.sys.sessions == map[] && t'.searchers == map[] && |t'.served| == 1
            && |t'.served[0].page.items| == t'.served[0].page.total + 1
  {
    hide Opens, RunSite, ListActive, KeyOf, Safe, S.RouteAt, Matches;
    PreludeRuns(t, r, like);
    var c := t.sys.core;
    steps := Prelude(r);
    Follow(t, steps, Ask(0, q), like);
    steps := steps + [Ask(0, q)];
    Follow(t, steps, Go(0), like);
    steps := steps + [Go(0)];
    Follow(t, steps, Go(0), like);
    steps := steps + [Go(0)];
    CommitAdds(RunSite(t, steps, like), c, r, like);
    Follow(t, steps, Other(Exec(0)), like);
    steps := steps + [Other(Exec(0))];
    AddedRouteCounts(c.db, c.nextRoute, r, c.nextSeat, q, like);
    OnePageShowsAll(WithRoute(c.db, c.nextRoute, r, c.nextSeat), q, like);
    Follow(t, steps, Go(0), like);
    steps := steps + [Go(0)];
    Follow(t, steps, Go(0), like);
    steps := steps + [Go(0)];
  }

  /** Clear, refill, commit: a search in the gap leaves its page in the cache, and the next one is answered with it
      although every request has finished and the tables hold one matching route more. */
  lemma StaleSearch(t: Site, r: Route, q: Query, like: Like) returns (steps: seq<Step>)
    requires Opens(t) && Matches(r, q.origin, q.destination, like)
    ensures var t' := RunSite(t, steps, like);
            && t'.sys.sessions == map[] && t'.searchers == map[] && |t'.served| == 2
            && t'.served[1].query == q && t'.served[1].at == t'.sys.now
            && t'.served[1].page.total + 1 == ListActive(t'.sys.core.db, q, like).total
  {
    hide Opens, RunSite, ListActive, KeyOf, Safe, S.RouteAt, Matches;
    PreludeRuns(t, r, like);
    var c := t.sys.core;
    steps := Prelude(r);
    Follow(t, steps, Ask(0, q), like);
    steps := steps + [Ask(0, q)];
    Follow(t, steps, Go(0), like);
    steps := steps + [Go(0)];
    Follow(t, steps, Go(0), like);
    steps := steps + [Go(0)];
    Follow(t, steps, Go(0), like);
    steps := steps + [Go(0)];
    Follow(t, steps, Go(0), like);
    steps := steps + [Go(0)];
    CommitAdds(RunSite(t, steps, like), c, r, like);
    Follow(t, steps, Other(Exec(0)), like);
    steps := steps + [Other(Exec(0))];
    AddedRouteCounts(c.db, c.nextRoute, r, c.nextSeat, q, like);
    Follow(t, steps, Ask(0, q), like);
    steps := steps + [Ask(0, q)];
    Follow(t, steps, Go(0), like);
    steps := steps + [Go(0)];
  }
}
