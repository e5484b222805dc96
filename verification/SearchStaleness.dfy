/** How old a served search may be when searches, route creations and everything else interleave. A search reads the
    database twice, once for the total and once for the rows. */
module SearchStaleness {
  import opened Rows
  import opened CacheKeys
  import opened Search
  import opened Protocol
  import opened Staleness
  import opened Requests

  /** What a reader has read: the total, then the rows, each with the snapshot it saw and the time. */
  datatype PageReading = PageReading(page: RoutePage, countSnap: nat, countAt: nat, rowsSnap: nat, rowsAt: nat)

  datatype Searcher =
    | Started(query: Query)
    | Missed(query: Query)
    | Counted(query: Query, total: nat, snap: nat, at: nat)
    | Queried(query: Query, reading: PageReading)

  datatype PageEntry = PageEntry(query: Query, reading: PageReading, written: nat, expires: nat)

  /** One answered search; `filler` is the search whose reader computed the page. */
  datatype ServedPage = ServedPage(query: Query, filler: Query, page: RoutePage, at: nat, fillDelay: nat)

  /** The protocol's system, with the cached searches beside its cached seat lists. */
  datatype Site = Site(sys: Sys, pages: map<string, PageEntry>, searchers: map<nat, Searcher>, served: seq<ServedPage>)

  datatype Step =
    | Other(a: Action)
    | Ask(rid: nat, q: Query)
    | Go(rid: nat)
    | GiveUp(rid: nat, tookEffect: bool)
    | Forget(key: string)

  /** The statement of a route creation that deletes the cached searches, or its failure after doing so. */
  predicate ClearsPages(s: Sys, a: Action) {
    (a.Exec? || (a.Fail? && a.tookEffect)) && a.sid in s.sessions && s.sessions[a.sid].pc.RouteSeated?
  }

  function DropPages(pages: map<string, PageEntry>): map<string, PageEntry> {
    map k | k in pages && !Glob(ROUTES_PATTERN, k) :: pages[k]
  }

  function GoOn(t: Site, rid: nat, like: Like): Site
    requires rid in t.searchers
  {
    var s := t.sys;
    var done := t.(searchers := t.searchers - {rid});
    match t.searchers[rid]
    case Started(q) =>
      var key := KeyOf(q);
      if key in t.pages && s.now <= t.pages[key].expires then
        var e := t.pages[key];
        done.(served := t.served + [ServedPage(q, e.query, e.reading.page, s.now, Span(e.reading.countAt, e.written))])
      else t.(searchers := t.searchers[rid := Missed(q)])
    case Missed(q) =>
      t.(searchers := t.searchers[rid := Counted(q, ListActive(s.core.db, q, like).total, |s.history|, s.now)])
    case Counted(q, total, snap, at) =>
      var page := RoutePage(total, q.page, q.size, ListActive(s.core.db, q, like).items);
      t.(searchers := t.searchers[rid := Queried(q, PageReading(page, snap, at, |s.history|, s.now))])
    case Queried(q, r) =>
      done.(pages := WithPage(t, q, r),
            served := t.served + [ServedPage(q, q, r.page, s.now, Span(r.countAt, s.now))])
  }

  /** The cache with the page a reader has read. */
  function WithPage(t: Site, q: Query, r: PageReading): map<string, PageEntry> {
    t.pages[KeyOf(q) := PageEntry(q, r, t.sys.now, t.sys.now + ROUTES_TTL)]
  }

  /** A failing SETEX may have stored its page. */
  function Abandon(t: Site, rid: nat, tookEffect: bool): Site
    requires rid in t.searchers
  {
    var w, done := t.searchers[rid], t.(searchers := t.searchers - {rid});
    if tookEffect && w.Queried? then done.(pages := WithPage(t, w.query, w.reading)) else done
  }

  function NextSite(t: Site, step: Step, like: Like): Site {
    match step
    case Other(a) => t.(sys := Next(t.sys, a), pages := if ClearsPages(t.sys, a) then DropPages(t.pages) else t.pages)
    case Ask(rid, q) => if rid in t.searchers then t else t.(searchers := t.searchers[rid := Started(q)])
    case Go(rid) => if rid in t.searchers then GoOn(t, rid, like) else t
    case GiveUp(rid, tookEffect) => if rid in t.searchers then Abandon(t, rid, tookEffect) else t
    case Forget(key) => t.(pages := t.pages - {key})
  }

  function RunSite(t: Site, steps: seq<Step>, like: Like): Site {
    if steps == [] then t else NextSite(RunSite(t, steps[..|steps| - 1], like), steps[|steps| - 1], like)
  }

  ghost predicate Opens(t: Site) {
    Initial(t.sys) && t.pages == map[] && t.searchers == map[] && t.served == []
  }

  // ---- the bound ----

  predicate WasCounted(h: seq<Snapshot>, q: Query, total: nat, snap: nat, at: nat, like: Like) {
    InForce(h, snap, at) && total == ListActive(h[snap - 1].db, q, like).total
  }

  predicate WereRows(h: seq<Snapshot>, q: Query, items: seq<RouteOut>, snap: nat, at: nat, like: Like) {
    InForce(h, snap, at) && items == ListActive(h[snap - 1].db, q, like).items
  }

  /** Total and rows are each what the committed tables held when they were read, the total first. */
  predicate PageOk(h: seq<Snapshot>, q: Query, r: PageReading, now: nat, like: Like) {
    && WasCounted(h, q, r.page.total, r.countSnap, r.countAt, like)
    && WereRows(h, q, r.page.items, r.rowsSnap, r.rowsAt, like)
    && r.page.page == q.page && r.page.size == q.size
    && r.countSnap <= r.rowsSnap && r.countAt <= r.rowsAt <= now
  }

  predicate SearcherOk(h: seq<Snapshot>, w: Searcher, now: nat, like: Like) {
    match w
    case Started(_) => true
    case Missed(_) => true
    case Counted(q, total, snap, at) => WasCounted(h, q, total, snap, at, like) && at <= now
    case Queried(q, r) => PageOk(h, q, r, now, like)
  }

  predicate PageEntryOk(h: seq<Snapshot>, key: string, e: PageEntry, now: nat, like: Like) {
    && key == KeyOf(e.query) && PageOk(h, e.query, e.reading, e.written, like)
    && e.written <= now && e.expires == e.written + ROUTES_TTL
  }

  /** The promise to a client: a page computed for a search with the same cache key, from committed tables at most
      the TTL plus the filler's delay ago. */
  ghost predicate FreshPage(h: seq<Snapshot>, v: ServedPage, like: Like) {
    && KeyOf(v.filler) == KeyOf(v.query)
    && exists r: PageReading, written: nat :: PageFrom(h, v, r, written, like)
  }

  /** Counted first, stored at `written`, which is `fillDelay` later, and served at most 30 s after that. */
  predicate PageFrom(h: seq<Snapshot>, v: ServedPage, r: PageReading, written: nat, like: Like) {
    && r.page == v.page && PageOk(h, v.filler, r, written, like)
    && r.countAt <= written <= v.at <= written + 30000 && v.fillDelay == written - r.countAt
  }

  ghost predicate SiteBounded(t: Site, like: Like) {
    && BoundedStaleness(t.sys)
    && (forall k :: k in t.pages ==> PageEntryOk(t.sys.history, k, t.pages[k], t.sys.now, like))
    && (forall i :: i in t.searchers ==> SearcherOk(t.sys.history, t.searchers[i], t.sys.now, like))
    && (forall i :: 0 <= i < |t.served| ==>
          FreshPage(t.sys.history, t.served[i], like) && t.served[i].at <= t.sys.now)
  }

  // ---- commits take nothing from the past ----

  /** `h'` is `h` or has one more snapshot, taken no earlier than `now`. */
  ghost predicate Extends(h: seq<Snapshot>, h': seq<Snapshot>, now: nat) {
    h' == h || (|h'| == |h| + 1 && h'[..|h|] == h && h'[|h|].since >= now)
  }

  lemma HistoryExtends(s: Sys, a: Action)
    ensures Extends(s.history, Next(s, a).history, s.now) && s.now <= Next(s, a).now
  {
    hide Run1, Waits;
    if a.Exec? && a.sid in s.sessions && !Waits(s, a.sid) {
      if Viewing(s.sessions[a.sid]) { ViewsCommitNothing(s, a.sid); } else { WriterExtends(s, a.sid); }
    }
  }

  lemma ViewsCommitNothing(s: Sys, sid: nat)
    requires sid in s.sessions && Viewing(s.sessions[sid])
    ensures Run1(s, sid, s.sessions[sid]).history == s.history && Run1(s, sid, s.sessions[sid]).now == s.now
  {
  }

  lemma WriterExtends(s: Sys, sid: nat)
    requires sid in s.sessions && !Viewing(s.sessions[sid])
    ensures Extends(s.history, Run1(s, sid, s.sessions[sid]).history, s.now)
    ensures Run1(s, sid, s.sessions[sid]).now == s.now
  {
    hide Run1, Overlay;
    WritersOnlyDrop(s, sid);
  }

  lemma PageStays(h: seq<Snapshot>, h': seq<Snapshot>, now: nat, q: Query, r: PageReading, at: nat, like: Like)
    requires Extends(h, h', now) && PageOk(h, q, r, at, like) && at <= now
    ensures PageOk(h', q, r, at, like)
  {
    hide ListActive;
  }

  lemma SearcherStays(h: seq<Snapshot>, h': seq<Snapshot>, now: nat, now': nat, w: Searcher, like: Like)
    requires Extends(h, h', now) && SearcherOk(h, w, now, like) && now <= now'
    ensures SearcherOk(h', w, now', like)
  {
    hide ListActive;
  }

  lemma ServedPageStays(h: seq<Snapshot>, h': seq<Snapshot>, now: nat, v: ServedPage, like: Like)
    requires Extends(h, h', now) && FreshPage(h, v, like) && v.at <= now
    ensures FreshPage(h', v, like)
  {
    hide PageOk, Extends, KeyOf;
    var r: PageReading, written: nat :| PageFrom(h, v, r, written, like);
    PageStays(h, h', now, v.filler, r, written, like);
    assert PageFrom(h', v, r, written, like);
  }

  // ---- every step ----

  lemma OtherKeepsBound(t: Site, a: Action, like: Like)
    requires SiteBounded(t, like)
    ensures SiteBounded(NextSite(t, Other(a), like), like)
  {
    hide BoundedStaleness, PageOk, SearcherOk, FreshPage, Extends, Next, KeyOf, ClearsPages, Glob;
    var t' := NextSite(t, Other(a), like);
    NextKeepsBound(t.sys, a);
    HistoryExtends(t.sys, a);
    forall k | k in t'.pages ensures PageEntryOk(t'.sys.history, k, t'.pages[k], t'.sys.now, like) {
      var e := t.pages[k];
      assert t'.pages[k] == e && PageEntryOk(t.sys.history, k, e, t.sys.now, like);
      PageStays(t.sys.history, t'.sys.history, t.sys.now, e.query, e.reading, e.written, like);
    }
    forall i | i in t'.searchers ensures SearcherOk(t'.sys.history, t'.searchers[i], t'.sys.now, like) {
      SearcherStays(t.sys.history, t'.sys.history, t.sys.now, t'.sys.now, t.searchers[i], like);
    }
    forall i | 0 <= i < |t'.served| ensures FreshPage(t'.sys.history, t'.served[i], like) {
      ServedPageStays(t.sys.history, t'.sys.history, t.sys.now, t.served[i], like);
    }
  }

  lemma Now(s: Sys)
    requires BoundedStaleness(s)
    ensures InForce(s.history, |s.history|, s.now) && s.history[|s.history| - 1].db == s.core.db
  {
    hide CacheOk, ReadersOk, ServedOk;
  }

  lemma ServesFresh(t: Site, v: ServedPage, q: Query, r: PageReading, at: nat, like: Like)
    requires PageOk(t.sys.history, q, r, at, like)
    requires v == ServedPage(v.query, q, r.page, t.sys.now, Span(r.countAt, at))
    requires KeyOf(q) == KeyOf(v.query) && at <= t.sys.now <= at + ROUTES_TTL
    ensures FreshPage(t.sys.history, v, like)
  {
    hide KeyOf, ListActive;
    assert PageFrom(t.sys.history, v, r, at, like);
  }

  lemma GoKeepsBound(t: Site, rid: nat, like: Like)
    requires SiteBounded(t, like) && rid in t.searchers
    ensures SiteBounded(GoOn(t, rid, like), like)
  {
    hide BoundedStaleness, FreshPage, PageOk, KeyOf, ListActive;
    var t', s := GoOn(t, rid, like), t.sys;
    Now(s);
    assert SearcherOk(s.history, t.searchers[rid], s.now, like);
    match t.searchers[rid]
    case Started(q) =>
      var key := KeyOf(q);
      if key in t.pages && s.now <= t.pages[key].expires {
        var e := t.pages[key];
        assert PageEntryOk(s.history, key, e, s.now, like);
        ServesFresh(t, t'.served[|t.served|], e.query, e.reading, e.written, like);
      }
    case Missed(q) =>
    case Counted(q, total, snap, at) => CompletesPage(s, q, total, snap, at, like);
    case Queried(q, r) => ServesFresh(t, t'.served[|t.served|], q, r, s.now, like);
  }

  lemma AbandonKeepsBound(t: Site, rid: nat, tookEffect: bool, like: Like)
    requires SiteBounded(t, like) && rid in t.searchers
    ensures SiteBounded(Abandon(t, rid, tookEffect), like)
  {
    hide BoundedStaleness, FreshPage, PageOk, KeyOf, ListActive;
    assert SearcherOk(t.sys.history, t.searchers[rid], t.sys.now, like);
  }

  lemma CompletesPage(s: Sys, q: Query, total: nat, snap: nat, at: nat, like: Like)
    requires WasCounted(s.history, q, total, snap, at, like) && at <= s.now
    requires InForce(s.history, |s.history|, s.now) && s.history[|s.history| - 1].db == s.core.db
    ensures var page := RoutePage(total, q.page, q.size, ListActive(s.core.db, q, like).items);
            PageOk(s.history, q, PageReading(page, snap, at, |s.history|, s.now), s.now, like)
  {
    hide ListActive;
  }

  lemma NextSiteKeepsBound(t: Site, step: Step, like: Like)
    requires SiteBounded(t, like)
    ensures SiteBounded(NextSite(t, step, like), like)
  {
    hide BoundedStaleness, FreshPage, PageEntryOk, GoOn, Abandon;
    match step
    case Other(a) => OtherKeepsBound(t, a, like);
    case Ask(_, _) =>
    case Go(rid) => if rid in t.searchers { GoKeepsBound(t, rid, like); }
    case GiveUp(rid, tookEffect) => if rid in t.searchers { AbandonKeepsBound(t, rid, tookEffect, like); }
    case Forget(_) =>
  }

  lemma {:induction false} RunsAreBounded(t: Site, steps: seq<Step>, like: Like)
    requires Opens(t)
    ensures SiteBounded(RunSite(t, steps, like), like)
    decreases |steps|
  {
    hide NextSite, FreshPage, Initial;
    if steps == [] {
      EveryRunIsBounded(t.sys, []);
    } else {
      hide SiteBounded, Opens;
      RunsAreBounded(t, steps[..|steps| - 1], like);
      NextSiteKeepsBound(RunSite(t, steps[..|steps| - 1], like), steps[|steps| - 1], like);
    }
  }

  // ---- clean searches get their own page ----

  ghost predicate AllClean(t: Site) {
    && (forall i :: i in t.searchers ==> CleanQuery(t.searchers[i].query))
    && (forall k :: k in t.pages ==> CleanQuery(t.pages[k].query))
    && (forall i :: 0 <= i < |t.served| ==> CleanQuery(t.served[i].query) && CleanQuery(t.served[i].filler))
  }

  predicate CleanStep(step: Step) { step.Ask? ==> CleanQuery(step.q) }

  lemma {:induction false} RunsStayClean(t: Site, steps: seq<Step>, like: Like)
    requires Opens(t) && forall i :: 0 <= i < |steps| ==> CleanStep(steps[i])
    ensures AllClean(RunSite(t, steps, like))
    decreases |steps|
  {
    hide CleanQuery, Initial, NextSite;
    if steps != [] {
      hide AllClean, Opens;
      RunsStayClean(t, steps[..|steps| - 1], like);
      StepStaysClean(RunSite(t, steps[..|steps| - 1], like), steps[|steps| - 1], like);
    }
  }

  lemma StepStaysClean(t: Site, step: Step, like: Like)
    requires AllClean(t) && CleanStep(step)
    ensures AllClean(NextSite(t, step, like))
  {
    hide CleanQuery, KeyOf, ListActive, Next, ClearsPages, Glob;
  }

  /** Every page served in any interleaving is that of some search with the same printed filters, page and size:
      total and rows are what the committed tables gave its reader, one after the other, the total at most 30 s plus
      that reader's delay before. */
  lemma ServedSearchesAreFresh(t: Site, steps: seq<Step>, like: Like, v: ServedPage)
    requires Opens(t) && v in RunSite(t, steps, like).served
    ensures FreshPage(RunSite(t, steps, like).sys.history, v, like)
    ensures v.filler.page == v.query.page && v.filler.size == v.query.size
    ensures Filters(v.filler.origin, v.filler.destination) == Filters(v.query.origin, v.query.destination)
  {
    hide Opens, RunSite, Filters, RouteKey;
    RunsAreBounded(t, steps, like);
    RouteKeysCollide(v.filler.origin, v.filler.destination, v.filler.page, v.filler.size,
                     v.query.origin, v.query.destination, v.query.page, v.query.size);
  }

  /** If all searches asked are clean, it is the page of that very search. */
  lemma CleanSearchesAreFresh(t: Site, steps: seq<Step>, like: Like, v: ServedPage)
    requires Opens(t) && v in RunSite(t, steps, like).served
    requires forall i :: 0 <= i < |steps| ==> CleanStep(steps[i])
    ensures v.filler == v.query && FreshPage(RunSite(t, steps, like).sys.history, v, like)
  {
    hide Opens, RunSite, FreshPage, CleanStep, Clean, RouteKey;
    ServedSearchesAreFresh(t, steps, like, v);
    RunsStayClean(t, steps, like);
    RouteKeysCollide(v.filler.origin, v.filler.destination, v.filler.page, v.filler.size,
                     v.query.origin, v.query.destination, v.query.page, v.query.size);
    CleanKeysDistinct(v.filler.origin, v.filler.destination, v.filler.page, v.filler.size,
                      v.query.origin, v.query.destination, v.query.page, v.query.size);
  }
}
