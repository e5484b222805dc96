/** What single statements of the concurrent model do to the cache, and for whom they wait. */
module StepEffects {
  import opened Rows
  import opened Listing
  import opened CacheKeys
  import opened Search
  import opened Protocol
  import opened ProtocolSafety
  import opened Staleness
  import opened SearchStaleness

  predicate SameEntryAt(cache: map<string, Entry>, cache': map<string, Entry>, key: string) {
    (key in cache' <==> key in cache) && (key in cache ==> cache'[key] == cache[key])
  }

  /** After the row and before the message, a booking or cancellation drops the cached list of its route, and leaves
      all other lists alone. */
  lemma BookingsClearTheirList(s: Sys, sid: nat)
    requires sid in s.sessions && (s.sessions[sid].pc.BookConfirmed? || s.sessions[sid].pc.CancelMarked?)
    ensures var me, s' := s.sessions[sid], Next(s, Exec(sid));
            && sid in s'.sessions && (s'.sessions[sid].pc.BookInvalidated? || s'.sessions[sid].pc.CancelInvalidated?)
            && SeatKey(me.routeId) !in s'.cache
            && forall r: nat :: r != me.routeId ==> SameEntryAt(s.cache, s'.cache, SeatKey(r))
  {
    hide SeatKey, SeatPattern, Glob;
    assert !Waits(s, sid);
    var r := s.sessions[sid].routeId;
    SeatPatternHits(r, r);
    forall q: nat | q != r ensures !Glob(SeatPattern(r), SeatKey(q)) { SeatPatternHits(r, q); }
  }

  /** No other statement of a writer touches a cached list. */
  lemma OnlyTheyClear(s: Sys, sid: nat, r: nat)
    requires sid in s.sessions && !Viewing(s.sessions[sid])
    requires !s.sessions[sid].pc.BookConfirmed? && !s.sessions[sid].pc.CancelMarked?
    ensures SameEntryAt(s.cache, Next(s, Exec(sid)).cache, SeatKey(r))
  {
    hide SeatKey, Glob, Waits;
    if s.sessions[sid].pc.RouteSeated? {
      RoutesPatternIsPrecise(r, None, None, 0, 0, "", "");
    } else if !Waits(s, sid) {
      LeavesCache(s, sid);
    }
  }

  lemma LeavesCache(s: Sys, sid: nat)
    requires sid in s.sessions && !Viewing(s.sessions[sid]) && !s.sessions[sid].pc.RouteSeated?
    requires !s.sessions[sid].pc.BookConfirmed? && !s.sessions[sid].pc.CancelMarked?
    ensures Run1(s, sid, s.sessions[sid]).cache == s.cache
  {
    hide Overlay, NewSeats, SeatTaken, DropMatching;
  }

  /** A route creation drops every cached search before it commits, and nothing else drops one but eviction. */
  lemma CreationsClearSearches(t: Site, step: Step, like: Like, q: Query)
    requires step.Other?
    ensures var s, a := t.sys, step.a;
            if a.Exec? && a.sid in s.sessions && s.sessions[a.sid].pc.RouteSeated?
            then KeyOf(q) !in NextSite(t, step, like).pages
                 && a.sid in Next(s, a).sessions && Next(s, a).sessions[a.sid].pc.RouteInvalidated?
            else !(a.Fail? && a.tookEffect) ==> NextSite(t, step, like).pages == t.pages
  {
    hide KeyOf, Glob;
    RoutesPatternIsPrecise(0, q.origin, q.destination, q.page, q.size, "", "");
    var s, a := t.sys, step.a;
    if a.Exec? && a.sid in s.sessions && s.sessions[a.sid].pc.RouteSeated? {
      assert KeyOf(q) == RouteKey(q.origin, q.destination, q.page, q.size) by { KeyIs(q); }
      assert !Waits(s, a.sid);
    }
    hide Next;
  }

  lemma KeyIs(q: Query)
    ensures KeyOf(q) == RouteKey(q.origin, q.destination, q.page, q.size)
  {
  }

  /** A booking waits only for a session that is booking or cancelling the same seat, a cancellation only for one that
      is cancelling the same booking, and nobody else ever waits. */
  lemma WaitsOnlyForSame(s: Sys, sid: nat)
    requires Safe(s) && sid in s.sessions && Waits(s, sid)
    ensures var me := s.sessions[sid];
            && (me.pc.BookSeatRead? || me.pc.CancelChecked?)
            && (me.pc.BookSeatRead? ==> exists o :: o in s.sessions && OnSameSeat(s.sessions[o], me.seatId))
            && (me.pc.CancelChecked? ==> exists o :: o in s.sessions && OnSameBooking(s.sessions[o], me.id))
  {
    hide CoreOk, RouteOk;
    var me := s.sessions[sid];
    var o :| o in s.sessions && o != sid && Blocks(me, s.sessions[o]);
    var other := s.sessions[o];
    assert SessionOk(s.core, me) && SessionOk(s.core, other) && Apart(me, other);
    if me.dirty != EMPTY { DirtySeatsApart(s.core, me, other); }
    if me.pc.BookSeatRead? { ClaimsSeat(s.core, other, me.seatId); }
    if me.pc.CancelChecked? { ClaimsBooking(s.core, other, me.id); }
  }

  predicate OnSameSeat(other: Session, seatId: nat) {
    (Selling(other) || Cancelling(other)) && other.seatId == seatId
  }

  predicate OnSameBooking(other: Session, id: nat) { (Selling(other) || Cancelling(other)) && other.id == id }

  lemma ClaimsSeat(c: Core, other: Session, seatId: nat)
    requires SessionOk(c, other) && SeatTaken(other.flushed, seatId)
    ensures OnSameSeat(other, seatId)
  {
  }

  lemma ClaimsBooking(c: Core, other: Session, id: nat)
    requires SessionOk(c, other) && id in other.flushed.bookings
    ensures OnSameBooking(other, id)
  {
  }

  // ---- who is answered from the cache ----

  /** A reader is answered from the cache exactly when a non-empty list of its route was stored at most 15 s ago. */
  lemma SeatReaderHitsIff(s: Sys, sid: nat)
    requires BoundedStaleness(s) && sid in s.sessions && s.sessions[sid].pc.ViewStart?
    ensures var key, s' := SeatKey(s.sessions[sid].routeId), Next(s, Exec(sid));
            |s'.served| > |s.served|
            <==> key in s.cache && s.cache[key].reading.data != [] && s.now <= s.cache[key].written + 15000
  {
    hide SeatKey, SeatList;
    assert !Waits(s, sid);
    var key := SeatKey(s.sessions[sid].routeId);
    assert key in s.cache ==> EntryOk(s.history, key, s.cache[key], s.now);
  }

  /** A search is answered from the cache exactly when a page with its key was stored at most 30 s ago. */
  lemma SearcherHitsIff(t: Site, rid: nat, like: Like)
    requires SiteBounded(t, like) && rid in t.searchers && t.searchers[rid].Started?
    ensures var key := KeyOf(t.searchers[rid].query);
            |NextSite(t, Go(rid), like).served| > |t.served|
            <==> key in t.pages && t.sys.now <= t.pages[key].written + 30000
  {
    hide KeyOf, BoundedStaleness, FreshPage, PageOk;
    var key := KeyOf(t.searchers[rid].query);
    assert key in t.pages ==> PageEntryOk(t.sys.history, key, t.pages[key], t.sys.now, like);
  }
}
