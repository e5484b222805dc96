/** What each request does, in terms of rows, replies, messages and cached entries: the meaning of `Requests`. */
module RequestEffects {
  import opened Rows
  import opened Listing
  import opened CacheKeys
  import opened Search
  import opened Protocol
  import opened ProtocolSafety
  import opened Requests
  import opened SerialRuns
  import opened SearchCoherence
  import opened SearchAnswers

  // ---- POST /bookings ----

  predicate Bookable(db: Db, routeId: nat, seatId: nat) {
    routeId in db.routes && db.routes[routeId].active && seatId in db.seats && db.seats[seatId].routeId == routeId
  }

  /** Every reply, and exactly when it is given. */
  lemma BookingReplies(c: Core, user: nat, routeId: nat, seatId: nat, fault: Fault)
    ensures var reply := CreateBooking(c, user, routeId, seatId, fault).1;
            && (reply == Http(404) <==> !Bookable(c.db, routeId, seatId))
            && (reply == Http(409) <==> Bookable(c.db, routeId, seatId) && c.db.seats[seatId].booked)
            && (reply == Http(500) <==>
                  Bookable(c.db, routeId, seatId) && !c.db.seats[seatId].booked
                  && (fault != NoFault || exists b :: b in c.db.bookings && c.db.bookings[b].seatId == seatId))
            && (reply.Done? <==>
                  Bookable(c.db, routeId, seatId) && !c.db.seats[seatId].booked && fault == NoFault
                  && forall b :: b in c.db.bookings ==> c.db.bookings[b].seatId != seatId)
            && (reply.Http? ==> reply.status in {404, 409, 500})
  {
  }

  /** A successful booking adds one row, under the id in the reply, with the caller as its owner, and books its seat;
      it is announced, and its owner can cancel it. Nothing else in the tables changes. */
  lemma BookingTakesEffect(a: App, user: nat, routeId: nat, seatId: nat, fault: Fault, like: Like)
    requires CoreOk(a.core) && CreateBooking(a.core, user, routeId, seatId, fault).1.Done?
    ensures var id := CreateBooking(a.core, user, routeId, seatId, fault).1.id;
            var db, a' := a.core.db, Handle(a, PostBooking(user, routeId, seatId, fault), like);
            && id !in db.bookings && Bookable(db, routeId, seatId)
            && a'.core.db.bookings
               == db.bookings[id := Booking(user, routeId, seatId, Confirmed, db.routes[routeId].price)]
            && a'.core.db.seats == db.seats[seatId := Seat(routeId, db.seats[seatId].number, true)]
            && a'.core.db.routes == db.routes && a'.core.events == a.core.events + [ConfirmedEvent(id)]
            && CancelBooking(a'.core, id, user, NoFault).1 == Done(id)
            && forall other :: other != user ==> CancelBooking(a'.core, id, other, NoFault).1 == Http(403)
  {
    FreshMessage(a.core);
  }

  /** A refused booking changes no row, and one refused by a guard changes nothing at all. */
  lemma BookingRefused(a: App, user: nat, routeId: nat, seatId: nat, fault: Fault, like: Like)
    requires CreateBooking(a.core, user, routeId, seatId, fault).1.Http?
    ensures var a' := Handle(a, PostBooking(user, routeId, seatId, fault), like);
            && a'.core.db == a.core.db
            && (CreateBooking(a.core, user, routeId, seatId, fault).1.status in {404, 409} ==> a' == a)
  {
  }

  /** A successful booking drops the cached list of its route, and touches no other list and no search. */
  lemma BookingClears(a: App, user: nat, routeId: nat, seatId: nat, fault: Fault, like: Like)
    requires CreateBooking(a.core, user, routeId, seatId, fault).1.Done?
    ensures var cache := Handle(a, PostBooking(user, routeId, seatId, fault), like).cache;
            && (a.on ==> SeatKey(routeId) !in cache)
            && (forall r: nat :: r != routeId || !a.on ==> SameEntry(a.cache, cache, SeatKey(r)))
            && (forall q: Query :: SameEntry(a.cache, cache, KeyOf(q)))
  {
    hide SeatKey, SeatPattern, Glob, SeatTaken;
    SeatListCleared(a.cache, routeId);
  }

  predicate SameEntry(cache: map<string, Cached>, cache': map<string, Cached>, key: string) {
    (key in cache' <==> key in cache) && (key in cache ==> cache'[key] == cache[key])
  }

  lemma SeatListCleared(cache: map<string, Cached>, routeId: nat)
    ensures var cleared := Drop(cache, SeatPattern(routeId));
            && SeatKey(routeId) !in cleared
            && (forall r: nat :: r != routeId ==> SameEntry(cache, cleared, SeatKey(r)))
            && (forall q: Query :: SameEntry(cache, cleared, KeyOf(q)))
  {
    hide SeatKey, SeatPattern, Glob, KeyOf;
    SeatPatternHits(routeId, routeId);
    forall r: nat | r != routeId ensures SameEntry(cache, Drop(cache, SeatPattern(routeId)), SeatKey(r)) {
      SeatPatternHits(routeId, r);
    }
    forall q: Query ensures SameEntry(cache, Drop(cache, SeatPattern(routeId)), KeyOf(q)) {
      SearchNotHit(routeId, q);
    }
  }

  lemma SearchNotHit(routeId: nat, q: Query)
    ensures !Glob(SeatPattern(routeId), KeyOf(q))
  {
    SeatPatternIsPrecise(routeId, 0, q.origin, q.destination, q.page, q.size, "", "");
  }

  // ---- DELETE /bookings/{id} ----

  /** Every reply, and exactly when it is given: nobody but the owner gets past 403. */
  lemma CancelReplies(c: Core, id: nat, user: nat, fault: Fault)
    ensures var reply, rows := CancelBooking(c, id, user, fault).1, c.db.bookings;
            && (reply == Http(404) <==> id !in rows)
            && (reply == Http(403) <==> id in rows && rows[id].userId != user)
            && (reply == Http(400) <==> id in rows && rows[id].userId == user && rows[id].status.Cancelled?)
            && (reply == Http(500) <==>
                  id in rows && rows[id].userId == user && !rows[id].status.Cancelled?
                  && fault != NoFault && fault != AtInsert)
            && (reply.Done? <==>
                  id in rows && rows[id].userId == user && !rows[id].status.Cancelled?
                  && (fault == NoFault || fault == AtInsert))
            && (reply.Done? ==> reply.id == id) && (reply.Http? ==> reply.status in {400, 403, 404, 500})
  {
  }

  /** A successful cancellation turns the caller's own CONFIRMED row CANCELLED, frees its seat, is announced, and
      cannot be repeated. Nothing else in the tables changes. */
  lemma CancelTakesEffect(a: App, id: nat, user: nat, fault: Fault, like: Like)
    requires CoreOk(a.core) && CancelBooking(a.core, id, user, fault).1.Done?
    ensures var db, a' := a.core.db, Handle(a, DeleteBooking(id, user, fault), like);
            && id in db.bookings && db.bookings[id].userId == user && db.bookings[id].status.Confirmed?
            && var k := db.bookings[id];
               && k.seatId in db.seats
               && a'.core.db.bookings
                  == db.bookings[id := Booking(user, k.routeId, k.seatId, Status.Cancelled, k.totalPrice)]
               && a'.core.db.seats == db.seats[k.seatId := Seat(k.routeId, db.seats[k.seatId].number, false)]
               && a'.core.db.routes == db.routes && a'.core.events == a.core.events + [CancelledEvent(id)]
               && CancelBooking(a'.core, id, user, NoFault).1 == Http(400)
  {
    NotPendingRow(a.core, id);
    BookingsOwnSeat(a.core, id);
  }

  lemma NotPendingRow(c: Core, id: nat)
    requires CoreOk(c) && id in c.db.bookings
    ensures !c.db.bookings[id].status.Pending?
  {
    hide EventsMatch, BookedIffSold, SeatsNumbered, OneBookingPerSeat;
  }

  lemma CancelRefused(a: App, id: nat, user: nat, fault: Fault, like: Like)
    requires CancelBooking(a.core, id, user, fault).1.Http?
    ensures var a' := Handle(a, DeleteBooking(id, user, fault), like);
            && a'.core.db == a.core.db
            && (CancelBooking(a.core, id, user, fault).1.status in {400, 403, 404} ==> a' == a)
  {
  }

  lemma CancelClears(a: App, id: nat, user: nat, fault: Fault, like: Like)
    requires CancelBooking(a.core, id, user, fault).1.Done?
    ensures id in a.core.db.bookings
    ensures var cache, routeId := Handle(a, DeleteBooking(id, user, fault), like).cache, a.core.db.bookings[id].routeId;
            && (a.on ==> SeatKey(routeId) !in cache)
            && (forall r: nat :: r != routeId || !a.on ==> SameEntry(a.cache, cache, SeatKey(r)))
            && (forall q: Query :: SameEntry(a.cache, cache, KeyOf(q)))
  {
    hide SeatKey, SeatPattern, Glob;
    SeatListCleared(a.cache, a.core.db.bookings[id].routeId);
  }

  // ---- POST /routes ----

  /** `db'` has the seats of `db` and, for route `id`, free seats 1 to `total`, each once. */
  ghost predicate Seated(db: Db, db': Db, id: nat, total: nat) {
    && (forall s :: s in db.seats ==> s in db'.seats && db'.seats[s] == db.seats[s])
    && (forall s :: s in db'.seats && s !in db.seats ==>
          db'.seats[s].routeId == id && 1 <= db'.seats[s].number <= total && !db'.seats[s].booked)
    && (forall n: nat :: 1 <= n <= total ==> NewSeatAt(db, db', id, n))
    && (forall s, t :: s in db'.seats && s !in db.seats && t in db'.seats && db'.seats[t].routeId == id ==>
          (db'.seats[t].number == db'.seats[s].number ==> s == t))
  }

  /** A route creation that succeeds stores the posted route under the new id in the reply, with free seats numbered
      1 to `totalSeats`, and leaves every other row alone; a failed one leaves all. */
  lemma RouteTakesEffect(a: App, r: Route, fault: Fault, like: Like)
    requires CoreOk(a.core)
    ensures var db, reply := a.core.db, CreateRoute(a.core, r, fault).1;
            var db' := Handle(a, PostRoute(r, fault), like).core.db;
            && (reply.Done? <==> fault == NoFault || fault.AtPublish?)
            && (reply.Http? ==> reply == Http(500) && db' == db)
            && (reply.Done? ==>
                  && reply.id !in db.routes && db'.routes == db.routes[reply.id := r] && db'.bookings == db.bookings
                  && Seated(db, db', reply.id, r.totalSeats))
  {
    hide EventsMatch, Consistent, Seated;
    if CreateRoute(a.core, r, fault).1.Done? {
      RouteIsNew(a.core);
      SeatsOfNewRoute(a.core.db, a.core.nextRoute, r, a.core.nextSeat);
    }
  }

  ghost predicate NewSeatAt(db: Db, db': Db, routeId: nat, n: nat) {
    exists s :: s in db'.seats && s !in db.seats && db'.seats[s] == Seat(routeId, n, false)
  }

  lemma RouteIsNew(c: Core)
    requires CoreOk(c)
    ensures c.nextRoute !in c.db.routes
    ensures forall s :: s in c.db.seats ==> s < c.nextSeat && c.db.seats[s].routeId != c.nextRoute
  {
    hide EventsMatch, BookedIffSold, BookingsLinked, NumbersComplete, NumbersDistinct;
  }

  lemma SeatsOfNewRoute(db: Db, id: nat, r: Route, first: nat)
    requires id !in db.routes && forall s :: s in db.seats ==> s < first && db.seats[s].routeId != id
    ensures Seated(db, WithRoute(db, id, r, first), id, r.totalSeats)
  {
    hide NewSeats;
    var db' := WithRoute(db, id, r, first);
    forall n: nat | 1 <= n <= r.totalSeats ensures NewSeatAt(db, db', id, n) {
      assert db'.seats[first + n - 1] == Seat(id, n, false);
    }
  }

  /** It drops every cached search and no cached seat list. */
  lemma RouteClears(a: App, r: Route, fault: Fault, like: Like)
    requires CreateRoute(a.core, r, fault).1.Done?
    ensures var cache := Handle(a, PostRoute(r, fault), like).cache;
            && (a.on ==> forall q: Query :: KeyOf(q) !in cache)
            && (forall s: nat :: SameEntry(a.cache, cache, SeatKey(s)))
  {
    hide SeatKey, Glob, KeyOf;
    forall q: Query ensures Glob(ROUTES_PATTERN, KeyOf(q)) { SearchHit(q); }
    forall s: nat ensures !Glob(ROUTES_PATTERN, SeatKey(s)) { SeatListNotHit(s); }
  }

  lemma SearchHit(q: Query)
    ensures Glob(ROUTES_PATTERN, KeyOf(q))
  {
    RoutesPatternIsPrecise(0, q.origin, q.destination, q.page, q.size, "", "");
  }

  lemma SeatListNotHit(r: nat)
    ensures !Glob(ROUTES_PATTERN, SeatKey(r))
  {
    RoutesPatternIsPrecise(r, None, None, 0, 0, "", "");
  }

  /** The next search counts an active posted route that passes its filters. */
  lemma PostedRouteIsFound(a: App, r: Route, fault: Fault, like: Like, q: Query)
    requires CoreOk(a.core) && (!a.on ==> a.cache == map[]) && CreateRoute(a.core, r, fault).1.Done? && r.active
    requires q.origin == None || q.origin == Some("") || like(q.origin.value, r.origin)
    requires q.destination == None || q.destination == Some("") || like(q.destination.value, r.destination)
    ensures var answer := ListRoutes(Handle(a, PostRoute(r, fault), like), q, like).1;
            answer.PageValue? && answer.page.total == ListActive(a.core.db, q, like).total + 1
  {
    RouteIsNew(a.core);
    AddedRouteCounts(a.core.db, a.core.nextRoute, r, a.core.nextSeat, q, like);
    RouteClears(a, r, fault, like);
    RouteCommitted(a, r, fault, like);
    hide Handle, ListActive, CoreOk, WithRoute, CreateRoute;
    MissesAnswerFreshly(Handle(a, PostRoute(r, fault), like), q, like);
  }

  lemma RouteCommitted(a: App, r: Route, fault: Fault, like: Like)
    requires CreateRoute(a.core, r, fault).1.Done?
    ensures var a' := Handle(a, PostRoute(r, fault), like);
            && a'.core.db == WithRoute(a.core.db, a.core.nextRoute, r, a.core.nextSeat) && a'.on == a.on
  {
    hide WithRoute;
  }

  lemma MissesAnswerFreshly(a: App, q: Query, like: Like)
    requires a.on ==> KeyOf(q) !in a.cache
    ensures ListRoutes(a, q, like).1 == PageValue(ListActive(a.core.db, q, like))
  {
    hide ListActive, RouteKey;
  }

  /** A successful booking on it costs the posted price. */
  lemma PostedPriceIsPaid(a: App, r: Route, fault: Fault, like: Like, user: nat, seatId: nat, fault': Fault)
    requires CreateRoute(a.core, r, fault).1.Done?
    ensures var id, c := CreateRoute(a.core, r, fault).1.id, Handle(a, PostRoute(r, fault), like).core;
            var (after, reply) := CreateBooking(c, user, id, seatId, fault');
            reply.Done? ==> reply.id in after.db.bookings && after.db.bookings[reply.id].totalPrice == r.price
  {
    hide SeatTaken, NewSeats, Glob;
  }

  // ---- the cache ----

  /** What is stored can be read back for exactly its lifetime, and only if the cache is connected. */
  lemma StoredForTtl(a: App, key: string, v: CacheValue, ttl: nat, ms: nat, like: Like)
    requires !a.on ==> a.cache == map[]
    ensures Lookup(Handle(Fill(a, key, v, ttl), Wait(ms), like), key) == if a.on && ms <= ttl then Some(v) else None
  {
  }

  /** A seat list is cached for 15 seconds and a search for 30, and neither answer changes a row. */
  lemma ReadersCache(a: App, routeId: nat, q: Query, ms: nat, like: Like)
    requires a.on && a.cache == map[]
    ensures Lookup(Handle(Handle(a, GetSeats(routeId), like), Wait(ms), like), SeatKey(routeId))
         == if ms <= 15000 then Some(SeatsValue(SeatList(a.core.db, routeId))) else None
    ensures Lookup(Handle(Handle(a, GetRoutes(q), like), Wait(ms), like), KeyOf(q))
         == if ms <= 30000 then Some(PageValue(ListActive(a.core.db, q, like))) else None
    ensures Handle(a, GetSeats(routeId), like).core == a.core && Handle(a, GetRoutes(q), like).core == a.core
  {
    hide SeatKey, SeatList, ListActive, KeyOf;
  }

  /** Within that time a repeated read changes nothing, not even the lifetime; a list without seats is read and stored
      anew each time. */
  lemma RepeatedReads(a: App, routeId: nat, q: Query, ms: nat, like: Like)
    requires a.on && a.cache == map[]
    ensures var b := Handle(Handle(a, GetSeats(routeId), like), Wait(ms), like);
            Handle(b, GetSeats(routeId), like) == b <==> (SeatList(a.core.db, routeId) != [] && ms <= 15000) || ms == 0
    ensures var b := Handle(Handle(a, GetRoutes(q), like), Wait(ms), like);
            Handle(b, GetRoutes(q), like) == b <==> ms <= 30000
  {
    hide SeatKey, SeatList, ListActive, KeyOf;
  }
}
