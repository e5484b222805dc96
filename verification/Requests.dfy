/** Whole requests, one after the other: what each leaves in the tables, the event log and the cache.
    The classes of `Service` and `Endpoints` are proved against these functions. */
module Requests {
  import opened Rows
  import opened Listing
  import opened CacheKeys
  import opened Search
  import opened Protocol

  /** Where an error may strike: while inserting, at the later flush, at the cache (whose keys
      may be gone all the same), at the broker (whose message may have gone out all the same), at the commit. */
  datatype Fault = NoFault | AtInsert | AtUpdate | AtCache(cleared: bool) | AtPublish(delivered: bool) | AtCommit

  /** The statement that failed took effect all the same. */
  predicate TookEffect(fault: Fault) { fault == AtCache(true) || fault == AtPublish(true) }

  datatype Reply = Done(id: nat) | Http(status: nat)

  const OK := 200
  const BAD_REQUEST := 400
  const FORBIDDEN := 403
  const NOT_FOUND := 404
  const CONFLICT := 409
  const SERVER_ERROR := 500

  // ---- tables and events ----

  function BookGuard(db: Db, routeId: nat, seatId: nat): nat {
    if routeId !in db.routes || !db.routes[routeId].active then NOT_FOUND
    else if seatId !in db.seats || db.seats[seatId].routeId != routeId then NOT_FOUND
    else if db.seats[seatId].booked then CONFLICT
    else OK
  }

  function CancelGuard(db: Db, id: nat, user: nat): nat {
    if id !in db.bookings then NOT_FOUND
    else if db.bookings[id].userId != user then FORBIDDEN
    else if db.bookings[id].status.Cancelled? then BAD_REQUEST
    else OK
  }

  function NewBooking(db: Db, user: nat, routeId: nat, seatId: nat): Booking
    requires routeId in db.routes
  {
    Booking(user, routeId, seatId, Confirmed, db.routes[routeId].price)
  }

  /** A free seat with a booking row, i.e. a cancelled one, passes the guard but not the unique constraint. */
  function CreateBooking(c: Core, user: nat, routeId: nat, seatId: nat, fault: Fault): (Core, Reply) {
    var guard := BookGuard(c.db, routeId, seatId);
    if guard != OK then (c, Http(guard))
    else
      var id := c.nextBooking;
      var inserted := c.(nextBooking := id + 1);
      var announced := inserted.(events := c.events + [ConfirmedEvent(id)]);
      if SeatTaken(c.db, seatId) || fault.AtInsert? || fault.AtUpdate? || fault.AtCache?
      then (inserted, Http(SERVER_ERROR))
      else if fault == AtPublish(false) then (inserted, Http(SERVER_ERROR))
      else if fault == AtPublish(true) || fault.AtCommit? then (announced, Http(SERVER_ERROR))
      else (announced.(db := Sell(c.db, id, NewBooking(c.db, user, routeId, seatId))), Done(id))
  }

  /** The row frees its own seat; a missing seat row is skipped, as in the code. */
  function Cancelled(db: Db, id: nat): Db
    requires id in db.bookings
  {
    if db.bookings[id].seatId in db.seats then Unsell(db, id)
    else db.(bookings := db.bookings[id := db.bookings[id].(status := Status.Cancelled)])
  }

  function CancelBooking(c: Core, id: nat, user: nat, fault: Fault): (Core, Reply) {
    var guard := CancelGuard(c.db, id, user);
    if guard != OK then (c, Http(guard))
    else
      var announced := c.(events := c.events + [CancelledEvent(id)]);
      if fault.AtUpdate? || fault.AtCache? || fault == AtPublish(false) then (c, Http(SERVER_ERROR))
      else if fault == AtPublish(true) || fault.AtCommit? then (announced, Http(SERVER_ERROR))
      else (announced.(db := Cancelled(c.db, id)), Done(id))
  }

  function CreateRoute(c: Core, r: Route, fault: Fault): (Core, Reply) {
    var id, first := c.nextRoute, c.nextSeat;
    var named := c.(nextRoute := id + 1);
    var seated := named.(nextSeat := first + r.totalSeats);
    if fault.AtInsert? then (named, Http(SERVER_ERROR))
    else if fault.AtUpdate? || fault.AtCache? || fault.AtCommit? then (seated, Http(SERVER_ERROR))
    else (seated.(db := WithRoute(c.db, id, r, first)), Done(id))
  }

  // ---- cache ----

  datatype CacheValue = SeatsValue(seats: seq<SeatOut>) | PageValue(page: RoutePage)

  /** Python truth: an empty list is false, a page is a non-empty object. */
  predicate Truthy(v: CacheValue) { v.SeatsValue? ==> v.seats != [] }

  datatype Cached = Cached(value: CacheValue, expires: nat)

  const ROUTES_TTL := 30000  // milliseconds

  function Drop(cache: map<string, Cached>, pattern: string): map<string, Cached> {
    map k | k in cache && !Glob(pattern, k) :: cache[k]
  }

  /** `on` says that the cache client was connected at startup; without it every cache call is a no-op. */
  datatype App = App(core: Core, cache: map<string, Cached>, on: bool, now: nat)

  function Lookup(a: App, key: string): Option<CacheValue> {
    if a.on && key in a.cache && a.now <= a.cache[key].expires then Some(a.cache[key].value) else None
  }

  function Fill(a: App, key: string, v: CacheValue, ttl: nat): App {
    if a.on then a.(cache := a.cache[key := Cached(v, a.now + ttl)]) else a
  }

  function Invalidate(a: App, pattern: string): App {
    if a.on then a.(cache := Drop(a.cache, pattern)) else a
  }

  /** Answer from the cache if there is a true value, else compute, store and answer. */
  function ReadThrough(a: App, key: string, computed: CacheValue, ttl: nat): (App, CacheValue) {
    var hit := Lookup(a, key);
    if hit.Some? && Truthy(hit.value) then (a, hit.value) else (Fill(a, key, computed, ttl), computed)
  }

  function ListSeats(a: App, routeId: nat): (App, CacheValue) {
    ReadThrough(a, SeatKey(routeId), SeatsValue(SeatList(a.core.db, routeId)), SEATS_TTL)
  }

  function ListRoutes(a: App, q: Query, like: Like): (App, CacheValue) {
    ReadThrough(a, KeyOf(q), PageValue(ListActive(a.core.db, q, like)), ROUTES_TTL)
  }

  // ---- requests ----

  datatype Call =
    | PostBooking(user: nat, routeId: nat, seatId: nat, fault: Fault)
    | DeleteBooking(id: nat, user: nat, fault: Fault)
    | PostRoute(route: Route, fault: Fault)
    | GetSeats(routeId: nat)
    | GetRoutes(query: Query)
    | Wait(ms: nat)
    | Lose(key: string)

  /** Whether a booking request got as far as clearing the cached seat list. */
  predicate BookInvalidates(c: Core, routeId: nat, seatId: nat, fault: Fault) {
    BookGuard(c.db, routeId, seatId) == OK && !SeatTaken(c.db, seatId)
    && !fault.AtInsert? && !fault.AtUpdate? && fault != AtCache(false)
  }

  predicate CancelInvalidates(c: Core, id: nat, user: nat, fault: Fault) {
    CancelGuard(c.db, id, user) == OK && !fault.AtUpdate? && fault != AtCache(false)
  }

  predicate RouteInvalidates(fault: Fault) { !fault.AtInsert? && !fault.AtUpdate? && fault != AtCache(false) }

  function Handle(a: App, call: Call, like: Like): App {
    match call
    case PostBooking(user, routeId, seatId, fault) =>
      var a1 := if BookInvalidates(a.core, routeId, seatId, fault) then Invalidate(a, SeatPattern(routeId)) else a;
      a1.(core := CreateBooking(a.core, user, routeId, seatId, fault).0)
    case DeleteBooking(id, user, fault) =>
      var a1 := if CancelInvalidates(a.core, id, user, fault)
                then Invalidate(a, SeatPattern(a.core.db.bookings[id].routeId)) else a;
      a1.(core := CancelBooking(a.core, id, user, fault).0)
    case PostRoute(r, fault) =>
      var a1 := if RouteInvalidates(fault) then Invalidate(a, ROUTES_PATTERN) else a;
      a1.(core := CreateRoute(a.core, r, fault).0)
    case GetSeats(routeId) => ListSeats(a, routeId).0
    case GetRoutes(q) => ListRoutes(a, q, like).0
    case Wait(ms) => a.(now := a.now + ms)
    case Lose(key) => a.(cache := a.cache - {key})
  }

  function HandleAll(a: App, calls: seq<Call>, like: Like): App {
    if calls == [] then a else Handle(HandleAll(a, calls[..|calls| - 1], like), calls[|calls| - 1], like)
  }

  ghost predicate Fresh(a: App) {
    && Consistent(a.core.db) && a.core.db.bookings == map[] && a.core.events == [] && a.cache == map[]
    && (forall r :: r in a.core.db.routes ==> r < a.core.nextRoute)
    && (forall t :: t in a.core.db.seats ==> t < a.core.nextSeat)
  }
}
