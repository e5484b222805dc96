/** Concurrent requests, one statement at a time, over one committed database (READ COMMITTED),
    one cache and one event log. A session keeps its own writes until it commits. */
module Protocol {
  import opened Rows
  import opened Listing
  import opened CacheKeys

  const SEATS_TTL := 15000  // milliseconds

  datatype Event = ConfirmedEvent(bookingId: nat) | CancelledEvent(bookingId: nat)

  /** Committed rows, the three id sequences (a rollback never rewinds them), published messages. */
  datatype Core = Core(db: Db, nextBooking: nat, nextRoute: nat, nextSeat: nat, events: seq<Event>)

  datatype Request =
    | Book(user: nat, routeId: nat, seatId: nat)
    | Cancel(bookingId: nat, user: nat)
    | AddRoute(route: Route)
    | ViewSeats(routeId: nat)

  /** The statement a session has just finished. */
  datatype Pc =
    | BookStart | BookRouteRead | BookSeatRead | BookInserted | BookMarked | BookConfirmed
    | BookInvalidated | BookPublished
    | CancelStart | CancelChecked | CancelUpdated | CancelMarked | CancelInvalidated | CancelPublished
    | RouteStart | RouteInserted | RouteSeated | RouteInvalidated
    | ViewStart | ViewMissed | ViewQueried

  /** A seat list as a reader got it: the data, how many commits the table had seen, and when. */
  datatype Reading = Reading(data: seq<SeatOut>, snap: nat, at: nat)

  /** `flushed` rows have been sent and hold their row locks; `dirty` ones are only in memory (autoflush is off).
      `id` is the booking, or for a new route its first seat. */
  datatype Session = Session(
    pc: Pc, user: nat, routeId: nat, seatId: nat, id: nat, price: int, route: Option<Route>,
    flushed: Db, dirty: Db, seen: Reading)

  datatype Entry = Entry(routeId: nat, reading: Reading, written: nat, expires: nat)

  /** One answered seat query; `fillDelay` is how long its filler took from database read to cache write. */
  datatype Served = Served(routeId: nat, data: seq<SeatOut>, at: nat, fillDelay: nat)

  datatype Snapshot = Snapshot(since: nat, db: Db)

  datatype Sys = Sys(
    core: Core, cache: map<string, Entry>, now: nat, sessions: map<nat, Session>,
    history: seq<Snapshot>, served: seq<Served>)

  /** `Fail` is any error or crash at the next statement: the session rolls back. A publish, DEL or SETEX may have
      taken effect all the same. */
  datatype Action =
    | Begin(sid: nat, req: Request)
    | Exec(sid: nat)
    | Fail(sid: nat, tookEffect: bool)
    | Tick(ms: nat)
    | Evict(key: string)

  // ---- sessions ----

  function Opened(req: Request): Session {
    var blank := Session(ViewStart, 0, 0, 0, 0, 0, None, EMPTY, EMPTY, Reading([], 0, 0));
    match req
    case Book(user, routeId, seatId) => blank.(pc := BookStart, user := user, routeId := routeId, seatId := seatId)
    case Cancel(bookingId, user) => blank.(pc := CancelStart, user := user, id := bookingId)
    case AddRoute(route) => blank.(pc := RouteStart, route := Some(route))
    case ViewSeats(routeId) => blank.(routeId := routeId)
  }

  function Advance(s: Sys, sid: nat, me: Session): Sys { s.(sessions := s.sessions[sid := me]) }

  function Close(s: Sys, sid: nat): Sys { s.(sessions := s.sessions - {sid}) }

  function DropMatching(cache: map<string, Entry>, pattern: string): map<string, Entry> {
    map k | k in cache && !Glob(pattern, k) :: cache[k]
  }

  function Publish(s: Sys, e: Event): Sys { s.(core := s.core.(events := s.core.events + [e])) }

  /** Flush what is still dirty, then make every write of the session visible at once. */
  function Commit(s: Sys, sid: nat, me: Session): Sys {
    var db := Overlay(Overlay(s.core.db, me.flushed), me.dirty);
    Close(s, sid).(core := s.core.(db := db), history := s.history + [Snapshot(s.now, db)])
  }

  /** The row a session's next statement would write, or the seat it would claim, is held by `other`. */
  predicate Blocks(me: Session, other: Session) {
    match me.pc
    case BookSeatRead => SeatTaken(other.flushed, me.seatId)
    case BookMarked => me.dirty.seats.Keys * other.flushed.seats.Keys != {}
    case CancelChecked => me.id in other.flushed.bookings
    case CancelPublished => me.dirty.seats.Keys * other.flushed.seats.Keys != {}
    case _ => false
  }

  predicate Waits(s: Sys, sid: nat)
    requires sid in s.sessions
  {
    exists o :: o in s.sessions && o != sid && Blocks(s.sessions[sid], s.sessions[o])
  }

  // ---- statements ----

  function Run1(s: Sys, sid: nat, me: Session): Sys {
    var view := Overlay(s.core.db, me.flushed);
    match me.pc
    case BookStart =>
      if me.routeId !in view.routes || !view.routes[me.routeId].active then Close(s, sid)
      else Advance(s, sid, me.(pc := BookRouteRead, price := view.routes[me.routeId].price))
    case BookRouteRead =>
      if me.seatId !in view.seats || view.seats[me.seatId].routeId != me.routeId || view.seats[me.seatId].booked
      then Close(s, sid)
      else Advance(s, sid, me.(pc := BookSeatRead))
    case BookSeatRead =>
      var id := s.core.nextBooking;
      var s1 := s.(core := s.core.(nextBooking := id + 1));
      if SeatTaken(s.core.db, me.seatId) then Close(s1, sid)
      else Advance(s1, sid, me.(pc := BookInserted, id := id, flushed := me.flushed.(bookings :=
        me.flushed.bookings[id := Booking(me.user, me.routeId, me.seatId, Pending, me.price)])))
    case BookInserted =>
      if me.seatId !in view.seats then Advance(s, sid, me.(pc := BookMarked))
      else Advance(s, sid, me.(pc := BookMarked, dirty := me.dirty.(seats :=
        me.dirty.seats[me.seatId := view.seats[me.seatId].(booked := true)])))
    case BookMarked =>
      if me.id !in view.bookings then Close(s, sid)
      else
        var row := view.bookings[me.id].(status := Confirmed);
        var w := Overlay(me.flushed, me.dirty);
        Advance(s, sid, me.(pc := BookConfirmed, flushed := w.(bookings := w.bookings[me.id := row]), dirty := EMPTY))
    case BookConfirmed =>
      Advance(s.(cache := DropMatching(s.cache, SeatPattern(me.routeId))), sid, me.(pc := BookInvalidated))
    case BookInvalidated =>
      Advance(Publish(s, ConfirmedEvent(me.id)), sid, me.(pc := BookPublished))
    case BookPublished => Commit(s, sid, me)

    case CancelStart =>
      if me.id !in view.bookings || view.bookings[me.id].userId != me.user || view.bookings[me.id].status.Cancelled?
      then Close(s, sid)
      else Advance(s, sid, me.(pc := CancelChecked))
    case CancelChecked =>
      if me.id !in view.bookings then Close(s, sid)
      else
        var row := view.bookings[me.id].(status := Cancelled);
        Advance(s, sid, me.(pc := CancelUpdated, routeId := row.routeId, seatId := row.seatId,
          flushed := me.flushed.(bookings := me.flushed.bookings[me.id := row])))
    case CancelUpdated =>
      if me.seatId !in view.seats || !view.seats[me.seatId].booked then Advance(s, sid, me.(pc := CancelMarked))
      else Advance(s, sid, me.(pc := CancelMarked, dirty := me.dirty.(seats :=
        me.dirty.seats[me.seatId := view.seats[me.seatId].(booked := false)])))
    case CancelMarked =>
      Advance(s.(cache := DropMatching(s.cache, SeatPattern(me.routeId))), sid, me.(pc := CancelInvalidated))
    case CancelInvalidated =>
      Advance(Publish(s, CancelledEvent(me.id)), sid, me.(pc := CancelPublished))
    case CancelPublished => Commit(s, sid, me)

    case RouteStart =>
      if me.route.None? then Close(s, sid)
      else
        var r := s.core.nextRoute;
        Advance(s.(core := s.core.(nextRoute := r + 1)), sid, me.(pc := RouteInserted, routeId := r,
          flushed := me.flushed.(routes := me.flushed.routes[r := me.route.value])))
    case RouteInserted =>
      if me.routeId !in view.routes then Close(s, sid)
      else
        var first, total := s.core.nextSeat, view.routes[me.routeId].totalSeats;
        Advance(s.(core := s.core.(nextSeat := first + total)), sid, me.(pc := RouteSeated, id := first,
          flushed := me.flushed.(seats := me.flushed.seats + NewSeats(me.routeId, total, first))))
    case RouteSeated =>
      Advance(s.(cache := DropMatching(s.cache, ROUTES_PATTERN)), sid, me.(pc := RouteInvalidated))
    case RouteInvalidated => Commit(s, sid, me)

    case ViewStart =>
      var key := SeatKey(me.routeId);
      if key in s.cache && s.now <= s.cache[key].expires && s.cache[key].reading.data != [] then
        var e := s.cache[key];
        Close(s, sid).(served := s.served
          + [Served(me.routeId, e.reading.data, s.now, Span(e.reading.at, e.written))])
      else Advance(s, sid, me.(pc := ViewMissed))
    case ViewMissed =>
      Advance(s, sid, me.(pc := ViewQueried, seen := Reading(SeatList(s.core.db, me.routeId), |s.history|, s.now)))
    case ViewQueried =>
      Close(s, sid).(cache := Filled(s, me),
                     served := s.served + [Served(me.routeId, me.seen.data, s.now, Span(me.seen.at, s.now))])
  }

  /** The cache with what a reader has read. */
  function Filled(s: Sys, me: Session): map<string, Entry> {
    s.cache[SeatKey(me.routeId) := Entry(me.routeId, me.seen, s.now, s.now + SEATS_TTL)]
  }

  function Span(start: nat, end: nat): nat { if start <= end then end - start else 0 }

  function Abort(s: Sys, sid: nat, me: Session, tookEffect: bool): Sys {
    var s1 := match me.pc
      case BookSeatRead => s.(core := s.core.(nextBooking := s.core.nextBooking + 1))
      case BookConfirmed | CancelMarked =>
        if tookEffect then s.(cache := DropMatching(s.cache, SeatPattern(me.routeId))) else s
      case BookInvalidated => if tookEffect then Publish(s, ConfirmedEvent(me.id)) else s
      case CancelInvalidated => if tookEffect then Publish(s, CancelledEvent(me.id)) else s
      case RouteSeated => if tookEffect then s.(cache := DropMatching(s.cache, ROUTES_PATTERN)) else s
      case ViewQueried => if tookEffect then s.(cache := Filled(s, me)) else s
      case _ => s;
    Close(s1, sid)
  }

  /** One atomic step; an action that is not possible now changes nothing. */
  function Next(s: Sys, a: Action): Sys {
    match a
    case Begin(sid, req) => if sid in s.sessions then s else Advance(s, sid, Opened(req))
    case Exec(sid) =>
      if sid !in s.sessions || Waits(s, sid) then s else Run1(s, sid, s.sessions[sid])
    case Fail(sid, tookEffect) => if sid !in s.sessions then s else Abort(s, sid, s.sessions[sid], tookEffect)
    case Tick(ms) => s.(now := s.now + ms)
    case Evict(key) => s.(cache := s.cache - {key})
  }

  /** The state after a whole run. */
  function Run(s: Sys, acts: seq<Action>): Sys {
    if acts == [] then s else Next(Run(s, acts[..|acts| - 1]), acts[|acts| - 1])
  }

  lemma RunLast(s: Sys, acts: seq<Action>)
    requires acts != []
    ensures Run(s, acts) == Next(Run(s, acts[..|acts| - 1]), acts[|acts| - 1])
  {
    hide Next;
  }

  lemma {:induction false} RunAppend(s: Sys, xs: seq<Action>, ys: seq<Action>)
    ensures Run(s, xs + ys) == Run(Run(s, xs), ys)
    decreases |ys|
  {
    if ys == [] {
      assert xs + ys == xs;
    } else {
      var front := ys[..|ys| - 1];
      assert (xs + ys)[..|xs + ys| - 1] == xs + front;
      RunAppend(s, xs, front);
    }
  }

  predicate OnBooking(pc: Pc) {
    || pc.BookStart? || pc.BookRouteRead? || pc.BookSeatRead? || pc.BookInserted? || pc.BookMarked?
    || pc.BookConfirmed? || pc.BookInvalidated? || pc.BookPublished?
  }

  predicate OnCancelling(pc: Pc) {
    || pc.CancelStart? || pc.CancelChecked? || pc.CancelUpdated? || pc.CancelMarked? || pc.CancelInvalidated?
    || pc.CancelPublished?
  }

  predicate OnAdding(pc: Pc) { pc.RouteStart? || pc.RouteInserted? || pc.RouteSeated? || pc.RouteInvalidated? }

  predicate Viewing(me: Session) { me.pc.ViewStart? || me.pc.ViewMissed? || me.pc.ViewQueried? }

  /** A writer's statement never adds to the cache, answers nobody, and leaves every reader where it was. */
  lemma WritersOnlyDrop(s: Sys, sid: nat)
    requires sid in s.sessions && !Viewing(s.sessions[sid])
    ensures var s' := Run1(s, sid, s.sessions[sid]);
            && s'.served == s.served && s'.now == s.now
            && (forall k :: k in s'.cache ==> k in s.cache && s'.cache[k] == s.cache[k])
            && (forall i :: i in s'.sessions && s'.sessions[i].pc.ViewQueried? ==>
                  i in s.sessions && s'.sessions[i] == s.sessions[i])
            && (s'.history == s.history || s' == Commit(s, sid, s.sessions[sid]))
            && (s'.core.db == s.core.db || s' == Commit(s, sid, s.sessions[sid]))
  {
    hide Overlay, NewSeats, SeatTaken, Glob;
  }

  /** A statement ends or advances its own session and touches no other. */
  lemma Run1Others(s: Sys, i: nat, sid: nat)
    requires i in s.sessions && i != sid
    ensures var ss := Run1(s, i, s.sessions[i]).sessions;
            (sid in ss <==> sid in s.sessions) && (sid in ss ==> ss[sid] == s.sessions[sid])
  {
    hide Run1;
    var pc := s.sessions[i].pc;
    if OnBooking(pc) { BookingLeavesOthers(s, i, sid); }
    else if OnCancelling(pc) { CancellingLeavesOthers(s, i, sid); }
    else if OnAdding(pc) { AddingLeavesOthers(s, i, sid); }
    else { ViewingLeavesOthers(s, i, sid); }
  }

  lemma BookingLeavesOthers(s: Sys, i: nat, sid: nat)
    requires i in s.sessions && i != sid && OnBooking(s.sessions[i].pc)
    ensures var ss := Run1(s, i, s.sessions[i]).sessions;
            (sid in ss <==> sid in s.sessions) && (sid in ss ==> ss[sid] == s.sessions[sid])
  {
    hide Overlay, SeatTaken, DropMatching;
  }

  lemma CancellingLeavesOthers(s: Sys, i: nat, sid: nat)
    requires i in s.sessions && i != sid && OnCancelling(s.sessions[i].pc)
    ensures var ss := Run1(s, i, s.sessions[i]).sessions;
            (sid in ss <==> sid in s.sessions) && (sid in ss ==> ss[sid] == s.sessions[sid])
  {
    hide Overlay, DropMatching;
  }

  lemma AddingLeavesOthers(s: Sys, i: nat, sid: nat)
    requires i in s.sessions && i != sid && OnAdding(s.sessions[i].pc)
    ensures var ss := Run1(s, i, s.sessions[i]).sessions;
            (sid in ss <==> sid in s.sessions) && (sid in ss ==> ss[sid] == s.sessions[sid])
  {
    hide Overlay, NewSeats, DropMatching;
  }

  lemma ViewingLeavesOthers(s: Sys, i: nat, sid: nat)
    requires i in s.sessions && i != sid && Viewing(s.sessions[i])
    ensures var ss := Run1(s, i, s.sessions[i]).sessions;
            (sid in ss <==> sid in s.sessions) && (sid in ss ==> ss[sid] == s.sessions[sid])
  {
  }

  /** Where every run starts: routes and free seats, no booking, nothing cached, published or open. */
  ghost predicate Initial(s: Sys) {
    && Consistent(s.core.db) && s.core.db.bookings == map[]
    && (forall r :: r in s.core.db.routes ==> r < s.core.nextRoute)
    && (forall t :: t in s.core.db.seats ==> t < s.core.nextSeat)
    && s.core.events == [] && s.cache == map[] && s.sessions == map[] && s.served == []
    && s.history == [Snapshot(s.now, s.core.db)]
  }
}
