/** `BookingService`: the steps of a booking and of a cancellation inside one request's session, up to but not
    including the commit. */
module Service {
  import opened Rows
  import opened CacheKeys
  import opened Protocol
  import opened Requests
  import opened Caching
  import opened Storage
  import opened Repositories

  class Broker {
    var events: seq<Event>

    constructor ()
      ensures events == []
    {
      events := [];
    }

    /** A publish that reports an error may have delivered its message all the same. */
    method Publish(event: Event, fault: Fault) returns (ok: bool)
      modifies this
      ensures ok == !fault.AtPublish?
      ensures events == if ok || fault.delivered then old(events) + [event] else old(events)
    {
      ok := !fault.AtPublish?;
      if ok || fault.delivered { events := events + [event]; }
    }
  }

  /** The service finishes before the commit, so a commit that will fail looks like no fault to it. */
  function BeforeCommit(fault: Fault): Fault { if fault.AtCommit? then NoFault else fault }

  /** The seat lists of `routeId` dropped, if the request got that far. */
  function Cleared(entries: map<string, Cached>, clears: bool, routeId: nat): map<string, Cached> {
    if clears then Drop(entries, SeatPattern(routeId)) else entries
  }

  // ---- the rows a finished request leaves in its session ----

  /** Insert flushed, seat marked, status flushed together with the mark. */
  function BookedWrites(db: Db, id: nat, k: Booking): Db
    requires k.seatId in db.seats
  {
    Overlay(EMPTY.(bookings := map[id := k.(status := Pending)]),
            WithBooking(WithSeat(EMPTY, k.seatId, db.seats[k.seatId].(booked := true)), id, k))
  }

  /** A session sees the tables as they are, and then with its own booking row. */
  lemma CleanView(db: Db)
    ensures Overlay(db, EMPTY) == db
  {
  }

  lemma BookingView(db: Db, id: nat, k: Booking)
    ensures Overlay(db, EMPTY.(bookings := map[id := k])) == WithBooking(db, id, k)
    ensures Overlay(EMPTY, WithBooking(EMPTY, id, k)) == EMPTY.(bookings := map[id := k])
  {
    assert Overlay(db, EMPTY.(bookings := map[id := k])).bookings == db.bookings[id := k];
  }

  lemma BookedWritesSell(db: Db, id: nat, k: Booking)
    requires k.seatId in db.seats
    ensures Overlay(Overlay(db, BookedWrites(db, id, k)), EMPTY) == Sell(db, id, k)
  {
    var after := Overlay(Overlay(db, BookedWrites(db, id, k)), EMPTY);
    assert after.routes == db.routes;
    assert after.seats == Sell(db, id, k).seats;
    assert after.bookings == Sell(db, id, k).bookings;
  }

  /** Status flushed; the freed seat still waits for the flush in `commit`. */
  function FreedSeat(db: Db, seatId: nat): Db {
    if seatId in db.seats then WithSeat(EMPTY, seatId, db.seats[seatId].(booked := false)) else EMPTY
  }

  lemma CancelledWrites(db: Db, id: nat)
    requires id in db.bookings
    ensures var k := db.bookings[id].(status := Status.Cancelled);
            Overlay(WithBooking(db, id, k), FreedSeat(db, k.seatId)) == Requests.Cancelled(db, id)
  {
    var k := db.bookings[id].(status := Status.Cancelled);
    var after := Overlay(WithBooking(db, id, k), FreedSeat(db, k.seatId));
    assert after.routes == db.routes && after.bookings == db.bookings[id := k];
    assert after.seats == Requests.Cancelled(db, id).seats;
  }

  class BookingService {
    const db: AsyncSession
    const bookings: BookingRepository
    const routes: RouteRepository
    const seats: SeatRepository
    const broker: Broker
    const cache: CacheService

    constructor (db: AsyncSession, broker: Broker, cache: CacheService)
      ensures this.db == db && this.broker == broker && this.cache == cache && Wired()
    {
      this.db, this.broker, this.cache := db, broker, cache;
      bookings := new BookingRepository(db);
      routes := new RouteRepository(db);
      seats := new SeatRepository(db);
    }

    predicate Wired() { bookings.db == db && routes.db == db && seats.db == db }

    /** The application core if the tables held `rows`. */
    ghost function CoreWith(rows: Db): Core
      reads db, db.database, broker
    {
      var ids := db.database.ids;
      Core(rows, ids.booking, ids.route, ids.seat, broker.events)
    }

    /** The core as the database has it, and as it will be once this session commits. */
    ghost function Committed(): Core
      reads db, db.database, broker
    {
      CoreWith(db.database.db)
    }

    ghost function Pending(): Core
      reads db, db.database, broker
    {
      CoreWith(Overlay(db.View(), db.dirty))
    }

    /** The rows of a booking, PENDING first and then CONFIRMED. */
    method Reserve(userId: nat, routeId: nat, seatId: nat, price: int, fault: Fault) returns (id: Option<nat>)
      requires Wired() && db.Clean() && seatId in db.database.db.seats
      modifies db, db.database`ids
      ensures db.database.ids == old(db.database.ids).(booking := old(db.database.ids).booking + 1)
      ensures id == if SeatTaken(db.database.db, seatId) || fault.AtInsert? || fault.AtUpdate? then None
                    else Some(old(db.database.ids).booking)
      ensures id.Some? ==> db.added.Nothing?
      ensures id.Some? ==>
        var booking := Booking(userId, routeId, seatId, Confirmed, price);
        Overlay(db.View(), db.dirty) == Sell(db.database.db, id.value, booking)
    {
      hide Overlay, Sell, WithSeat, SeatTaken;
      CleanView(db.database.db);
      id := bookings.Create(userId, routeId, seatId, price, fault.AtInsert?);
      if id.None? { return; }
      BookingView(db.database.db, id.value, Booking(userId, routeId, seatId, Status.Pending, price));
      seats.MarkBooked(seatId);
      var booking := bookings.UpdateStatus(id.value, Confirmed, fault.AtUpdate?);
      if booking.None? { return None; }
      BookedWritesSell(db.database.db, id.value, booking.value);
    }

    method CreateBooking(userId: nat, routeId: nat, seatId: nat, fault: Fault) returns (reply: Reply)
      requires Wired() && db.Clean() && cache.Valid() && (fault.AtCache? ==> cache.client != null)
      modifies db, db.database`ids, cache.server`entries, broker
      ensures var (after, answer) :=
                Requests.CreateBooking(old(Committed()), userId, routeId, seatId, BeforeCommit(fault));
              reply == answer && after == (if reply.Done? then Pending() else Committed())
      ensures reply.Done? ==> db.added.Nothing?
      ensures var clears := BookInvalidates(old(Committed()), routeId, seatId, fault);
              cache.server.entries == Cleared(old(cache.server.entries), clears && cache.client != null, routeId)
    {
      hide SeatPattern, Drop, Overlay, Sell, SeatTaken;
      CleanView(db.database.db);
      var route := routes.GetById(routeId);
      if route.None? || !route.value.active { return Http(NOT_FOUND); }

      var seat := seats.GetById(seatId);
      if seat.None? || seat.value.routeId != routeId { return Http(NOT_FOUND); }
      if seat.value.booked { return Http(CONFLICT); }

      var id := Reserve(userId, routeId, seatId, route.value.price, fault);
      if id.None? { return Http(SERVER_ERROR); }

      var ok := cache.DeletePattern(SeatPattern(routeId), fault);
      if !ok { return Http(SERVER_ERROR); }
      ok := broker.Publish(ConfirmedEvent(id.value), fault);
      if !ok { return Http(SERVER_ERROR); }
      return Done(id.value);
    }

    method CancelBooking(id: nat, userId: nat, fault: Fault) returns (reply: Reply)
      requires Wired() && db.Clean() && cache.Valid() && (fault.AtCache? ==> cache.client != null)
      modifies db, db.database`ids, cache.server`entries, broker
      ensures var (after, answer) := Requests.CancelBooking(old(Committed()), id, userId, BeforeCommit(fault));
              reply == answer && after == (if reply.Done? then Pending() else Committed())
      ensures reply.Done? ==> db.added.Nothing?
      ensures var clears := CancelInvalidates(old(Committed()), id, userId, fault);
              var routeId := if clears then old(Committed()).db.bookings[id].routeId else 0;
              cache.server.entries == Cleared(old(cache.server.entries), clears && cache.client != null, routeId)
    {
      hide SeatPattern, Drop, Overlay, WithSeat, Requests.Cancelled;
      CleanView(db.database.db);
      var found := bookings.GetById(id);
      if found.None? { return Http(NOT_FOUND); }
      if found.value.userId != userId { return Http(FORBIDDEN); }
      if found.value.status.Cancelled? { return Http(BAD_REQUEST); }

      var booking := bookings.UpdateStatus(id, Status.Cancelled, fault.AtUpdate?);
      if booking.None? { return Http(SERVER_ERROR); }
      BookingView(db.database.db, id, booking.value);
      seats.MarkFree(booking.value.seatId);
      var ok := cache.DeletePattern(SeatPattern(booking.value.routeId), fault);
      if !ok { return Http(SERVER_ERROR); }
      ok := broker.Publish(CancelledEvent(id), fault);
      if !ok { return Http(SERVER_ERROR); }
      CancelledWrites(old(db.database.db), id);
      return Done(id);
    }
  }
}
