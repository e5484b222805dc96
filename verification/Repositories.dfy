/** The repositories: each query and each change of a row, over the session of one request. */
module Repositories {
  import opened Rows
  import opened Ordering
  import opened Listing
  import opened Search
  import opened Storage

  function WithBooking(db: Db, id: nat, k: Booking): Db { db.(bookings := Put(db.bookings, id, k)) }

  function WithSeat(db: Db, id: nat, s: Seat): Db { db.(seats := Put(db.seats, id, s)) }

  /** A route with its seats and nothing else. */
  function SeatedRoute(id: nat, r: Route, first: nat): Db { Db(map[id := r], NewSeats(id, r.totalSeats, first), map[]) }

  lemma AddedRoute(id: nat, r: Route, rows: seq<Seat>, first: nat)
    requires |rows| == r.totalSeats && forall i :: 0 <= i < |rows| ==> rows[i] == Seat(id, i + 1, false)
    ensures Overlay(WithAdded(Overlay(WithAdded(EMPTY, NewRoute(r), id), EMPTY), NewSeatRows(rows), first), EMPTY)
         == SeatedRoute(id, r, first)
  {
    hide Numbered, NewSeats;
    assert Numbered(rows, first) == NewSeats(id, r.totalSeats, first);
  }

  class BookingRepository {
    const db: AsyncSession

    constructor (db: AsyncSession)
      ensures this.db == db
    {
      this.db := db;
    }

    function GetById(id: nat): (found: Option<Booking>)
      reads db, db.database
      ensures found.Some? <==> id in db.View().bookings
      ensures found.Some? ==> found.value == db.View().bookings[id]
    {
      var view := db.View();
      if id in view.bookings then Some(view.bookings[id]) else None
    }

    /** Add a PENDING row and flush: refused if any row, cancelled ones included, has the seat. */
    method Create(userId: nat, routeId: nat, seatId: nat, totalPrice: int, fails: bool) returns (id: Option<nat>)
      requires db.Clean()
      modifies db, db.database`ids
      ensures id == if fails || SeatTaken(old(db.database.db), seatId) then None else Some(old(db.database.ids).booking)
      ensures db.database.ids == old(db.database.ids).(booking := old(db.database.ids).booking + 1)
      ensures id.Some? ==> db.added.Nothing? && db.dirty == EMPTY
      ensures id.Some? ==>
        var row := Booking(userId, routeId, seatId, Pending, totalPrice);
        db.flushed == EMPTY.(bookings := map[id.value := row])
    {
      db.Add(NewBooking(Booking(userId, routeId, seatId, Pending, totalPrice)));
      var ok, key := db.Flush(fails);
      assert Overlay(old(db.database.db), EMPTY) == old(db.database.db);
      return if ok then Some(key) else None;
    }

    /** Set the status and flush, which also sends every other change the session holds. None if there is no such
        row or the database fails; the callers fail in either case. */
    method UpdateStatus(id: nat, status: Status, fails: bool) returns (booking: Option<Booking>)
      requires db.added.Nothing?
      modifies db, db.database`ids
      ensures db.database.ids == old(db.database.ids)
      ensures booking.Some? <==> id in old(db.View()).bookings && !fails
      ensures booking.Some? ==>
        && booking.value == old(db.View()).bookings[id].(status := status)
        && db.added.Nothing? && db.dirty == EMPTY
        && db.flushed == Overlay(old(db.flushed), WithBooking(old(db.dirty), id, booking.value))
    {
      booking := GetById(id);
      if booking.None? { return; }
      booking := Some(booking.value.(status := status));
      db.TouchBooking(id, booking.value);
      var ok, key := db.Flush(fails);
      if !ok { return None; }
    }
  }

  class SeatRepository {
    const db: AsyncSession

    constructor (db: AsyncSession)
      ensures this.db == db
    {
      this.db := db;
    }

    function GetById(id: nat): (found: Option<Seat>)
      reads db, db.database
      ensures found.Some? <==> id in db.View().seats
      ensures found.Some? ==> found.value == db.View().seats[id]
    {
      var view := db.View();
      if id in view.seats then Some(view.seats[id]) else None
    }

    /** Primary keys in seat order. */
    function ListByRoute(routeId: nat): (ids: seq<nat>)
      reads db, db.database
      ensures IsOrdering(SeatKeys(db.View(), routeId), ids)
      ensures ids == Sorted(SeatKeys(db.View(), routeId))
    {
      Sorted(SeatKeys(db.View(), routeId))
    }

    /** In memory only: nothing is sent before the next flush. */
    method MarkBooked(id: nat)
      modifies db`dirty
      ensures db.dirty == if id in db.View().seats
        then WithSeat(old(db.dirty), id, db.View().seats[id].(booked := true))
        else old(db.dirty)
    {
      var seat := GetById(id);
      if seat.Some? {
        db.Touch(id, seat.value.(booked := true));
      }
    }

    method MarkFree(id: nat)
      modifies db`dirty
      ensures db.dirty == if id in db.View().seats
        then WithSeat(old(db.dirty), id, db.View().seats[id].(booked := false))
        else old(db.dirty)
    {
      var seat := GetById(id);
      if seat.Some? {
        db.Touch(id, seat.value.(booked := false));
      }
    }
  }

  class RouteRepository {
    const db: AsyncSession

    constructor (db: AsyncSession)
      ensures this.db == db
    {
      this.db := db;
    }

    function GetById(id: nat): (found: Option<Route>)
      reads db, db.database
      ensures found.Some? <==> id in db.View().routes
      ensures found.Some? ==> found.value == db.View().routes[id]
    {
      var view := db.View();
      if id in view.routes then Some(view.routes[id]) else None
    }

    function ListActive(q: Query, like: Like): RoutePage
      reads db, db.database
    {
      Search.ListActive(db.View(), q, like)
    }

    /** Unsaved seats 1..total. */
    method SeatRows(routeId: nat, total: nat) returns (rows: seq<Seat>)
      ensures |rows| == total && forall i :: 0 <= i < total ==> rows[i] == Seat(routeId, i + 1, false)
    {
      rows := [];
      for n := 1 to total + 1
        invariant |rows| == n - 1
        invariant forall i :: 0 <= i < |rows| ==> rows[i] == Seat(routeId, i + 1, false)
      {
        rows := rows + [Seat(routeId, n, false)];
      }
    }

    /** The route row is flushed first, for its id, then its seats 1..total. */
    method Create(route: Route, routeFails: bool, seatsFail: bool) returns (id: Option<nat>)
      requires db.Clean()
      modifies db, db.database`ids
      ensures id == if routeFails || seatsFail then None else Some(old(db.database.ids).route)
      ensures db.database.ids == old(db.database.ids).(
        route := old(db.database.ids).route + 1,
        seat := old(db.database.ids).seat + if routeFails then 0 else route.totalSeats)
      ensures id.Some? ==> db.added.Nothing? && db.dirty == EMPTY
      ensures id.Some? ==> db.flushed == SeatedRoute(id.value, route, old(db.database.ids).seat)
    {
      db.Add(NewRoute(route));
      var ok, key := db.Flush(routeFails);
      if !ok { return None; }
      var rows := SeatRows(key, route.totalSeats);
      db.Add(NewSeatRows(rows));
      var first;
      ok, first := db.Flush(seatsFail);
      AddedRoute(key, route, rows, first);
      return if ok then Some(key) else None;
    }
  }
}
