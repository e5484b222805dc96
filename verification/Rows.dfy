/** The three tables of the booking database and the facts every committed state has. */
module Rows {

  datatype Option<+T> = None | Some(value: T)

  datatype Status = Pending | Confirmed | Cancelled

  /** Prices are in the smallest currency unit, departure is a day number. */
  datatype Route = Route(
    origin: string, destination: string, departure: int, totalSeats: nat, price: int, active: bool)

  datatype Seat = Seat(routeId: nat, number: nat, booked: bool)

  datatype Booking = Booking(userId: nat, routeId: nat, seatId: nat, status: Status, totalPrice: int)

  /** Tables are maps from primary key to row. */
  datatype Db = Db(routes: map<nat, Route>, seats: map<nat, Seat>, bookings: map<nat, Booking>)

  const EMPTY := Db(map[], map[], map[])

  /** `db` overwritten by the rows of `w`: what a session sees, and what its commit leaves behind. */
  function Overlay(db: Db, w: Db): Db {
    Db(db.routes + w.routes, db.seats + w.seats, db.bookings + w.bookings)
  }

  predicate SeatTaken(db: Db, seatId: nat) {
    exists b :: b in db.bookings && db.bookings[b].seatId == seatId
  }

  predicate Sold(db: Db, bookingId: nat, seatId: nat) {
    bookingId in db.bookings && db.bookings[bookingId].seatId == seatId && db.bookings[bookingId].status.Confirmed?
  }

  predicate SeatIs(db: Db, seatId: nat, routeId: nat, number: nat) {
    seatId in db.seats && db.seats[seatId].routeId == routeId && db.seats[seatId].number == number
  }

  ghost predicate HasSeat(db: Db, routeId: nat, number: nat) {
    exists s :: SeatIs(db, s, routeId, number)
  }

  predicate SameSpot(s: Seat, t: Seat) {
    s.routeId == t.routeId && s.number == t.number
  }

  // ---- what every committed state satisfies ----

  /** The unique constraint on `bookings.seat_id`. */
  ghost predicate OneBookingPerSeat(db: Db) {
    forall a, b :: a in db.bookings && b in db.bookings && db.bookings[a].seatId == db.bookings[b].seatId ==> a == b
  }

  /** Foreign keys, the copies a booking keeps of its route and price, and that only active routes are sold. */
  ghost predicate BookingsLinked(db: Db) {
    forall b :: b in db.bookings ==>
      var k := db.bookings[b];
      && k.seatId in db.seats && db.seats[k.seatId].routeId == k.routeId
      && k.routeId in db.routes && k.totalPrice == db.routes[k.routeId].price && db.routes[k.routeId].active
  }

  ghost predicate NonePending(db: Db) {
    forall b :: b in db.bookings ==> !db.bookings[b].status.Pending?
  }

  ghost predicate BookedIffSold(db: Db) {
    forall s :: s in db.seats ==> (db.seats[s].booked <==> exists b :: Sold(db, b, s))
  }

  ghost predicate NumbersInRange(db: Db) {
    forall s :: s in db.seats ==>
      db.seats[s].routeId in db.routes && 1 <= db.seats[s].number <= db.routes[db.seats[s].routeId].totalSeats
  }

  /** The unique constraint `uq_route_seat`. */
  ghost predicate NumbersDistinct(db: Db) {
    forall s, t :: s in db.seats && t in db.seats && SameSpot(db.seats[s], db.seats[t]) ==> s == t
  }

  ghost predicate NumbersComplete(db: Db) {
    forall r, n {:trigger HasSeat(db, r, n)} ::
      r in db.routes && 1 <= n <= db.routes[r].totalSeats ==> HasSeat(db, r, n)
  }

  /** Every route has seats 1..totalSeats, each exactly once, and there are no other seats. */
  ghost predicate SeatsNumbered(db: Db) {
    NumbersInRange(db) && NumbersDistinct(db) && NumbersComplete(db)
  }

  ghost predicate Consistent(db: Db) {
    OneBookingPerSeat(db) && BookingsLinked(db) && NonePending(db) && BookedIffSold(db) && SeatsNumbered(db)
  }

  /** `k'` is `k`, possibly cancelled: every other field is frozen. */
  predicate Follows(k: Booking, k': Booking) {
    k' == k || (k.status.Confirmed? && k' == k.(status := Cancelled))
  }

  /** The only changes the application makes to existing rows: `is_booked`, and CONFIRMED to CANCELLED. */
  ghost predicate Evolves(db: Db, db': Db) {
    && (forall r :: r in db.routes ==> r in db'.routes && db'.routes[r] == db.routes[r])
    && (forall s :: s in db.seats ==> s in db'.seats && SameSpot(db.seats[s], db'.seats[s]))
    && (forall b :: b in db.bookings ==> b in db'.bookings && Follows(db.bookings[b], db'.bookings[b]))
  }

  /** The seat rows of a new route, under consecutive primary keys from `first`. */
  function NewSeats(routeId: nat, total: nat, first: nat): (m: map<nat, Seat>)
    ensures forall i :: i in m <==> first <= i < first + total
    ensures forall i :: i in m ==> m[i] == Seat(routeId, i - first + 1, false)
  {
    if total == 0 then map[] else NewSeats(routeId, total - 1, first)[first + total - 1 := Seat(routeId, total, false)]
  }

  /** Booking `id` = `k` added, its seat taken. */
  function Sell(db: Db, id: nat, k: Booking): Db
    requires k.seatId in db.seats
  {
    Db(db.routes, db.seats[k.seatId := db.seats[k.seatId].(booked := true)], db.bookings[id := k])
  }

  /** Booking `id` cancelled, its seat free. */
  function Unsell(db: Db, id: nat): Db
    requires id in db.bookings && db.bookings[id].seatId in db.seats
  {
    var k := db.bookings[id];
    Db(db.routes, db.seats[k.seatId := db.seats[k.seatId].(booked := false)],
       db.bookings[id := k.(status := Cancelled)])
  }

  function WithRoute(db: Db, id: nat, r: Route, first: nat): Db {
    Db(db.routes[id := r], db.seats + NewSeats(id, r.totalSeats, first), db.bookings)
  }

  lemma EvolvesTransitive(a: Db, b: Db, c: Db)
    requires Evolves(a, b) && Evolves(b, c)
    ensures Evolves(a, c)
  {
  }

  // ---- the three kinds of commit keep a consistent database consistent ----

  lemma SellKeepsConsistent(db: Db, id: nat, k: Booking)
    requires Consistent(db)
    requires id !in db.bookings && !SeatTaken(db, k.seatId)
    requires k.status.Confirmed? && k.seatId in db.seats && db.seats[k.seatId].routeId == k.routeId
    requires k.routeId in db.routes && k.totalPrice == db.routes[k.routeId].price && db.routes[k.routeId].active
    ensures Consistent(Sell(db, id, k)) && Evolves(db, Sell(db, id, k))
  {
    hide SeatsNumbered, BookedIffSold;
    SellFlags(db, id, k);
    SameNumbering(db, Sell(db, id, k));
  }

  lemma SellFlags(db: Db, id: nat, k: Booking)
    requires BookedIffSold(db) && id !in db.bookings && k.status.Confirmed? && k.seatId in db.seats
    ensures BookedIffSold(Sell(db, id, k))
  {
    var db' := Sell(db, id, k);
    assert Sold(db', id, k.seatId);
    forall s | s in db'.seats
      ensures db'.seats[s].booked <==> exists b :: Sold(db', b, s)
    {
      if s != k.seatId {
        assert forall b :: Sold(db', b, s) <==> Sold(db, b, s);
      }
    }
  }

  lemma CancelKeepsConsistent(db: Db, id: nat)
    requires Consistent(db) && id in db.bookings
    ensures Consistent(Unsell(db, id)) && Evolves(db, Unsell(db, id))
  {
    hide SeatsNumbered, BookedIffSold;
    CancelFlags(db, id);
    SameNumbering(db, Unsell(db, id));
  }

  lemma CancelFlags(db: Db, id: nat)
    requires BookedIffSold(db) && OneBookingPerSeat(db) && id in db.bookings && db.bookings[id].seatId in db.seats
    ensures BookedIffSold(Unsell(db, id))
  {
    var k, db' := db.bookings[id], Unsell(db, id);
    forall s | s in db'.seats
      ensures db'.seats[s].booked <==> exists b :: Sold(db', b, s)
    {
      if s == k.seatId {
        assert forall b :: !Sold(db', b, s);
      } else {
        assert forall b :: Sold(db', b, s) <==> Sold(db, b, s);
      }
    }
  }

  lemma AddRouteKeepsConsistent(db: Db, id: nat, r: Route, first: nat)
    requires Consistent(db) && id !in db.routes
    requires forall s :: s in db.seats ==> s < first || first + r.totalSeats <= s
    ensures Consistent(WithRoute(db, id, r, first)) && Evolves(db, WithRoute(db, id, r, first))
  {
    hide NumbersComplete, NumbersDistinct, NumbersInRange, BookedIffSold, NewSeats;
    AddRouteFlags(db, id, r, first);
    AddRouteNumbers(db, id, r, first);
    AddRouteComplete(db, id, r, first);
  }

  lemma AddRouteNumbers(db: Db, id: nat, r: Route, first: nat)
    requires NumbersInRange(db) && NumbersDistinct(db) && id !in db.routes
    requires forall s :: s in db.seats ==> s < first || first + r.totalSeats <= s
    ensures NumbersInRange(WithRoute(db, id, r, first)) && NumbersDistinct(WithRoute(db, id, r, first))
  {
    hide NewSeats;
  }

  lemma AddRouteFlags(db: Db, id: nat, r: Route, first: nat)
    requires BookedIffSold(db) && BookingsLinked(db)
    requires forall s :: s in db.seats ==> s < first || first + r.totalSeats <= s
    ensures BookedIffSold(WithRoute(db, id, r, first))
  {
    hide NewSeats;
    var db' := WithRoute(db, id, r, first);
    assert forall b, s :: Sold(db', b, s) <==> Sold(db, b, s);
    assert forall s :: s in db.seats ==> db'.seats[s] == db.seats[s];
  }

  lemma AddRouteComplete(db: Db, id: nat, r: Route, first: nat)
    requires NumbersComplete(db) && id !in db.routes
    requires forall s :: s in db.seats ==> s < first || first + r.totalSeats <= s
    ensures NumbersComplete(WithRoute(db, id, r, first))
  {
    hide NewSeats;
    var db' := WithRoute(db, id, r, first);
    forall q, n {:trigger HasSeat(db', q, n)} | q in db'.routes && 1 <= n <= db'.routes[q].totalSeats
      ensures HasSeat(db', q, n)
    {
      if q == id {
        assert SeatIs(db', first + n - 1, q, n);
      } else {
        assert HasSeat(db, q, n);
        var s :| SeatIs(db, s, q, n);
        assert SeatIs(db', s, q, n);
      }
    }
  }

  lemma SameNumbering(db: Db, db': Db)
    requires SeatsNumbered(db) && db'.routes == db.routes && db'.seats.Keys == db.seats.Keys
    requires forall s :: s in db.seats ==> SameSpot(db.seats[s], db'.seats[s])
    ensures SeatsNumbered(db')
  {
    assert NumbersComplete(db') by { SameComplete(db, db'); }
  }

  lemma SameComplete(db: Db, db': Db)
    requires NumbersComplete(db) && db'.routes == db.routes && db'.seats.Keys == db.seats.Keys
    requires forall s :: s in db.seats ==> SameSpot(db.seats[s], db'.seats[s])
    ensures NumbersComplete(db')
  {
    forall r, n {:trigger HasSeat(db', r, n)} | r in db'.routes && 1 <= n <= db'.routes[r].totalSeats
      ensures HasSeat(db', r, n)
    {
      assert HasSeat(db, r, n);
      var s :| SeatIs(db, s, r, n);
      assert SeatIs(db', s, r, n);
    }
  }
}
