/** How often a route's bookings can change: each success spends one of at most 2 x total_seats. */
module RouteBudget {
  import opened Sets
  import opened Rows
  import opened Listing
  import opened Search
  import opened Protocol
  import opened ProtocolSafety
  import opened ProtocolResults
  import opened Requests
  import opened SerialRuns

  function SeatsIn(db: Db, r: nat): set<nat> { set s | s in db.seats && db.seats[s].routeId == r }

  /** Seats of the route that no booking row has ever named. */
  function NeverSold(db: Db, r: nat): set<nat> { set s | s in SeatsIn(db, r) && !SeatTaken(db, s) }

  function Budget(db: Db, r: nat): nat { 2 * |NeverSold(db, r)| + |ConfirmedOf(db, r)| }

  /** A booking or cancellation on route `r` that went through. */
  predicate Succeeds(a: App, call: Call, r: nat) {
    match call
    case PostBooking(user, routeId, seatId, fault) =>
      routeId == r && CreateBooking(a.core, user, routeId, seatId, fault).1.Done?
    case DeleteBooking(id, user, fault) =>
      CancelBooking(a.core, id, user, fault).1.Done? && a.core.db.bookings[id].routeId == r
    case _ => false
  }

  function Successes(a: App, calls: seq<Call>, like: Like, r: nat): nat {
    if calls == [] then 0 else
      var front := calls[..|calls| - 1];
      Successes(a, front, like, r)
      + if Succeeds(HandleAll(a, front, like), calls[|calls| - 1], r) then 1 else 0
  }

  lemma SellTakes(db: Db, id: nat, k: Booking, s: nat)
    requires id !in db.bookings && k.seatId in db.seats
    ensures SeatTaken(Sell(db, id, k), s) <==> SeatTaken(db, s) || s == k.seatId
  {
    var db' := Sell(db, id, k);
    if SeatTaken(db, s) {
      var b :| b in db.bookings && db.bookings[b].seatId == s;
      assert b in db'.bookings && db'.bookings[b].seatId == s;
    }
    assert id in db'.bookings && db'.bookings[id].seatId == k.seatId;
  }

  lemma SellNeverSold(db: Db, id: nat, k: Booking, r: nat)
    requires id !in db.bookings && k.seatId in db.seats
    ensures NeverSold(Sell(db, id, k), r) == NeverSold(db, r) - {k.seatId}
  {
    hide SeatTaken;
    forall s ensures SeatTaken(Sell(db, id, k), s) <==> SeatTaken(db, s) || s == k.seatId { SellTakes(db, id, k, s); }
    assert SeatsIn(Sell(db, id, k), r) == SeatsIn(db, r);
  }

  lemma SellConfirms(db: Db, id: nat, k: Booking, r: nat)
    requires id !in db.bookings && k.seatId in db.seats && k.status.Confirmed?
    ensures ConfirmedOf(Sell(db, id, k), r) == ConfirmedOf(db, r) + if k.routeId == r then {id} else {}
    ensures id !in ConfirmedOf(db, r)
  {
  }

  lemma SellSpends(db: Db, id: nat, k: Booking, r: nat)
    requires id !in db.bookings && !SeatTaken(db, k.seatId) && k.status.Confirmed?
    requires k.seatId in db.seats && db.seats[k.seatId].routeId == k.routeId
    ensures Budget(Sell(db, id, k), r) == Budget(db, r) - if k.routeId == r then 1 else 0
  {
    hide SeatTaken, ConfirmedOf, Sell;
    SellNeverSold(db, id, k, r);
    SellConfirms(db, id, k, r);
    assert k.seatId in NeverSold(db, r) <==> k.routeId == r;
  }

  lemma UnsellSpends(db: Db, id: nat, r: nat)
    requires id in db.bookings && db.bookings[id].status.Confirmed? && db.bookings[id].seatId in db.seats
    ensures Budget(Unsell(db, id), r) == Budget(db, r) - if db.bookings[id].routeId == r then 1 else 0
  {
    var db' := Unsell(db, id);
    forall s ensures SeatTaken(db', s) <==> SeatTaken(db, s) {
      if SeatTaken(db, s) {
        var b :| b in db.bookings && db.bookings[b].seatId == s;
        assert b in db'.bookings && db'.bookings[b].seatId == s;
      }
    }
    assert NeverSold(db', r) == NeverSold(db, r);
    if db.bookings[id].routeId == r {
      assert ConfirmedOf(db', r) == ConfirmedOf(db, r) - {id};
    } else {
      assert ConfirmedOf(db', r) == ConfirmedOf(db, r);
    }
  }

  lemma NewRouteSpendsNothing(db: Db, id: nat, route: Route, first: nat, r: nat)
    requires r != id && forall s :: s in db.seats ==> s < first
    ensures Budget(WithRoute(db, id, route, first), r) == Budget(db, r)
  {
    hide NewSeats;
    var db' := WithRoute(db, id, route, first);
    assert forall s :: SeatTaken(db', s) <==> SeatTaken(db, s);
    assert SeatsIn(db', r) == SeatsIn(db, r);
    assert NeverSold(db', r) == NeverSold(db, r);
    assert ConfirmedOf(db', r) == ConfirmedOf(db, r);
  }

  /** One call on the books: a success on the route spends exactly one, anything else nothing. */
  lemma CallSpends(a: App, call: Call, like: Like, r: nat)
    requires CoreOk(a.core) && r in a.core.db.routes
    ensures Budget(Handle(a, call, like).core.db, r) == Budget(a.core.db, r) - if Succeeds(a, call, r) then 1 else 0
  {
    hide CoreOk, Budget, SeatTaken, ListSeats, ListRoutes, Invalidate;
    var c := a.core;
    match call
    case PostBooking(user, routeId, seatId, fault) =>
      if CreateBooking(c, user, routeId, seatId, fault).1.Done? {
        FreshMessage(c);
        SellSpends(c.db, c.nextBooking, NewBooking(c.db, user, routeId, seatId), r);
      }
    case DeleteBooking(id, user, fault) =>
      if CancelBooking(c, id, user, fault).1.Done? {
        BookingsOwnSeat(c, id);
        NotPending(c, id);
        UnsellSpends(c.db, id, r);
      }
    case PostRoute(route, fault) =>
      RouteIsFresh(c, r);
      if CreateRoute(c, route, fault).1.Done? { NewRouteSpendsNothing(c.db, c.nextRoute, route, c.nextSeat, r); }
    case GetSeats(q) => ListsChangeNoRow(a, q);
    case GetRoutes(q) => SearchChangesNoRow(a, q, like);
    case Wait(_) =>
    case Lose(_) =>
  }

  lemma NotPending(c: Core, id: nat)
    requires CoreOk(c) && id in c.db.bookings
    ensures !c.db.bookings[id].status.Pending?
  {
    hide EventsMatch, BookedIffSold, SeatsNumbered, OneBookingPerSeat;
  }

  lemma RouteIsFresh(c: Core, r: nat)
    requires CoreOk(c) && r in c.db.routes
    ensures r != c.nextRoute && forall s :: s in c.db.seats ==> s < c.nextSeat
  {
    hide EventsMatch, Consistent;
  }

  /** Never sold and confirmed seats are different seats of the route. */
  lemma BudgetBound(db: Db, r: nat)
    requires Consistent(db) && r in db.routes
    ensures Budget(db, r) <= 2 * db.routes[r].totalSeats
  {
    SoldSeats(db, r);
    SeatCount(db, r);
    hide SeatsNumbered;
    forall s | s in BookedOf(db, r) ensures SeatTaken(db, s) {
      var b :| Sold(db, b, s);
      assert b in db.bookings && db.bookings[b].seatId == s;
    }
    DisjointSize(NeverSold(db, r), BookedOf(db, r), SeatsIn(db, r));
  }

  lemma SeatCount(db: Db, r: nat)
    requires Consistent(db) && r in db.routes
    ensures |SeatsIn(db, r)| == db.routes[r].totalSeats
  {
    hide BookedIffSold, SeatsNumbered;
    ListIsNumbered(db, r);
    assert SeatKeys(db, r).Keys == SeatsIn(db, r);
  }

  /** Over any run of whole requests, the successes on a route and what is left of its budget add up to the
      budget it started with. */
  lemma {:induction false} BudgetIsSpent(a: App, calls: seq<Call>, like: Like, r: nat)
    requires CoreOk(a.core) && r in a.core.db.routes
    ensures var a' := HandleAll(a, calls, like);
            CoreOk(a'.core) && r in a'.core.db.routes
            && Successes(a, calls, like, r) + Budget(a'.core.db, r) == Budget(a.core.db, r)
    decreases |calls|
  {
    hide CoreOk, Handle, Budget, Succeeds;
    if calls != [] {
      var front, call := HandleAll(a, calls[..|calls| - 1], like), calls[|calls| - 1];
      BudgetIsSpent(a, calls[..|calls| - 1], like, r);
      HandleKeepsCore(front, call, like);
      CallSpends(front, call, like, r);
    }
  }

  /** A route sees at most 2 x total_seats successful bookings and cancellations, ever. */
  lemma SuccessesBounded(a: App, calls: seq<Call>, like: Like, r: nat)
    requires CoreOk(a.core) && r in a.core.db.routes
    ensures Successes(a, calls, like, r) <= 2 * a.core.db.routes[r].totalSeats
  {
    BudgetIsSpent(a, calls, like, r);
    hide Budget, Successes, EventsMatch, IdsBounded, HandleAll;
    BudgetBound(a.core.db, r);
  }

  // ---- under any interleaving ----

  function RowsOf(db: Db, r: nat): set<nat> { set b | b in db.bookings && db.bookings[b].routeId == r }

  /** Over any run of concurrent requests a route never gets more booking rows than it has seats, those cancelled
      since included: rows are never removed, so this bounds all bookings ever made. */
  lemma RowsBounded(s: Sys, acts: seq<Action>, more: seq<Action>, r: nat)
    requires Initial(s) && r in Run(s, acts).core.db.routes
    ensures var db, later := Run(s, acts).core.db, Run(s, acts + more).core.db;
            && RowsOf(db, r) <= RowsOf(later, r) && r in later.routes && later.routes[r] == db.routes[r]
            && |RowsOf(later, r)| <= db.routes[r].totalSeats
  {
    hide Initial, Run, Safe;
    RunsEvolve(s, acts, more);
    EveryRunIsSafe(s, acts + more);
    SafeCore(Run(s, acts + more));
    RowsKept(Run(s, acts).core.db, Run(s, acts + more).core.db, r);
    RowsFitSeats(Run(s, acts + more).core, r);
  }

  lemma RowsKept(db: Db, later: Db, r: nat)
    requires Evolves(db, later) && r in db.routes
    ensures RowsOf(db, r) <= RowsOf(later, r) && r in later.routes && later.routes[r] == db.routes[r]
  {
    forall b | b in RowsOf(db, r) ensures b in RowsOf(later, r) {
      assert Follows(db.bookings[b], later.bookings[b]);
    }
  }

  lemma RowsFitSeats(c: Core, r: nat)
    requires CoreOk(c) && r in c.db.routes
    ensures |RowsOf(c.db, r)| <= c.db.routes[r].totalSeats
  {
    hide CoreOk, EventsMatch, IdsBounded, BookedIffSold, SeatsNumbered;
    var ids := RowsOf(c.db, r);
    forall b | b in ids ensures c.db.bookings[b].seatId in SeatsIn(c.db, r) {
      BookingsOwnSeat(c, b);
    }
    CoreConsistent(c);
    OneSeatEach(c.db, ids);
    SubsetSize(SeatsOf(c.db, ids), SeatsIn(c.db, r));
    SeatCount(c.db, r);
  }

  lemma CoreConsistent(c: Core)
    requires CoreOk(c)
    ensures Consistent(c.db) && OneBookingPerSeat(c.db)
  {
    hide EventsMatch, IdsBounded, BookedIffSold, SeatsNumbered;
  }
}
