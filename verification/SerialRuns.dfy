/** Runs of whole requests: the caches tell the truth, messages match rows, and a route can only change so often. */
module SerialRuns {
  import opened Rows
  import opened Listing
  import opened CacheKeys
  import opened Search
  import opened Protocol
  import opened ProtocolSafety
  import opened ProtocolResults
  import opened Requests
  import S = SerialIsRun

  // ---- invariants inherited from the protocol ----

  /** An idle system over the core `c`. */
  function Idle(c: Core): Sys { Sys(c, map[], 0, map[], [Snapshot(0, c.db)], []) }

  lemma HandleKeepsCore(a: App, call: Call, like: Like)
    requires CoreOk(a.core)
    ensures CoreOk(Handle(a, call, like).core) && Evolves(a.core.db, Handle(a, call, like).core.db)
  {
    hide CoreOk, Evolves, CreateBooking, CancelBooking, CreateRoute, Run, S.Steps;
    var s := Idle(a.core);
    assert Safe(s);
    EvolvesItself(a.core.db);
    match call
    case PostBooking(user, routeId, seatId, fault) =>
      S.BookIsRun(s, user, routeId, seatId, fault);
      RunsKeepRows(s, S.Steps(Book(user, routeId, seatId), S.BookStop(fault), fault));
    case DeleteBooking(id, user, fault) =>
      S.CancelIsRun(s, id, user, fault);
      RunsKeepRows(s, S.Steps(Cancel(id, user), S.CancelStop(fault), fault));
    case PostRoute(r, fault) =>
      S.RouteIsRun(s, r, fault);
      RunsKeepRows(s, S.Steps(AddRoute(r), S.RouteStop(fault), fault));
    case _ =>
  }

  lemma {:induction false} RunsKeepRows(s: Sys, acts: seq<Action>)
    requires Safe(s)
    ensures CoreOk(Run(s, acts).core) && Evolves(s.core.db, Run(s, acts).core.db)
    decreases |acts|
  {
    hide Evolves, Next, CoreOk;
    if acts == [] {
      EvolvesItself(s.core.db);
    } else {
      var front := acts[..|acts| - 1];
      RunsKeepRows(s, front);
      RunKeepsSafe(s, front);
      RunKeepsSafe(s, acts);
      StepEvolves(Run(s, front), acts[|acts| - 1]);
      EvolvesTransitive(s.core.db, Run(s, front).core.db, Run(s, acts).core.db);
    }
  }

  lemma FreshCore(a: App)
    requires Fresh(a)
    ensures CoreOk(a.core)
  {
    hide Consistent;
  }

  // ---- the cached seat lists ----

  ghost predicate SeatsCoherent(a: App) {
    forall r {:trigger SeatKey(r)} :: SeatKey(r) in a.cache ==>
      var v := a.cache[SeatKey(r)].value;
      v.SeatsValue? && (v.seats == [] || v.seats == SeatList(a.core.db, r))
  }

  lemma KeyKinds(r: nat, q: Query)
    ensures SeatKey(r) != KeyOf(q)
  {
    assert SeatKey(r)[0] == 's' && KeyOf(q)[0] == 'r';
  }

  lemma BookingFrame(db: Db, id: nat, k: Booking, r: nat)
    requires k.seatId in db.seats && db.seats[k.seatId].routeId != r
    ensures SeatList(Sell(db, id, k), r) == SeatList(db, r)
  {
    ListFrame(db, Sell(db, id, k), r);
  }

  lemma CancelFrame(db: Db, id: nat, r: nat)
    requires id in db.bookings && (db.bookings[id].seatId in db.seats ==> db.seats[db.bookings[id].seatId].routeId != r)
    ensures SeatList(Requests.Cancelled(db, id), r) == SeatList(db, r)
  {
    ListFrame(db, Requests.Cancelled(db, id), r);
  }

  /** A new route changes no other route's list, and had none itself. */
  lemma RouteFrame(c: Core, route: Route, r: nat)
    requires CoreOk(c)
    ensures r != c.nextRoute ==> SeatList(WithRoute(c.db, c.nextRoute, route, c.nextSeat), r) == SeatList(c.db, r)
    ensures SeatList(c.db, c.nextRoute) == []
  {
    hide EventsMatch, BookedIffSold, NumbersComplete, NumbersDistinct, BookingsLinked, NewSeats;
    if r != c.nextRoute { ListFrame(c.db, WithRoute(c.db, c.nextRoute, route, c.nextSeat), r); }
    NoSeatsNoList(c.db, c.nextRoute);
  }

  /** What a call may do to a cached seat list: drop it, or keep it true. */
  lemma WriterKeepsSeats(a: App, call: Call, like: Like)
    requires CoreOk(a.core) && a.on && SeatsCoherent(a)
    requires call.PostBooking? || call.DeleteBooking? || call.PostRoute?
    ensures SeatsCoherent(Handle(a, call, like))
  {
    hide CoreOk, SeatList, SeatPattern, Glob, SeatTaken, BookGuard, CancelGuard;
    var a' := Handle(a, call, like);
    forall r {:trigger SeatKey(r)} | SeatKey(r) in a'.cache
      ensures var v := a'.cache[SeatKey(r)].value;
              v.SeatsValue? && (v.seats == [] || v.seats == SeatList(a'.core.db, r))
    {
      assert SeatKey(r) in a.cache && a'.cache[SeatKey(r)] == a.cache[SeatKey(r)];
      WriterKeepsList(a, call, like, r);
    }
  }

  lemma WriterKeepsList(a: App, call: Call, like: Like, r: nat)
    requires CoreOk(a.core) && a.on && SeatKey(r) in Handle(a, call, like).cache
    requires call.PostBooking? || call.DeleteBooking? || call.PostRoute?
    ensures SeatList(Handle(a, call, like).core.db, r) == SeatList(a.core.db, r) || SeatList(a.core.db, r) == []
  {
    hide CoreOk, SeatList, Glob, SeatTaken;
    match call
    case PostBooking(user, routeId, seatId, fault) =>
      SeatPatternHits(routeId, r);
      if BookInvalidates(a.core, routeId, seatId, fault) && r != routeId {
        BookingFrame(a.core.db, a.core.nextBooking, NewBooking(a.core.db, user, routeId, seatId), r);
      }
    case DeleteBooking(id, user, fault) =>
      if CancelInvalidates(a.core, id, user, fault) {
        SeatPatternHits(a.core.db.bookings[id].routeId, r);
        BookingsOwnSeat(a.core, id);
        if r != a.core.db.bookings[id].routeId { CancelFrame(a.core.db, id, r); }
      }
    case PostRoute(route, fault) => RouteFrame(a.core, route, r);
  }

  lemma BookingsOwnSeat(c: Core, id: nat)
    requires CoreOk(c) && id in c.db.bookings
    ensures c.db.bookings[id].seatId in c.db.seats
    ensures c.db.seats[c.db.bookings[id].seatId].routeId == c.db.bookings[id].routeId
  {
    hide EventsMatch, BookedIffSold, SeatsNumbered, OneBookingPerSeat;
  }

  lemma FillKeepsSeats(a: App, q: nat)
    requires SeatsCoherent(a)
    ensures SeatsCoherent(ListSeats(a, q).0)
  {
    hide SeatList, SeatKey;
    forall r {:trigger SeatKey(r)} | SeatKey(r) == SeatKey(q) ensures r == q { SeatKeyInjective(r, q); }
  }

  lemma SearchKeepsSeats(a: App, q: Query, like: Like)
    requires SeatsCoherent(a)
    ensures SeatsCoherent(ListRoutes(a, q, like).0)
  {
    hide SeatList, SeatKey, RouteKey, ListActive;
    forall r {:trigger SeatKey(r)} ensures SeatKey(r) != KeyOf(q) { KeyKinds(r, q); }
  }

  lemma CallKeepsSeats(a: App, call: Call, like: Like)
    requires CoreOk(a.core) && a.on && SeatsCoherent(a)
    ensures SeatsCoherent(Handle(a, call, like))
  {
    hide CoreOk, ListSeats, ListRoutes;
    match call
    case PostBooking(_, _, _, _) => WriterKeepsSeats(a, call, like);
    case DeleteBooking(_, _, _) => WriterKeepsSeats(a, call, like);
    case PostRoute(_, _) => WriterKeepsSeats(a, call, like);
    case GetSeats(q) => ListsChangeNoRow(a, q); FillKeepsSeats(a, q);
    case GetRoutes(q) => SearchKeepsSeats(a, q, like);
    case Wait(_) =>
    case Lose(_) =>
  }

  lemma ListsChangeNoRow(a: App, r: nat)
    ensures ListSeats(a, r).0.core == a.core
  {
    hide SeatList, SeatKey;
  }

  lemma {:induction false} SeatsStayCoherent(a: App, calls: seq<Call>, like: Like)
    requires Fresh(a) && a.on
    ensures var a' := HandleAll(a, calls, like); CoreOk(a'.core) && a'.on && SeatsCoherent(a')
    decreases |calls|
  {
    hide CoreOk, Handle;
    if calls == [] {
      FreshCore(a);
    } else {
      hide SeatsCoherent, Fresh;
      var front := HandleAll(a, calls[..|calls| - 1], like);
      SeatsStayCoherent(a, calls[..|calls| - 1], like);
      HandleKeepsCore(front, calls[|calls| - 1], like);
      CallKeepsSeats(front, calls[|calls| - 1], like);
      StaysOff(a, calls, like);
    }
  }

  /** In any sequence of whole requests, whatever fails and whatever expires, `list_seats` answers exactly what
      `list_by_route` would answer now. */
  lemma SeatAnswersAreExact(a: App, calls: seq<Call>, like: Like, routeId: nat)
    requires Fresh(a)
    ensures var a' := HandleAll(a, calls, like);
            ListSeats(a', routeId).1 == SeatsValue(SeatList(a'.core.db, routeId))
  {
    hide SeatList, SeatKey, HandleAll;
    if a.on {
      SeatsStayCoherent(a, calls, like);
    } else {
      StaysOff(a, calls, like);
    }
  }

  lemma {:induction false} StaysOff(a: App, calls: seq<Call>, like: Like)
    ensures HandleAll(a, calls, like).on == a.on
    decreases |calls|
  {
    hide CreateBooking, CancelBooking, CreateRoute, ListActive, SeatList;
    if calls != [] { StaysOff(a, calls[..|calls| - 1], like); }
  }

  // ---- seats shown free ----

  /** In any reachable state, a free seat of an active route can be booked exactly when no booking row names it, and
      a free seat that has a row has a CANCELLED one. */
  lemma FreeSeatSellsIff(s: Sys, acts: seq<Action>, user: nat, routeId: nat, seatId: nat)
    requires Initial(s)
    requires var db := Run(s, acts).core.db; BookGuard(db, routeId, seatId) == OK
    ensures var c := Run(s, acts).core;
            && (CreateBooking(c, user, routeId, seatId, NoFault).1.Done? <==> !SeatTaken(c.db, seatId))
            && (SeatTaken(c.db, seatId) <==>
                  exists b :: b in c.db.bookings && c.db.bookings[b].seatId == seatId
                              && c.db.bookings[b].status.Cancelled?)
  {
    hide Run, Initial, Safe;
    EveryRunIsSafe(s, acts);
    var c := Run(s, acts).core;
    SafeCore(Run(s, acts));
    FreeRowsCancelled(c, seatId);
  }

  lemma SafeCore(s: Sys)
    requires Safe(s)
    ensures CoreOk(s.core)
  {
  }

  lemma FreeRowsCancelled(c: Core, seatId: nat)
    requires CoreOk(c) && seatId in c.db.seats && !c.db.seats[seatId].booked
    ensures forall b :: b in c.db.bookings && c.db.bookings[b].seatId == seatId ==> c.db.bookings[b].status.Cancelled?
  {
    hide CoreOk;
    forall b | b in c.db.bookings && c.db.bookings[b].seatId == seatId ensures c.db.bookings[b].status.Cancelled? {
      BookedSeatExists(c, b);
    }
  }

  // ---- messages and rows ----

  /** Confirmed messages are the booking rows, cancelled messages the CANCELLED rows, one to one. */
  ghost predicate MessagesAreRows(c: Core) {
    && (forall i, j :: 0 <= i < j < |c.events| ==> c.events[i] != c.events[j])
    && (forall e :: e in c.events ==>
          e.bookingId in c.db.bookings && (e.CancelledEvent? ==> c.db.bookings[e.bookingId].status.Cancelled?))
    && (forall b :: b in c.db.bookings ==> ConfirmedEvent(b) in c.events)
    && (forall b :: b in c.db.bookings && c.db.bookings[b].status.Cancelled? ==> CancelledEvent(b) in c.events)
  }

  /** The message went out and the rows did not: the broker delivered but reported an error, or the commit failed. */
  predicate Lossy(fault: Fault) { fault == AtPublish(true) || fault.AtCommit? }

  lemma FreshMessage(c: Core)
    requires CoreOk(c)
    ensures ConfirmedEvent(c.nextBooking) !in c.events && CancelledEvent(c.nextBooking) !in c.events
    ensures c.nextBooking !in c.db.bookings
  {
    hide Consistent, ConfirmedOnce, ConfirmedFirst;
    assert ConfirmedEvent(c.nextBooking).bookingId == c.nextBooking == CancelledEvent(c.nextBooking).bookingId;
  }

  /** A booking request keeps messages and rows one to one unless it gets to publish and then loses its rows. */
  lemma BookKeepsMessagesIff(c: Core, user: nat, routeId: nat, seatId: nat, fault: Fault)
    requires CoreOk(c) && MessagesAreRows(c)
    ensures MessagesAreRows(CreateBooking(c, user, routeId, seatId, fault).0)
       <==> !(BookInvalidates(c, routeId, seatId, fault) && Lossy(fault))
  {
    FreshMessage(c);
    hide CoreOk, SeatTaken, BookGuard;
    var id, c' := c.nextBooking, CreateBooking(c, user, routeId, seatId, fault).0;
    if BookInvalidates(c, routeId, seatId, fault) && fault.NoFault? {
      SaleKeepsMessages(c, c', NewBooking(c.db, user, routeId, seatId));
    } else if BookInvalidates(c, routeId, seatId, fault) && Lossy(fault) {
      PhantomMessage(c', id);
    } else {
      assert c'.events == c.events && c'.db == c.db;
    }
  }

  lemma SaleKeepsMessages(c: Core, c': Core, k: Booking)
    requires MessagesAreRows(c) && k.status.Confirmed? && k.seatId in c.db.seats
    requires ConfirmedEvent(c.nextBooking) !in c.events && c.nextBooking !in c.db.bookings
    requires c'.events == c.events + [ConfirmedEvent(c.nextBooking)] && c'.db == Sell(c.db, c.nextBooking, k)
    ensures MessagesAreRows(c')
  {
    assert ConfirmedEvent(c.nextBooking) in c'.events;
  }

  lemma PhantomMessage(c: Core, id: nat)
    requires id !in c.db.bookings && c.events != [] && c.events[|c.events| - 1] == ConfirmedEvent(id)
    ensures !MessagesAreRows(c)
  {
    assert ConfirmedEvent(id) in c.events && ConfirmedEvent(id).bookingId == id;
  }

  lemma CancelKeepsMessagesIff(c: Core, id: nat, user: nat, fault: Fault)
    requires CoreOk(c) && MessagesAreRows(c)
    ensures MessagesAreRows(CancelBooking(c, id, user, fault).0)
       <==> !(CancelInvalidates(c, id, user, fault) && Lossy(fault))
  {
    hide CoreOk;
    var c' := CancelBooking(c, id, user, fault).0;
    if CancelInvalidates(c, id, user, fault) && Lossy(fault) {
      assert CancelledEvent(id) in c'.events && CancelledEvent(id).bookingId == id;
    }
    if CancelInvalidates(c, id, user, fault) { assert CancelledEvent(id) !in c.events; }
  }

  /** A request that gets to publish and then loses its rows. */
  predicate LosesRows(a: App, call: Call) {
    match call
    case PostBooking(_, routeId, seatId, fault) => BookInvalidates(a.core, routeId, seatId, fault) && Lossy(fault)
    case DeleteBooking(id, user, fault) => CancelInvalidates(a.core, id, user, fault) && Lossy(fault)
    case _ => false
  }

  /** What can have gone wrong between messages and rows, given the invariant of all runs. */
  ghost predicate Mismatched(c: Core, e: Event) {
    e in c.events && (e.bookingId !in c.db.bookings
                      || (e.CancelledEvent? && !c.db.bookings[e.bookingId].status.Cancelled?))
  }

  ghost predicate Repeated(events: seq<Event>) {
    exists i, j :: 0 <= i < j < |events| && events[i] == events[j]
  }

  lemma MessagesAreRowsIff(c: Core)
    requires CoreOk(c)
    ensures MessagesAreRows(c) <==> !Repeated(c.events) && forall e :: !Mismatched(c, e)
  {
    hide Consistent, ConfirmedOnce, ConfirmedFirst;
    if !Repeated(c.events) && forall e :: !Mismatched(c, e) {
      forall i, j | 0 <= i < j < |c.events| ensures c.events[i] != c.events[j] {
        assert !Repeated(c.events);
      }
      forall e | e in c.events
        ensures e.bookingId in c.db.bookings && (e.CancelledEvent? ==> c.db.bookings[e.bookingId].status.Cancelled?)
      {
        assert !Mismatched(c, e);
      }
    }
  }

  lemma RepeatedStays(events: seq<Event>, more: seq<Event>)
    requires Repeated(events)
    ensures Repeated(events + more)
  {
    var i, j :| 0 <= i < j < |events| && events[i] == events[j];
    assert (events + more)[i] == (events + more)[j];
  }

  lemma SaysItAgain(events: seq<Event>, e: Event)
    requires e in events
    ensures Repeated(events + [e])
  {
    var i :| 0 <= i < |events| && events[i] == e;
    assert (events + [e])[i] == (events + [e])[|events|];
  }

  /** Nothing mends a broken match: a new booking takes a new id, and cancelling a row whose cancellation is out
      already announces it again. */
  lemma BrokenStaysBroken(a: App, call: Call, like: Like)
    requires CoreOk(a.core) && !MessagesAreRows(a.core)
    ensures !MessagesAreRows(Handle(a, call, like).core)
  {
    hide CoreOk, Handle, MessagesAreRows, Repeated, Mismatched;
    var c, c' := a.core, Handle(a, call, like).core;
    HandleKeepsCore(a, call, like);
    MessagesAreRowsIff(c);
    MessagesAreRowsIff(c');
    MessagesAppend(a, call, like);
    var more := c'.events[|c.events|..];
    assert c'.events == c.events + more;
    if Repeated(c.events) {
      RepeatedStays(c.events, more);
    } else {
      var e :| Mismatched(c, e);
      MismatchStays(a, call, like, e);
    }
  }

  lemma MessagesAppend(a: App, call: Call, like: Like)
    ensures a.core.events <= Handle(a, call, like).core.events
  {
    hide ListSeats, ListRoutes, SeatTaken, Sell, Requests.Cancelled, WithRoute;
    match call
    case GetSeats(r) => ListsChangeNoRow(a, r);
    case GetRoutes(q) => SearchChangesNoRow(a, q, like);
    case _ =>
  }

  lemma MismatchStays(a: App, call: Call, like: Like, e: Event)
    requires CoreOk(a.core) && Mismatched(a.core, e)
    ensures var c' := Handle(a, call, like).core; Mismatched(c', e) || Repeated(c'.events)
  {
    hide CoreOk, ListSeats, ListRoutes, SeatTaken, BookGuard, Repeated;
    match call
    case PostBooking(user, routeId, seatId, fault) => OldId(a.core, e);
    case DeleteBooking(id, user, fault) =>
      if CancelBooking(a.core, id, user, fault).1.Done? && e == CancelledEvent(id) {
        SaysItAgain(a.core.events, e);
      }
    case PostRoute(r, fault) =>
    case GetSeats(r) => ListsChangeNoRow(a, r);
    case GetRoutes(q) => SearchChangesNoRow(a, q, like);
    case Wait(_) =>
    case Lose(_) =>
  }

  lemma OldId(c: Core, e: Event)
    requires CoreOk(c) && e in c.events
    ensures e.bookingId != c.nextBooking
  {
    hide Consistent, ConfirmedOnce, ConfirmedFirst;
  }

  ghost predicate NothingLost(a: App, calls: seq<Call>, like: Like) {
    forall n: nat {:trigger calls[..n]} | n < |calls| :: !LosesRows(HandleAll(a, calls[..n], like), calls[n])
  }

  /** After any sequence of whole requests, messages and rows match one to one if and only if no request got to
      publish and then lost its rows. */
  lemma {:induction false} MessagesMatchRowsIff(a: App, calls: seq<Call>, like: Like)
    requires Fresh(a)
    ensures CoreOk(HandleAll(a, calls, like).core)
    ensures MessagesAreRows(HandleAll(a, calls, like).core) <==> NothingLost(a, calls, like)
    decreases |calls|
  {
    hide CoreOk, Handle, LosesRows;
    if calls == [] {
      FreshCore(a);
    } else {
      hide MessagesAreRows, Fresh, NothingLost;
      var n := |calls| - 1;
      var front := HandleAll(a, calls[..n], like);
      MessagesMatchRowsIff(a, calls[..n], like);
      HandleKeepsCore(front, calls[n], like);
      CallMatchesIff(front, calls[n], like);
      NothingLostSnoc(a, calls, like);
    }
  }

  lemma NothingLostSnoc(a: App, calls: seq<Call>, like: Like)
    requires calls != []
    ensures var n := |calls| - 1;
            NothingLost(a, calls, like)
            <==> NothingLost(a, calls[..n], like) && !LosesRows(HandleAll(a, calls[..n], like), calls[n])
  {
    hide HandleAll, LosesRows;
    var n := |calls| - 1;
    var front := calls[..n];
    assert forall m: nat {:trigger calls[..m]} | m < n :: front[..m] == calls[..m] && front[m] == calls[m];
    if NothingLost(a, calls, like) {
      forall m: nat {:trigger front[..m]} | m < |front| ensures !LosesRows(HandleAll(a, front[..m], like), front[m]) {
        assert calls[..m] == front[..m];
      }
      assert calls[..n] == front;
    }
    if NothingLost(a, front, like) && !LosesRows(HandleAll(a, front, like), calls[n]) {
      forall m: nat {:trigger calls[..m]} | m < |calls| ensures !LosesRows(HandleAll(a, calls[..m], like), calls[m]) {
        if m < n { assert front[..m] == calls[..m]; }
      }
    }
  }

  lemma CallMatchesIff(a: App, call: Call, like: Like)
    requires CoreOk(a.core)
    ensures MessagesAreRows(Handle(a, call, like).core) <==> MessagesAreRows(a.core) && !LosesRows(a, call)
  {
    hide CoreOk, MessagesAreRows, ListSeats, ListRoutes, CreateBooking, CancelBooking;
    if !MessagesAreRows(a.core) {
      BrokenStaysBroken(a, call, like);
    } else {
      match call
      case PostBooking(user, routeId, seatId, fault) => BookKeepsMessagesIff(a.core, user, routeId, seatId, fault);
      case DeleteBooking(id, user, fault) => CancelKeepsMessagesIff(a.core, id, user, fault);
      case PostRoute(r, fault) => RouteKeepsMessages(a.core, r, fault);
      case GetSeats(r) => ListsChangeNoRow(a, r);
      case GetRoutes(q) => SearchChangesNoRow(a, q, like);
      case Wait(_) =>
      case Lose(_) =>
    }
  }

  lemma RouteKeepsMessages(c: Core, r: Route, fault: Fault)
    requires MessagesAreRows(c)
    ensures MessagesAreRows(CreateRoute(c, r, fault).0)
  {
  }

  lemma SearchChangesNoRow(a: App, q: Query, like: Like)
    ensures ListRoutes(a, q, like).0.core == a.core
  {
    hide RouteKey, ListActive;
  }
}
