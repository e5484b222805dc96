/** What every interleaving keeps, and what it means for seats, bookings, events and money. */
module ProtocolSafety {
  import opened Rows
  import opened Protocol

  // ---- events ----

  ghost predicate ConfirmedOnce(events: seq<Event>) {
    forall i, j :: 0 <= i < j < |events| && events[i].ConfirmedEvent? ==> events[i] != events[j]
  }

  ghost predicate ConfirmedFirst(events: seq<Event>) {
    forall j :: 0 <= j < |events| && events[j].CancelledEvent? ==> ConfirmedEvent(events[j].bookingId) in events[..j]
  }

  /** Messages and committed rows, in any state of any run. */
  ghost predicate EventsMatch(c: Core) {
    && ConfirmedOnce(c.events) && ConfirmedFirst(c.events)
    && (forall b :: b in c.db.bookings ==> ConfirmedEvent(b) in c.events)
    && (forall b :: b in c.db.bookings && c.db.bookings[b].status.Cancelled? ==> CancelledEvent(b) in c.events)
    && (forall e :: e in c.events ==> e.bookingId < c.nextBooking)
    && (forall e :: e in c.events && e.CancelledEvent? ==> e.bookingId in c.db.bookings)
  }

  ghost predicate IdsBounded(c: Core) {
    && (forall b :: b in c.db.bookings ==> b < c.nextBooking)
    && (forall r :: r in c.db.routes ==> r < c.nextRoute)
    && (forall t :: t in c.db.seats ==> t < c.nextSeat)
  }

  ghost predicate CoreOk(c: Core) {
    Consistent(c.db) && IdsBounded(c) && EventsMatch(c)
  }

  // ---- sessions ----

  /** A session past its insert: it alone will sell `seatId`, under the fresh id `id`. */
  predicate Selling(me: Session) {
    me.pc.BookInserted? || me.pc.BookMarked? || me.pc.BookConfirmed? || me.pc.BookInvalidated? || me.pc.BookPublished?
  }

  predicate Cancelling(me: Session) {
    me.pc.CancelUpdated? || me.pc.CancelMarked? || me.pc.CancelInvalidated? || me.pc.CancelPublished?
  }

  predicate AddingRoute(me: Session) {
    me.pc.RouteInserted? || AddingSeats(me)
  }

  predicate AddingSeats(me: Session) {
    me.pc.RouteSeated? || me.pc.RouteInvalidated?
  }

  function Sale(me: Session, status: Status): Booking {
    Booking(me.user, me.routeId, me.seatId, status, me.price)
  }

  ghost predicate NoWrites(me: Session) { me.flushed == EMPTY && me.dirty == EMPTY }

  ghost predicate RouteKnown(c: Core, me: Session) {
    me.routeId in c.db.routes && c.db.routes[me.routeId].price == me.price && c.db.routes[me.routeId].active
  }

  ghost predicate SeatKnown(c: Core, me: Session) {
    me.seatId in c.db.seats && c.db.seats[me.seatId].routeId == me.routeId
  }

  function SeatWrite(c: Core, me: Session, booked: bool): map<nat, Seat>
    requires me.seatId in c.db.seats
  {
    map[me.seatId := c.db.seats[me.seatId].(booked := booked)]
  }

  ghost predicate SaleOk(c: Core, me: Session)
    requires Selling(me)
  {
    && RouteKnown(c, me) && SeatKnown(c, me)
    && me.id < c.nextBooking && me.id !in c.db.bookings && !SeatTaken(c.db, me.seatId)
    && (ConfirmedEvent(me.id) in c.events <==> me.pc.BookPublished?)
    && me.flushed == (
         if me.pc.BookInserted? || me.pc.BookMarked? then Db(map[], map[], map[me.id := Sale(me, Pending)])
         else Db(map[], SeatWrite(c, me, true), map[me.id := Sale(me, Confirmed)]))
    && me.dirty == (if me.pc.BookMarked? then Db(map[], SeatWrite(c, me, true), map[]) else EMPTY)
  }

  ghost predicate CancelOk(c: Core, me: Session)
    requires Cancelling(me)
  {
    && me.id in c.db.bookings && me.seatId in c.db.seats && c.db.bookings[me.id].userId == me.user
    && me.seatId == c.db.bookings[me.id].seatId && me.routeId == c.db.bookings[me.id].routeId
    && me.flushed == Db(map[], map[], map[me.id := c.db.bookings[me.id].(status := Cancelled)])
    && (me.pc.CancelUpdated? ==> me.dirty == EMPTY)
    && (!me.pc.CancelUpdated? ==>
          || me.dirty == Db(map[], SeatWrite(c, me, false), map[])
          || (me.dirty == EMPTY && c.db.bookings[me.id].status.Cancelled?))
    && (me.pc.CancelPublished? ==> CancelledEvent(me.id) in c.events)
  }

  ghost predicate RouteOk(c: Core, me: Session)
    requires AddingRoute(me)
  {
    && me.route.Some? && me.routeId < c.nextRoute && me.routeId !in c.db.routes && me.dirty == EMPTY
    && me.flushed == Db(map[me.routeId := me.route.value],
                        if AddingSeats(me) then NewSeats(me.routeId, me.route.value.totalSeats, me.id) else map[],
                        map[])
    && (AddingSeats(me) ==>
          && me.id + me.route.value.totalSeats <= c.nextSeat
          && forall t :: t in c.db.seats ==> t < me.id || me.id + me.route.value.totalSeats <= t)
  }

  ghost predicate SessionOk(c: Core, me: Session) {
    if Selling(me) then SaleOk(c, me)
    else if Cancelling(me) then CancelOk(c, me)
    else if AddingRoute(me) then RouteOk(c, me)
    else
      && NoWrites(me)
      && (me.pc.BookRouteRead? ==> RouteKnown(c, me))
      && (me.pc.BookSeatRead? ==> RouteKnown(c, me) && SeatKnown(c, me))
      && (me.pc.CancelChecked? ==> me.id in c.db.bookings && c.db.bookings[me.id].userId == me.user)
  }

  /** Two sessions never claim the same booking row, seat, route or seat range. */
  ghost predicate Apart(a: Session, b: Session) {
    && ((Selling(a) || Cancelling(a)) && (Selling(b) || Cancelling(b)) ==> a.id != b.id && a.seatId != b.seatId)
    && (AddingRoute(a) && AddingRoute(b) ==> a.routeId != b.routeId)
    && (AddingSeats(a) && AddingSeats(b) && a.route.Some? && b.route.Some? ==>
          a.id + a.route.value.totalSeats <= b.id || b.id + b.route.value.totalSeats <= a.id)
  }

  ghost predicate AllApart(ss: map<nat, Session>) {
    forall i, j :: i in ss && j in ss && i != j ==> Apart(ss[i], ss[j])
  }

  ghost predicate AllOk(c: Core, ss: map<nat, Session>) {
    forall i :: i in ss ==> SessionOk(c, ss[i])
  }

  ghost predicate Safe(s: Sys) {
    CoreOk(s.core) && AllOk(s.core, s.sessions) && AllApart(s.sessions)
  }

  lemma SafeParts(s: Sys, sid: nat)
    requires Safe(s) && sid in s.sessions
    ensures CoreOk(s.core) && SessionOk(s.core, s.sessions[sid])
  {
  }

  // ---- what one session's step may do to the others ----

  /** `c'` is a later core that takes nothing `me` has claimed. */
  ghost predicate Spares(c: Core, c': Core, me: Session) {
    && Evolves(c.db, c'.db)
    && c.nextBooking <= c'.nextBooking && c.nextRoute <= c'.nextRoute && c.nextSeat <= c'.nextSeat
    && (forall e :: e in c.events ==> e in c'.events)
    && (Selling(me) ==>
          && me.id !in c'.db.bookings && !SeatTaken(c'.db, me.seatId)
          && (ConfirmedEvent(me.id) in c'.events ==> ConfirmedEvent(me.id) in c.events))
    && (AddingRoute(me) ==> me.routeId !in c'.db.routes)
    && (AddingSeats(me) && me.route.Some? ==>
          forall t :: t in c'.db.seats ==> t in c.db.seats || t < me.id || me.id + me.route.value.totalSeats <= t)
  }

  lemma SparedStaysOk(c: Core, c': Core, me: Session)
    requires SessionOk(c, me) && Spares(c, c', me)
    ensures SessionOk(c', me)
  {
    if Selling(me) {
      assert SeatWrite(c, me, true) == SeatWrite(c', me, true);
    } else if Cancelling(me) {
      assert Follows(c.db.bookings[me.id], c'.db.bookings[me.id]);
      assert SeatWrite(c, me, false) == SeatWrite(c', me, false);
    }
  }

  /** A session that is new or has moved on, beside others that were spared. */
  lemma MoveKeepsSafe(s: Sys, s': Sys, sid: nat, me: Session)
    requires Safe(s) && CoreOk(s'.core) && s'.sessions == s.sessions[sid := me]
    requires SessionOk(s'.core, me)
    requires forall o :: o in s.sessions && o != sid ==> Spares(s.core, s'.core, s.sessions[o])
    requires forall o :: o in s.sessions && o != sid ==> Apart(me, s.sessions[o]) && Apart(s.sessions[o], me)
    ensures Safe(s')
  {
    hide CoreOk, SessionOk, Spares, Apart;
    forall i | i in s'.sessions ensures SessionOk(s'.core, s'.sessions[i]) {
      if i != sid { SparedStaysOk(s.core, s'.core, s.sessions[i]); }
    }
  }

  lemma CloseKeepsSafe(s: Sys, s': Sys, sid: nat)
    requires Safe(s) && CoreOk(s'.core) && s'.sessions == s.sessions - {sid}
    requires forall o :: o in s.sessions && o != sid ==> Spares(s.core, s'.core, s.sessions[o])
    ensures Safe(s')
  {
    hide CoreOk, SessionOk, Spares, Apart;
    forall i | i in s'.sessions ensures SessionOk(s'.core, s'.sessions[i]) {
      SparedStaysOk(s.core, s'.core, s.sessions[i]);
    }
  }

  /** `c'` has the rows of `c`; sequences may have moved and one message about `me` may have been added. */
  ghost predicate SameRows(c: Core, c': Core, me: Session) {
    && c'.db == c.db
    && c.nextBooking <= c'.nextBooking && c.nextRoute <= c'.nextRoute && c.nextSeat <= c'.nextSeat
    && (c'.events == c.events
        || (c'.events == c.events + [ConfirmedEvent(me.id)] && Selling(me))
        || c'.events == c.events + [CancelledEvent(me.id)])
  }

  lemma SameRowsSpares(c: Core, c': Core, me: Session, other: Session)
    requires SameRows(c, c', me) && SessionOk(c, other) && Apart(me, other)
    ensures Spares(c, c', other)
  {
  }

  lemma SameRowsOk(c: Core, c': Core)
    requires CoreOk(c) && c'.db == c.db && c'.events == c.events
    requires c.nextBooking <= c'.nextBooking && c.nextRoute <= c'.nextRoute && c.nextSeat <= c'.nextSeat
    ensures CoreOk(c')
  {
    hide Consistent, ConfirmedOnce, ConfirmedFirst;
  }

  /** A step that leaves the rows alone, after which the session is `me'`. */
  lemma SameRowsMove(s: Sys, s': Sys, sid: nat, me': Session)
    requires Safe(s) && sid in s.sessions && CoreOk(s'.core) && SameRows(s.core, s'.core, s.sessions[sid])
    requires s'.sessions == s.sessions[sid := me'] && SessionOk(s'.core, me')
    requires forall o :: o in s.sessions && o != sid ==> Apart(me', s.sessions[o]) && Apart(s.sessions[o], me')
    ensures Safe(s')
  {
    hide CoreOk, SessionOk, Spares, Apart, SameRows;
    forall o | o in s.sessions && o != sid ensures Spares(s.core, s'.core, s.sessions[o]) {
      SameRowsSpares(s.core, s'.core, s.sessions[sid], s.sessions[o]);
    }
    MoveKeepsSafe(s, s', sid, me');
  }

  /** A step that leaves the rows alone and ends the session. */
  lemma SameRowsClose(s: Sys, s': Sys, sid: nat)
    requires Safe(s) && sid in s.sessions && CoreOk(s'.core) && SameRows(s.core, s'.core, s.sessions[sid])
    requires s'.sessions == s.sessions - {sid}
    ensures Safe(s')
  {
    hide CoreOk, SessionOk, Spares, Apart, SameRows;
    forall o | o in s.sessions && o != sid ensures Spares(s.core, s'.core, s.sessions[o]) {
      SameRowsSpares(s.core, s'.core, s.sessions[sid], s.sessions[o]);
    }
    CloseKeepsSafe(s, s', sid);
  }

  /** As `SameRowsMove`, when the session claims no more than before. */
  lemma SameClaimsMove(s: Sys, s': Sys, sid: nat, me': Session)
    requires Safe(s) && sid in s.sessions && CoreOk(s'.core) && SameRows(s.core, s'.core, s.sessions[sid])
    requires s'.sessions == s.sessions[sid := me'] && SessionOk(s'.core, me') && ClaimsNoMore(s.sessions[sid], me')
    ensures Safe(s')
  {
    hide CoreOk, SessionOk, SameRows, ClaimsNoMore;
    SameClaims(s, sid, me');
    SameRowsMove(s, s', sid, me');
  }

  predicate ClaimsNoMore(me: Session, me': Session) {
    && (Selling(me') || Cancelling(me') ==>
          (Selling(me) || Cancelling(me)) && me'.id == me.id && me'.seatId == me.seatId)
    && (AddingRoute(me') ==> AddingRoute(me) && me'.routeId == me.routeId)
    && (AddingSeats(me') ==> AddingSeats(me) && me'.id == me.id && me'.route == me.route)
  }

  lemma SameClaims(s: Sys, sid: nat, me': Session)
    requires AllApart(s.sessions) && sid in s.sessions && ClaimsNoMore(s.sessions[sid], me')
    ensures forall o :: o in s.sessions && o != sid ==> Apart(me', s.sessions[o]) && Apart(s.sessions[o], me')
  {
    forall o | o in s.sessions && o != sid ensures Apart(me', s.sessions[o]) && Apart(s.sessions[o], me') {
      assert Apart(s.sessions[sid], s.sessions[o]) && Apart(s.sessions[o], s.sessions[sid]);
    }
  }

  /** A claim on a booking row that no open session holds, and no committed row forbids. */
  lemma NewClaimApart(c: Core, me: Session, me': Session, other: Session)
    requires SessionOk(c, other) && !Blocks(me, other) && CoreOk(c)
    requires || (me.pc.BookSeatRead? && Selling(me') && me'.id == c.nextBooking && !SeatTaken(c.db, me.seatId))
             || (me.pc.CancelChecked? && Cancelling(me') && me'.id == me.id && me.id in c.db.bookings
                 && me'.seatId == c.db.bookings[me.id].seatId)
    requires me.pc.BookSeatRead? ==> me'.seatId == me.seatId
    ensures Apart(me', other) && Apart(other, me')
  {
    hide EventsMatch, BookedIffSold, SeatsNumbered, NonePending, BookingsLinked;
    if Selling(other) || Cancelling(other) { assert other.id in other.flushed.bookings; }
  }

  // ---- booking ----

  lemma FreshIdUnused(c: Core)
    requires CoreOk(c)
    ensures ConfirmedEvent(c.nextBooking) !in c.events && c.nextBooking !in c.db.bookings
  {
    hide Consistent, ConfirmedOnce, ConfirmedFirst;
    assert ConfirmedEvent(c.nextBooking).bookingId == c.nextBooking;
  }

  lemma InsertKeepsSafe(s: Sys, sid: nat)
    requires Safe(s) && sid in s.sessions && s.sessions[sid].pc.BookSeatRead? && !Waits(s, sid)
    ensures Safe(Run1(s, sid, s.sessions[sid]))
  {
    hide CoreOk, Apart;
    var me, s' := s.sessions[sid], Run1(s, sid, s.sessions[sid]);
    SafeParts(s, sid);
    SameRowsOk(s.core, s'.core);
    if SeatTaken(s.core.db, me.seatId) {
      SameRowsClose(s, s', sid);
    } else {
      FreshIdUnused(s.core);
      var me' := s'.sessions[sid];
      assert SessionOk(s'.core, me');
      forall o | o in s.sessions && o != sid ensures Apart(me', s.sessions[o]) && Apart(s.sessions[o], me') {
        NewClaimApart(s.core, me, me', s.sessions[o]);
      }
      SameRowsMove(s, s', sid, me');
    }
  }

  lemma CheckKeepsSafe(s: Sys, sid: nat)
    requires Safe(s) && sid in s.sessions
    requires s.sessions[sid].pc.BookStart? || s.sessions[sid].pc.BookRouteRead?
    ensures Safe(Run1(s, sid, s.sessions[sid]))
  {
    hide Safe, CoreOk, Apart, SaleOk, CancelOk, RouteOk;
    var me, s' := s.sessions[sid], Run1(s, sid, s.sessions[sid]);
    SafeParts(s, sid);
    if sid in s'.sessions {
      SameClaimsMove(s, s', sid, s'.sessions[sid]);
    } else {
      SameRowsClose(s, s', sid);
    }
  }

  lemma MarkKeepsSafe(s: Sys, sid: nat)
    requires Safe(s) && sid in s.sessions && s.sessions[sid].pc.BookInserted?
    ensures Safe(Run1(s, sid, s.sessions[sid]))
  {
    hide Safe, CoreOk, Apart, CancelOk, RouteOk;
    var me, s' := s.sessions[sid], Run1(s, sid, s.sessions[sid]);
    SafeParts(s, sid);
    SameClaimsMove(s, s', sid, s'.sessions[sid]);
  }

  lemma ConfirmKeepsSafe(s: Sys, sid: nat)
    requires Safe(s) && sid in s.sessions && s.sessions[sid].pc.BookMarked?
    ensures Safe(Run1(s, sid, s.sessions[sid]))
  {
    hide Safe, CoreOk, Apart, CancelOk, RouteOk;
    var me, s' := s.sessions[sid], Run1(s, sid, s.sessions[sid]);
    SafeParts(s, sid);
    SameClaimsMove(s, s', sid, s'.sessions[sid]);
  }

  lemma InvalidateKeepsSafe(s: Sys, sid: nat)
    requires Safe(s) && sid in s.sessions
    requires var pc := s.sessions[sid].pc; pc.BookConfirmed? || pc.CancelMarked? || pc.RouteSeated?
    ensures Safe(Run1(s, sid, s.sessions[sid]))
  {
    hide Safe, CoreOk, Apart, DropMatching, NewSeats;
    var me, s' := s.sessions[sid], Run1(s, sid, s.sessions[sid]);
    SafeParts(s, sid);
    SameClaimsMove(s, s', sid, s'.sessions[sid]);
  }

  lemma AppendKeepsOrder(events: seq<Event>, e: Event)
    requires ConfirmedOnce(events) && ConfirmedFirst(events)
    requires if e.ConfirmedEvent? then e !in events else ConfirmedEvent(e.bookingId) in events
    ensures ConfirmedOnce(events + [e]) && ConfirmedFirst(events + [e])
  {
    var after := events + [e];
    forall j | 0 <= j < |after| && after[j].CancelledEvent?
      ensures ConfirmedEvent(after[j].bookingId) in after[..j]
    {
      assert after[..j] == events[..j];
    }
  }

  lemma PublishConfirmedOk(c: Core, id: nat)
    requires CoreOk(c) && ConfirmedEvent(id) !in c.events && id < c.nextBooking
    ensures CoreOk(c.(events := c.events + [ConfirmedEvent(id)]))
  {
    hide Consistent, ConfirmedOnce, ConfirmedFirst;
    AppendKeepsOrder(c.events, ConfirmedEvent(id));
  }

  lemma PublishCancelledOk(c: Core, id: nat)
    requires CoreOk(c) && id in c.db.bookings
    ensures CoreOk(c.(events := c.events + [CancelledEvent(id)]))
  {
    hide Consistent, ConfirmedOnce, ConfirmedFirst;
    AppendKeepsOrder(c.events, CancelledEvent(id));
  }

  lemma PublishKeepsSafe(s: Sys, sid: nat)
    requires Safe(s) && sid in s.sessions
    requires s.sessions[sid].pc.BookInvalidated? || s.sessions[sid].pc.CancelInvalidated?
    ensures Safe(Run1(s, sid, s.sessions[sid]))
  {
    hide Safe, CoreOk, Apart;
    var me, s' := s.sessions[sid], Run1(s, sid, s.sessions[sid]);
    SafeParts(s, sid);
    if Selling(me) { PublishConfirmedOk(s.core, me.id); } else { PublishCancelledOk(s.core, me.id); }
    SameClaimsMove(s, s', sid, s'.sessions[sid]);
  }

  // ---- cancelling ----

  lemma CancelCheckKeepsSafe(s: Sys, sid: nat)
    requires Safe(s) && sid in s.sessions && s.sessions[sid].pc.CancelStart?
    ensures Safe(Run1(s, sid, s.sessions[sid]))
  {
    hide Safe, CoreOk, Apart, SaleOk, CancelOk, RouteOk;
    var me, s' := s.sessions[sid], Run1(s, sid, s.sessions[sid]);
    SafeParts(s, sid);
    if sid in s'.sessions {
      SameClaimsMove(s, s', sid, s'.sessions[sid]);
    } else {
      SameRowsClose(s, s', sid);
    }
  }

  lemma CancelKeepsSafe(s: Sys, sid: nat)
    requires Safe(s) && sid in s.sessions && !Waits(s, sid) && s.sessions[sid].pc.CancelChecked?
    ensures Safe(Run1(s, sid, s.sessions[sid]))
  {
    hide CoreOk, Apart, SaleOk, RouteOk;
    var me, s' := s.sessions[sid], Run1(s, sid, s.sessions[sid]);
    SafeParts(s, sid);
    BookedSeatExists(s.core, me.id);
    forall o | o in s.sessions && o != sid
      ensures Apart(s'.sessions[sid], s.sessions[o]) && Apart(s.sessions[o], s'.sessions[sid])
    {
      NewClaimApart(s.core, me, s'.sessions[sid], s.sessions[o]);
    }
    SameRowsMove(s, s', sid, s'.sessions[sid]);
  }

  lemma BookedSeatExists(c: Core, id: nat)
    requires CoreOk(c) && id in c.db.bookings
    ensures c.db.bookings[id].seatId in c.db.seats
    ensures !c.db.seats[c.db.bookings[id].seatId].booked ==> c.db.bookings[id].status.Cancelled?
    ensures c.db.bookings[id].status.Cancelled? ==> !c.db.seats[c.db.bookings[id].seatId].booked
  {
    hide EventsMatch, SeatsNumbered, IdsBounded;
    var seat := c.db.bookings[id].seatId;
    assert forall b :: Sold(c.db, b, seat) ==> b == id;
    assert Sold(c.db, id, seat) <==> c.db.bookings[id].status.Confirmed?;
  }

  lemma FreeKeepsSafe(s: Sys, sid: nat)
    requires Safe(s) && sid in s.sessions && s.sessions[sid].pc.CancelUpdated?
    ensures Safe(Run1(s, sid, s.sessions[sid]))
  {
    hide Safe, CoreOk, Apart, SaleOk, RouteOk;
    var me, s' := s.sessions[sid], Run1(s, sid, s.sessions[sid]);
    SafeParts(s, sid);
    BookedSeatExists(s.core, me.id);
    SameClaimsMove(s, s', sid, s'.sessions[sid]);
  }

  // ---- new routes ----

  lemma RouteInsertKeepsSafe(s: Sys, sid: nat)
    requires Safe(s) && sid in s.sessions && s.sessions[sid].pc.RouteStart?
    ensures Safe(Run1(s, sid, s.sessions[sid]))
  {
    hide Consistent, EventsMatch, SaleOk, CancelOk, AllApart;
    var me, s' := s.sessions[sid], Run1(s, sid, s.sessions[sid]);
    assert SessionOk(s.core, me);
    SameRowsOk(s.core, s'.core);
    if sid in s'.sessions {
      var me' := s'.sessions[sid];
      forall o | o in s.sessions && o != sid ensures Apart(me', s.sessions[o]) && Apart(s.sessions[o], me') {
        assert SessionOk(s.core, s.sessions[o]);
      }
      SameRowsMove(s, s', sid, me');
    } else {
      SameRowsClose(s, s', sid);
    }
  }

  lemma SeatRangeApart(c: Core, me: Session, me': Session, other: Session)
    requires SessionOk(c, other) && Apart(me, other) && Apart(other, me)
    requires me.pc.RouteInserted? && me'.pc.RouteSeated? && me'.routeId == me.routeId && me'.id == c.nextSeat
    ensures Apart(me', other) && Apart(other, me')
  {
    hide SaleOk, CancelOk;
  }

  lemma SeatsInsertKeepsSafe(s: Sys, sid: nat)
    requires Safe(s) && sid in s.sessions && s.sessions[sid].pc.RouteInserted?
    ensures Safe(Run1(s, sid, s.sessions[sid]))
  {
    hide Consistent, EventsMatch, SaleOk, CancelOk, Apart;
    var me, s' := s.sessions[sid], Run1(s, sid, s.sessions[sid]);
    assert SessionOk(s.core, me);
    SameRowsOk(s.core, s'.core);
    var me' := s'.sessions[sid];
    forall o | o in s.sessions && o != sid ensures Apart(me', s.sessions[o]) && Apart(s.sessions[o], me') {
      SeatRangeApart(s.core, me, me', s.sessions[o]);
    }
    SameRowsMove(s, s', sid, me');
  }

  lemma ViewKeepsSafe(s: Sys, sid: nat)
    requires Safe(s) && sid in s.sessions
    requires var pc := s.sessions[sid].pc; pc.ViewStart? || pc.ViewMissed? || pc.ViewQueried?
    ensures Safe(Run1(s, sid, s.sessions[sid]))
  {
    hide Safe, CoreOk, Apart, SaleOk, CancelOk, RouteOk;
    var s' := Run1(s, sid, s.sessions[sid]);
    SafeParts(s, sid);
    if sid in s'.sessions { SameClaimsMove(s, s', sid, s'.sessions[sid]); } else { SameRowsClose(s, s', sid); }
  }

  lemma AbortKeepsSafe(s: Sys, sid: nat, tookEffect: bool)
    requires Safe(s) && sid in s.sessions
    ensures Safe(Abort(s, sid, s.sessions[sid], tookEffect))
  {
    hide Safe, CoreOk, Apart, RouteOk;
    var me, s' := s.sessions[sid], Abort(s, sid, s.sessions[sid], tookEffect);
    SafeParts(s, sid);
    if me.pc.BookInvalidated? { PublishConfirmedOk(s.core, me.id); }
    if me.pc.CancelInvalidated? { PublishCancelledOk(s.core, me.id); }
    if s'.core.events == s.core.events { SameRowsOk(s.core, s'.core); }
    SameRowsClose(s, s', sid);
  }

  // ---- commits ----

  lemma CommitKeepsSafe(s: Sys, s': Sys, sid: nat)
    requires Safe(s) && sid in s.sessions && s' == Commit(s, sid, s.sessions[sid])
    requires Consistent(s'.core.db) && IdsBounded(s'.core) && EventsMatch(s'.core)
    requires forall o :: o in s.sessions && o != sid ==> Spares(s.core, s'.core, s.sessions[o])
    ensures Safe(s')
  {
    hide Consistent, IdsBounded, EventsMatch, Spares, SessionOk, Apart;
    CloseKeepsSafe(s, s', sid);
  }

  /** A commit publishes nothing, so its rows must already have been announced. */
  lemma AnnouncedRowsMatch(c: Core, c': Core)
    requires EventsMatch(c) && c'.events == c.events && c'.nextBooking == c.nextBooking
    requires forall b :: b in c.db.bookings ==> b in c'.db.bookings
    requires forall b :: b in c'.db.bookings ==> ConfirmedEvent(b) in c.events
    requires forall b :: b in c'.db.bookings && c'.db.bookings[b].status.Cancelled? ==> CancelledEvent(b) in c.events
    ensures EventsMatch(c')
  {
    hide ConfirmedOnce, ConfirmedFirst;
  }

  /** The rows after a sale is committed. */
  lemma SaleRows(c: Core, me: Session)
    requires Selling(me) && SaleOk(c, me) && me.pc.BookPublished?
    ensures Overlay(Overlay(c.db, me.flushed), me.dirty) == Sell(c.db, me.id, Sale(me, Confirmed))
  {
    hide RouteKnown, Evolves;
  }

  lemma BookCommitKeepsSafe(s: Sys, sid: nat)
    requires Safe(s) && sid in s.sessions && s.sessions[sid].pc.BookPublished?
    ensures Safe(Commit(s, sid, s.sessions[sid]))
  {
    hide Consistent, ConfirmedOnce, ConfirmedFirst, Overlay, Apart, Spares;
    var me, s' := s.sessions[sid], Commit(s, sid, s.sessions[sid]);
    assert SessionOk(s.core, me);
    SellKeepsConsistent(s.core.db, me.id, Sale(me, Confirmed));
    SaleRows(s.core, me);
    AnnouncedRowsMatch(s.core, s'.core);
    forall o | o in s.sessions && o != sid ensures Spares(s.core, s'.core, s.sessions[o]) {
      SaleSpares(s.core, s'.core, me, s.sessions[o]);
    }
    CommitKeepsSafe(s, s', sid);
  }

  lemma SaleSpares(c: Core, c': Core, me: Session, other: Session)
    requires SessionOk(c, other) && Apart(me, other) && Selling(me) && Evolves(c.db, c'.db)
    requires c' == c.(db := c'.db) && c'.db.routes == c.db.routes && c'.db.seats.Keys == c.db.seats.Keys
    requires c'.db.bookings == c.db.bookings[me.id := Sale(me, Confirmed)]
    ensures Spares(c, c', other)
  {
    hide Evolves;
  }

  /** The rows after a cancellation is committed. */
  lemma CancelRows(c: Core, me: Session)
    requires Cancelling(me) && CancelOk(c, me) && me.pc.CancelPublished? && CoreOk(c)
    ensures Overlay(Overlay(c.db, me.flushed), me.dirty) == Unsell(c.db, me.id)
  {
    hide CoreOk;
    BookedSeatExists(c, me.id);
  }

  lemma CancelCommitKeepsSafe(s: Sys, sid: nat)
    requires Safe(s) && sid in s.sessions && s.sessions[sid].pc.CancelPublished?
    ensures Safe(Commit(s, sid, s.sessions[sid]))
  {
    hide Consistent, ConfirmedOnce, ConfirmedFirst, Overlay, Apart, Spares;
    var me, s' := s.sessions[sid], Commit(s, sid, s.sessions[sid]);
    assert SessionOk(s.core, me);
    CancelKeepsConsistent(s.core.db, me.id);
    CancelRows(s.core, me);
    AnnouncedRowsMatch(s.core, s'.core);
    forall o | o in s.sessions && o != sid ensures Spares(s.core, s'.core, s.sessions[o]) {
      CancelSpares(s.core, s'.core, me, s.sessions[o]);
    }
    CommitKeepsSafe(s, s', sid);
  }

  lemma CancelSpares(c: Core, c': Core, me: Session, other: Session)
    requires SessionOk(c, other) && Evolves(c.db, c'.db) && me.id in c.db.bookings
    requires c' == c.(db := c'.db) && c'.db.routes == c.db.routes && c'.db.seats.Keys == c.db.seats.Keys
    requires c'.db.bookings == c.db.bookings[me.id := c.db.bookings[me.id].(status := Cancelled)]
    ensures Spares(c, c', other)
  {
    hide Evolves;
    forall b | b in c'.db.bookings ensures b in c.db.bookings && c'.db.bookings[b].seatId == c.db.bookings[b].seatId {}
  }

  /** The rows after a new route is committed. */
  lemma RouteRows(c: Core, me: Session)
    requires AddingRoute(me) && RouteOk(c, me) && me.pc.RouteInvalidated?
    ensures Overlay(Overlay(c.db, me.flushed), me.dirty) == WithRoute(c.db, me.routeId, me.route.value, me.id)
  {
  }

  lemma RouteCommitKeepsSafe(s: Sys, sid: nat)
    requires Safe(s) && sid in s.sessions && s.sessions[sid].pc.RouteInvalidated?
    ensures Safe(Commit(s, sid, s.sessions[sid]))
  {
    hide Consistent, ConfirmedOnce, ConfirmedFirst, Overlay, Apart, Spares;
    var me, s' := s.sessions[sid], Commit(s, sid, s.sessions[sid]);
    assert SessionOk(s.core, me);
    AddRouteKeepsConsistent(s.core.db, me.routeId, me.route.value, me.id);
    RouteRows(s.core, me);
    AnnouncedRowsMatch(s.core, s'.core);
    forall o | o in s.sessions && o != sid ensures Spares(s.core, s'.core, s.sessions[o]) {
      RouteSpares(s.core, s'.core, me, s.sessions[o]);
    }
    CommitKeepsSafe(s, s', sid);
  }

  lemma RouteSpares(c: Core, c': Core, me: Session, other: Session)
    requires SessionOk(c, other) && Apart(me, other) && AddingSeats(me) && me.route.Some? && Evolves(c.db, c'.db)
    requires c' == c.(db := c'.db) && c'.db.bookings == c.db.bookings
    requires c'.db.routes == c.db.routes[me.routeId := me.route.value]
    requires c'.db.seats == c.db.seats + NewSeats(me.routeId, me.route.value.totalSeats, me.id)
    ensures Spares(c, c', other)
  {
    hide Evolves;
  }

  // ---- every step, every run ----

  lemma SparesItself(c: Core, me: Session)
    requires SessionOk(c, me)
    ensures Spares(c, c, me)
  {
  }

  lemma BeginKeepsSafe(s: Sys, sid: nat, req: Request)
    requires Safe(s) && sid !in s.sessions
    ensures Safe(Advance(s, sid, Opened(req)))
  {
    hide CoreOk, SaleOk, CancelOk, RouteOk, Spares;
    forall o | o in s.sessions ensures Spares(s.core, s.core, s.sessions[o]) {
      SparesItself(s.core, s.sessions[o]);
    }
    MoveKeepsSafe(s, Advance(s, sid, Opened(req)), sid, Opened(req));
  }

  lemma ExecKeepsSafe(s: Sys, sid: nat)
    requires Safe(s) && sid in s.sessions && !Waits(s, sid)
    ensures Safe(Run1(s, sid, s.sessions[sid]))
  {
    hide Safe, Waits;
    match s.sessions[sid].pc
    case BookStart | BookRouteRead => CheckKeepsSafe(s, sid);
    case BookSeatRead => InsertKeepsSafe(s, sid);
    case BookInserted => MarkKeepsSafe(s, sid);
    case BookMarked => ConfirmKeepsSafe(s, sid);
    case BookConfirmed | CancelMarked | RouteSeated => InvalidateKeepsSafe(s, sid);
    case BookInvalidated | CancelInvalidated => PublishKeepsSafe(s, sid);
    case BookPublished => BookCommitKeepsSafe(s, sid);
    case CancelStart => CancelCheckKeepsSafe(s, sid);
    case CancelChecked => CancelKeepsSafe(s, sid);
    case CancelUpdated => FreeKeepsSafe(s, sid);
    case CancelPublished => CancelCommitKeepsSafe(s, sid);
    case RouteStart => RouteInsertKeepsSafe(s, sid);
    case RouteInserted => SeatsInsertKeepsSafe(s, sid);
    case RouteInvalidated => RouteCommitKeepsSafe(s, sid);
    case ViewStart | ViewMissed | ViewQueried => ViewKeepsSafe(s, sid);
  }

  lemma NextKeepsSafe(s: Sys, a: Action)
    requires Safe(s)
    ensures Safe(Next(s, a))
  {
    hide CoreOk, AllOk, AllApart, Run1, Waits, Abort;
    match a
    case Begin(sid, req) => if sid !in s.sessions { BeginKeepsSafe(s, sid, req); }
    case Exec(sid) => if sid in s.sessions && !Waits(s, sid) { ExecKeepsSafe(s, sid); }
    case Fail(sid, tookEffect) => if sid in s.sessions { AbortKeepsSafe(s, sid, tookEffect); }
    case Tick(_) =>
    case Evict(_) =>
  }

  lemma {:induction false} RunKeepsSafe(s: Sys, acts: seq<Action>)
    requires Safe(s)
    ensures Safe(Run(s, acts))
    decreases |acts|
  {
    hide Safe, Next;
    if acts != [] {
      RunKeepsSafe(s, acts[..|acts| - 1]);
      NextKeepsSafe(Run(s, acts[..|acts| - 1]), acts[|acts| - 1]);
    }
  }

  /** The central result: in every state of every interleaving, each seat is booked exactly when a CONFIRMED
      booking exists for it, no seat has two booking rows, none is PENDING, seats are numbered 1..n, and the
      published messages agree with the rows. */
  lemma EveryRunIsSafe(s: Sys, acts: seq<Action>)
    requires Initial(s)
    ensures Safe(Run(s, acts))
  {
    hide Run, Next;
    RunKeepsSafe(s, acts);
  }

  // ---- waiting ----

  /** A session that has anything another could wait for never waits itself. */
  lemma HolderNeverWaits(s: Sys, o: nat)
    requires Safe(s) && o in s.sessions && s.sessions[o].flushed != EMPTY
    ensures !Waits(s, o)
  {
    hide CoreOk;
    var me := s.sessions[o];
    assert SessionOk(s.core, me);
    forall q | q in s.sessions && q != o ensures !Blocks(me, s.sessions[q]) {
      assert SessionOk(s.core, s.sessions[q]) && Apart(me, s.sessions[q]);
      if me.dirty != EMPTY { DirtySeatsApart(s.core, me, s.sessions[q]); }
    }
  }

  lemma DirtySeatsApart(c: Core, me: Session, other: Session)
    requires SessionOk(c, me) && SessionOk(c, other) && Apart(me, other) && (Selling(me) || Cancelling(me))
    requires CoreOk(c)
    ensures me.dirty.seats.Keys * other.flushed.seats.Keys == {}
  {
    hide CoreOk;
  }

  /** No run deadlocks: whoever waits, waits for a session that can go on at once. */
  lemma NoDeadlock(s: Sys, acts: seq<Action>, sid: nat)
    requires Initial(s) && sid in Run(s, acts).sessions && Waits(Run(s, acts), sid)
    ensures exists o :: o in Run(s, acts).sessions && o != sid
              && Blocks(Run(s, acts).sessions[sid], Run(s, acts).sessions[o]) && !Waits(Run(s, acts), o)
  {
    hide Initial, Run, Safe, Blocks;
    EveryRunIsSafe(s, acts);
    var t := Run(s, acts);
    var o :| o in t.sessions && o != sid && Blocks(t.sessions[sid], t.sessions[o]);
    BlockersHold(t.sessions[sid], t.sessions[o]);
    HolderNeverWaits(t, o);
  }

  lemma BlockersHold(me: Session, other: Session)
    requires Blocks(me, other)
    ensures other.flushed != EMPTY
  {
  }
}
