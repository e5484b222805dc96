/** Consequences of the safety invariant: atomic visibility, frozen fields, announcements, money. */
module ProtocolResults {
  import opened Rows
  import opened Listing
  import opened Protocol
  import opened ProtocolSafety

  predicate AtCommit(me: Session) {
    me.pc.BookPublished? || me.pc.CancelPublished? || me.pc.RouteInvalidated?
  }

  /** Rows become visible only when a session that has run to its end commits, and then all its writes do.
      No guard, unique violation, failed statement, cache or broker error ever shows a row of its session. */
  lemma OnlyCommitsShow(s: Sys, a: Action)
    requires Next(s, a).core.db != s.core.db
    ensures a.Exec? && a.sid in s.sessions && AtCommit(s.sessions[a.sid])
    ensures var me := s.sessions[a.sid];
            && Next(s, a).core.db == Overlay(Overlay(s.core.db, me.flushed), me.dirty)
            && a.sid !in Next(s, a).sessions && Next(s, a).core.events == s.core.events
  {
    hide Waits, Run1;
    if a.Exec? && a.sid in s.sessions { Run1Rows(s, a.sid, s.sessions[a.sid]); }
  }

  lemma Run1Rows(s: Sys, sid: nat, me: Session)
    ensures if AtCommit(me) then Run1(s, sid, me) == Commit(s, sid, me) else Run1(s, sid, me).core.db == s.core.db
  {
    hide Overlay, DropMatching, Commit, NewSeats, SeatTaken;
  }

  /** In one step, existing rows change at most in `is_booked` and from CONFIRMED to CANCELLED. */
  lemma StepEvolves(s: Sys, a: Action)
    requires Safe(s)
    ensures Evolves(s.core.db, Next(s, a).core.db)
  {
    hide Safe, Waits, Run1, Consistent;
    if Next(s, a).core.db != s.core.db {
      OnlyCommitsShow(s, a);
      var me := s.sessions[a.sid];
      SafeParts(s, a.sid);
      CommitEvolves(s.core, me);
    }
  }

  lemma CommitEvolves(c: Core, me: Session)
    requires CoreOk(c) && SessionOk(c, me) && AtCommit(me)
    ensures Evolves(c.db, Overlay(Overlay(c.db, me.flushed), me.dirty))
  {
    hide Overlay, Consistent, EventsMatch, Evolves;
    if Selling(me) {
      SellKeepsConsistent(c.db, me.id, Sale(me, Confirmed));
      SaleRows(c, me);
    } else if Cancelling(me) {
      CancelKeepsConsistent(c.db, me.id);
      CancelRows(c, me);
    } else {
      AddRouteKeepsConsistent(c.db, me.routeId, me.route.value, me.id);
      RouteRows(c, me);
    }
  }

  /** Over any stretch of any run: no row disappears, and only those two fields ever move. */
  lemma {:induction false} RunsEvolve(s: Sys, acts: seq<Action>, more: seq<Action>)
    requires Initial(s)
    ensures Evolves(Run(s, acts).core.db, Run(s, acts + more).core.db)
    decreases |more|
  {
    hide Evolves, Initial, Next, Safe;
    if more == [] {
      assert acts + more == acts;
      EvolvesItself(Run(s, acts).core.db);
    } else {
      var front := more[..|more| - 1];
      assert (acts + more)[..|acts + more| - 1] == acts + front;
      RunsEvolve(s, acts, front);
      EveryRunIsSafe(s, acts + front);
      StepEvolves(Run(s, acts + front), more[|more| - 1]);
      EvolvesTransitive(Run(s, acts).core.db, Run(s, acts + front).core.db, Run(s, acts + more).core.db);
    }
  }

  lemma EvolvesItself(db: Db)
    ensures Evolves(db, db)
  {
  }

  /** A booking that becomes visible was announced strictly before its commit, once, and never cancelled before. */
  lemma AnnouncedBeforeCommit(s: Sys, a: Action, b: nat)
    requires Safe(s) && b !in s.core.db.bookings && b in Next(s, a).core.db.bookings
    ensures ConfirmedEvent(b) in s.core.events && CancelledEvent(b) !in s.core.events
    ensures Next(s, a).core.db.bookings[b].status.Confirmed?
  {
    hide Next, CoreOk, Safe;
    OnlyCommitsShow(s, a);
    SafeParts(s, a.sid);
    FreshRow(s.core, s.sessions[a.sid], b);
  }

  lemma FreshRow(c: Core, me: Session, b: nat)
    requires CoreOk(c) && SessionOk(c, me) && AtCommit(me) && b !in c.db.bookings
    requires b in Overlay(Overlay(c.db, me.flushed), me.dirty).bookings
    ensures ConfirmedEvent(b) in c.events && CancelledEvent(b) !in c.events
    ensures Overlay(Overlay(c.db, me.flushed), me.dirty).bookings[b].status.Confirmed?
  {
    hide Consistent, ConfirmedOnce, ConfirmedFirst;
  }

  /** A seat is sold at most once, ever: after its booking is cancelled it stays free and stays unsellable. */
  lemma NeverResold(s: Sys, acts: seq<Action>, more: seq<Action>, b: nat, other: nat)
    requires Initial(s) && b in Run(s, acts).core.db.bookings && other in Run(s, acts + more).core.db.bookings
    requires Run(s, acts + more).core.db.bookings[other].seatId == Run(s, acts).core.db.bookings[b].seatId
    ensures other == b
    ensures Run(s, acts).core.db.bookings[b].status.Cancelled? ==>
              var after := Run(s, acts + more).core.db;
              after.bookings[b].status.Cancelled? && after.bookings[b].seatId in after.seats
              && !after.seats[after.bookings[b].seatId].booked
  {
    hide Initial, Run;
    RunsEvolve(s, acts, more);
    EveryRunIsSafe(s, acts + more);
    var c, after := Run(s, acts).core.db, Run(s, acts + more).core;
    assert Follows(c.bookings[b], after.db.bookings[b]);
    BookedSeatExists(after, b);
  }

  // ---- money ----

  function ConfirmedOf(db: Db, routeId: nat): set<nat> {
    set b | b in db.bookings && db.bookings[b].routeId == routeId && db.bookings[b].status.Confirmed?
  }

  function BookedOf(db: Db, routeId: nat): set<nat> {
    set s | s in db.seats && db.seats[s].routeId == routeId && db.seats[s].booked
  }

  ghost function TotalPaid(db: Db, ids: set<nat>): int
    requires forall b :: b in ids ==> b in db.bookings
  {
    if ids == {} then 0 else
      var b :| b in ids;
      db.bookings[b].totalPrice + TotalPaid(db, ids - {b})
  }

  lemma {:induction false} EqualPrices(db: Db, ids: set<nat>, price: int)
    requires forall b :: b in ids ==> b in db.bookings && db.bookings[b].totalPrice == price
    ensures TotalPaid(db, ids) == price * |ids|
    decreases |ids|
  {
    if ids != {} {
      var b :| b in ids && TotalPaid(db, ids) == db.bookings[b].totalPrice + TotalPaid(db, ids - {b});
      EqualPrices(db, ids - {b}, price);
      assert price * |ids| == price + price * (|ids| - 1);
    }
  }

  function SeatsOf(db: Db, ids: set<nat>): set<nat>
    requires forall b :: b in ids ==> b in db.bookings
  {
    set b | b in ids :: db.bookings[b].seatId
  }

  lemma {:induction false} OneSeatEach(db: Db, ids: set<nat>)
    requires OneBookingPerSeat(db) && forall b :: b in ids ==> b in db.bookings
    ensures |SeatsOf(db, ids)| == |ids|
    decreases |ids|
  {
    if ids != {} {
      var b :| b in ids;
      var rest := ids - {b};
      OneSeatEach(db, rest);
      assert db.bookings[b].seatId !in SeatsOf(db, rest);
      assert SeatsOf(db, ids) == SeatsOf(db, rest) + {db.bookings[b].seatId};
    }
  }

  /** The seats sold on a route are exactly the seats of its CONFIRMED bookings. */
  lemma SoldSeats(db: Db, routeId: nat)
    requires Consistent(db)
    ensures SeatsOf(db, ConfirmedOf(db, routeId)) == BookedOf(db, routeId)
    ensures |ConfirmedOf(db, routeId)| == |BookedOf(db, routeId)|
  {
    var ids := ConfirmedOf(db, routeId);
    forall s | s in BookedOf(db, routeId) ensures s in SeatsOf(db, ids) {
      var b :| Sold(db, b, s);
      assert b in ids;
    }
    forall s | s in SeatsOf(db, ids) ensures s in BookedOf(db, routeId) {
      var b :| b in ids && db.bookings[b].seatId == s;
      assert Sold(db, b, s);
    }
    OneSeatEach(db, ids);
  }

  /** Money conservation, in every state of every interleaving. */
  lemma MoneyConserved(s: Sys, acts: seq<Action>, routeId: nat)
    requires Initial(s) && routeId in Run(s, acts).core.db.routes
    ensures var db := Run(s, acts).core.db;
            TotalPaid(db, ConfirmedOf(db, routeId)) == db.routes[routeId].price * |BookedOf(db, routeId)|
  {
    hide Initial, Run;
    EveryRunIsSafe(s, acts);
    ConsistentMoney(Run(s, acts).core.db, routeId);
  }

  lemma ConsistentMoney(db: Db, routeId: nat)
    requires Consistent(db) && routeId in db.routes
    ensures TotalPaid(db, ConfirmedOf(db, routeId)) == db.routes[routeId].price * |BookedOf(db, routeId)|
  {
    hide BookedIffSold, SeatsNumbered, NonePending, OneBookingPerSeat;
    EqualPrices(db, ConfirmedOf(db, routeId), db.routes[routeId].price);
    SoldSeats(db, routeId);
  }

  /** Seat listings after any interleaving: every committed route shows seats 1..total_seats in order. */
  lemma ListingsStayNumbered(s: Sys, acts: seq<Action>, routeId: nat)
    requires Initial(s) && routeId in Run(s, acts).core.db.routes
    ensures var db := Run(s, acts).core.db;
            var out := SeatList(db, routeId);
            && |out| == db.routes[routeId].totalSeats
            && forall i :: 0 <= i < |out| ==> out[i].number == i + 1 && SeatIs(db, out[i].id, routeId, i + 1)
  {
    hide Initial, Run;
    EveryRunIsSafe(s, acts);
    ListIsNumbered(Run(s, acts).core.db, routeId);
  }
}
