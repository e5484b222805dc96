/** Who asked for what, under any interleaving: every committed row goes back to a request of the right client. */
module Attribution {
  import opened Rows
  import opened Protocol
  import opened ProtocolSafety
  import opened ProtocolResults

  /** The request with which the session now open under `sid` began. */
  function Asked(s: Sys, acts: seq<Action>, sid: nat): Option<Request> {
    if acts == [] then None
    else
      var n := |acts| - 1;
      if acts[n].Begin? && acts[n].sid == sid && sid !in Run(s, acts[..n]).sessions then Some(acts[n].req)
      else Asked(s, acts[..n], sid)
  }

  /** The session is working on this request, for this client. */
  predicate Serves(me: Session, req: Request) {
    match req
    case Book(user, routeId, seatId) =>
      OnBooking(me.pc) && me.user == user && me.routeId == routeId && me.seatId == seatId
    case Cancel(bookingId, user) => OnCancelling(me.pc) && me.id == bookingId && me.user == user
    case AddRoute(route) => OnAdding(me.pc) && me.route == Some(route)
    case ViewSeats(routeId) => Viewing(me) && me.routeId == routeId
  }

  ghost predicate AllServe(s: Sys, acts: seq<Action>) {
    forall sid: nat {:trigger Asked(s, acts, sid)} | sid in Run(s, acts).sessions ::
      Asked(s, acts, sid).Some? && Serves(Run(s, acts).sessions[sid], Asked(s, acts, sid).value)
  }

  /** A statement moves its own session on in the same request, or ends it. */
  lemma Run1Serves(s: Sys, sid: nat, req: Request)
    requires sid in s.sessions && Serves(s.sessions[sid], req)
    ensures var ss := Run1(s, sid, s.sessions[sid]).sessions; sid in ss ==> Serves(ss[sid], req)
  {
    hide Run1;
    match req
    case Book(_, _, _) => BookingGoesOn(s, sid);
    case Cancel(_, _) => CancellingGoesOn(s, sid);
    case AddRoute(_) => AddingGoesOn(s, sid);
    case ViewSeats(_) => ViewingGoesOn(s, sid);
  }

  lemma BookingGoesOn(s: Sys, sid: nat)
    requires sid in s.sessions && OnBooking(s.sessions[sid].pc)
    ensures var ss, me := Run1(s, sid, s.sessions[sid]).sessions, s.sessions[sid];
            sid in ss ==> OnBooking(ss[sid].pc) && ss[sid].user == me.user && ss[sid].routeId == me.routeId
                          && ss[sid].seatId == me.seatId
  {
    hide Overlay, SeatTaken, DropMatching;
  }

  lemma CancellingGoesOn(s: Sys, sid: nat)
    requires sid in s.sessions && OnCancelling(s.sessions[sid].pc)
    ensures var ss, me := Run1(s, sid, s.sessions[sid]).sessions, s.sessions[sid];
            sid in ss ==> OnCancelling(ss[sid].pc) && ss[sid].id == me.id && ss[sid].user == me.user
  {
    hide Overlay, DropMatching;
  }

  lemma AddingGoesOn(s: Sys, sid: nat)
    requires sid in s.sessions && OnAdding(s.sessions[sid].pc)
    ensures var ss := Run1(s, sid, s.sessions[sid]).sessions;
            sid in ss ==> OnAdding(ss[sid].pc) && ss[sid].route == s.sessions[sid].route
  {
    hide Overlay, NewSeats, DropMatching;
  }

  lemma ViewingGoesOn(s: Sys, sid: nat)
    requires sid in s.sessions && Viewing(s.sessions[sid])
    ensures var ss := Run1(s, sid, s.sessions[sid]).sessions;
            sid in ss ==> Viewing(ss[sid]) && ss[sid].routeId == s.sessions[sid].routeId
  {
  }

  lemma OpenedServes(req: Request)
    ensures Serves(Opened(req), req)
  {
  }

  lemma StepServes(s: Sys, a: Action, sid: nat, req: Request)
    requires sid in Next(s, a).sessions
    requires if sid in s.sessions then Serves(s.sessions[sid], req) else a == Begin(sid, req)
    ensures Serves(Next(s, a).sessions[sid], req)
  {
    hide Run1, Waits, Serves;
    match a
    case Begin(i, r) => OpenedServes(r);
    case Exec(i) =>
      if i in s.sessions && !Waits(s, i) {
        if i == sid { Run1Serves(s, sid, req); } else { Run1Others(s, i, sid); }
      }
    case Fail(i, tookEffect) =>
    case Tick(_) =>
    case Evict(_) =>
  }

  lemma OnlyBeginOpens(s: Sys, a: Action, sid: nat)
    requires sid in Next(s, a).sessions && sid !in s.sessions
    ensures a.Begin? && a.sid == sid
  {
    hide Run1, Waits;
    if a.Exec? && a.sid in s.sessions && !Waits(s, a.sid) {
      if a.sid != sid { Run1Others(s, a.sid, sid); }
    }
  }

  /** In any state of any run, every open session works on the request it was opened with. */
  lemma {:induction false} SessionsServe(s: Sys, acts: seq<Action>)
    requires s.sessions == map[]
    ensures AllServe(s, acts)
    decreases |acts|
  {
    hide Next, Serves;
    if acts != [] {
      var n := |acts| - 1;
      var front := Run(s, acts[..n]);
      SessionsServe(s, acts[..n]);
      forall sid: nat {:trigger Asked(s, acts, sid)} | sid in Run(s, acts).sessions
        ensures Asked(s, acts, sid).Some? && Serves(Run(s, acts).sessions[sid], Asked(s, acts, sid).value)
      {
        if sid !in front.sessions { OnlyBeginOpens(front, acts[n], sid); }
        assert sid in front.sessions ==> Asked(s, acts[..n], sid).Some?;
        StepServes(front, acts[n], sid, Asked(s, acts, sid).value);
      }
    }
  }

  /** The request was made, by a `Begin` of the run. */
  lemma {:induction false} AskedBegan(s: Sys, acts: seq<Action>, sid: nat)
    requires Asked(s, acts, sid).Some?
    ensures exists n :: 0 <= n < |acts| && acts[n] == Begin(sid, Asked(s, acts, sid).value)
    decreases |acts|
  {
    hide Run;
    var n := |acts| - 1;
    if acts[n].Begin? && acts[n].sid == sid && sid !in Run(s, acts[..n]).sessions {
      assert acts[n] == Begin(sid, Asked(s, acts, sid).value);
    } else {
      AskedBegan(s, acts[..n], sid);
      var m :| 0 <= m < n && acts[..n][m] == Begin(sid, Asked(s, acts[..n], sid).value);
      assert acts[m] == Begin(sid, Asked(s, acts, sid).value);
    }
  }

  // ---- what a commit does ----

  /** The tables `db` become when a request is carried out. */
  ghost predicate CarriedOut(db: Db, db': Db, req: Request) {
    match req
    case Book(user, routeId, seatId) =>
      && routeId in db.routes && db.routes[routeId].active
      && seatId in db.seats && db.seats[seatId].routeId == routeId && !db.seats[seatId].booked
      && db'.routes == db.routes && db'.seats == db.seats[seatId := Seat(routeId, db.seats[seatId].number, true)]
      && exists id: nat :: id !in db.bookings
           && Added(db, db', id, Booking(user, routeId, seatId, Confirmed, db.routes[routeId].price))
    case Cancel(id, user) =>
      && id in db.bookings && db.bookings[id].userId == user
      && var k := db.bookings[id];
         && k.seatId in db.seats && db'.routes == db.routes
         && Added(db, db', id, Booking(user, k.routeId, k.seatId, Cancelled, k.totalPrice))
         && db'.seats == db.seats[k.seatId := Seat(k.routeId, db.seats[k.seatId].number, false)]
    case AddRoute(route) =>
      && db'.bookings == db.bookings
      && exists id: nat, first: nat :: id !in db.routes && db' == WithRoute(db, id, route, first)
    case ViewSeats(_) => false
  }

  predicate Added(db: Db, db': Db, id: nat, k: Booking) { db'.bookings == db.bookings[id := k] }

  lemma CommitCarriesOut(c: Core, me: Session, req: Request)
    requires CoreOk(c) && SessionOk(c, me) && AtCommit(me) && Serves(me, req)
    ensures CarriedOut(c.db, Overlay(Overlay(c.db, me.flushed), me.dirty), req)
  {
    hide Overlay, EventsMatch, NumbersComplete, NumbersDistinct, SeatTaken;
    if Selling(me) {
      SaleRows(c, me);
      assert Added(c.db, Sell(c.db, me.id, Sale(me, Confirmed)), me.id, Sale(me, Confirmed));
      FreeUntilSold(c, me);
    } else if Cancelling(me) {
      CancelRows(c, me);
    } else {
      RouteRows(c, me);
    }
  }

  lemma FreeUntilSold(c: Core, me: Session)
    requires CoreOk(c) && Selling(me) && SaleOk(c, me)
    ensures !c.db.seats[me.seatId].booked
  {
    hide EventsMatch, SeatsNumbered, BookingsLinked, NonePending;
    forall b ensures !Sold(c.db, b, me.seatId) {
      assert Sold(c.db, b, me.seatId) ==> SeatTaken(c.db, me.seatId);
    }
  }

  /** Over any run: the committed rows change only by carrying out, whole, a request that some client made and that is
      still open: a booking for the client who asked and the seat asked for, a cancellation for the row's owner, a
      route as it was posted. */
  lemma ChangesWereAsked(s: Sys, acts: seq<Action>, a: Action)
    requires Initial(s) && Next(Run(s, acts), a).core.db != Run(s, acts).core.db
    ensures a.Exec? && Asked(s, acts, a.sid).Some?
    ensures CarriedOut(Run(s, acts).core.db, Next(Run(s, acts), a).core.db, Asked(s, acts, a.sid).value)
    ensures exists n :: 0 <= n < |acts| && acts[n] == Begin(a.sid, Asked(s, acts, a.sid).value)
  {
    hide Initial, Run, Next, Safe, CoreOk, SessionOk, Serves, CarriedOut, Asked;
    var t := Run(s, acts);
    EveryRunIsSafe(s, acts);
    NoneOpen(s);
    SessionsServe(s, acts);
    OnlyCommitsShow(t, a);
    SafeParts(t, a.sid);
    assert Asked(s, acts, a.sid).Some? && Serves(t.sessions[a.sid], Asked(s, acts, a.sid).value);
    CommitCarriesOut(t.core, t.sessions[a.sid], Asked(s, acts, a.sid).value);
    AskedBegan(s, acts, a.sid);
  }

  lemma NoneOpen(s: Sys)
    requires Initial(s)
    ensures s.sessions == map[]
  {
  }

  // ---- every row has its request ----

  ghost predicate Requested(acts: seq<Action>, req: Request) { exists sid: nat :: Begin(sid, req) in acts }

  /** Every booking was asked for by its owner, and every cancellation too. */
  ghost predicate RowsRequested(db: Db, acts: seq<Action>) {
    forall b :: b in db.bookings ==>
      var k := db.bookings[b];
      && Requested(acts, Book(k.userId, k.routeId, k.seatId))
      && (k.status.Cancelled? ==> Requested(acts, Cancel(b, k.userId)))
  }

  lemma MoreRequested(acts: seq<Action>, a: Action, req: Request)
    requires Requested(acts, req)
    ensures Requested(acts + [a], req)
  {
    var sid: nat :| Begin(sid, req) in acts;
    assert Begin(sid, req) in acts + [a];
  }

  lemma CarryingOutIsRequested(db: Db, db': Db, req: Request, acts: seq<Action>, a: Action)
    requires RowsRequested(db, acts) && (db' == db || (CarriedOut(db, db', req) && Requested(acts, req)))
    ensures RowsRequested(db', acts + [a])
  {
    hide Requested;
    forall b | b in db'.bookings
      ensures var k := db'.bookings[b];
              && Requested(acts + [a], Book(k.userId, k.routeId, k.seatId))
              && (k.status.Cancelled? ==> Requested(acts + [a], Cancel(b, k.userId)))
    {
      var k := db'.bookings[b];
      if b in db.bookings {
        MoreRequested(acts, a, Book(k.userId, k.routeId, k.seatId));
        if k.status.Cancelled? { MoreRequested(acts, a, Cancel(b, k.userId)); }
      } else {
        MoreRequested(acts, a, req);
      }
    }
  }

  /** In any state of any run: no booking without its owner's request for that route and seat, and no cancellation
      without its owner's request for that booking. */
  lemma {:induction false} RowsWereRequested(s: Sys, acts: seq<Action>)
    requires Initial(s)
    ensures RowsRequested(Run(s, acts).core.db, acts)
    decreases |acts|
  {
    hide Next, CarriedOut, Asked;
    if acts == [] {
      hide Consistent;
    } else {
      hide Initial, RowsRequested;
      var n := |acts| - 1;
      var front, a := acts[..n], acts[n];
      assert acts == front + [a];
      RowsWereRequested(s, front);
      var t := Run(s, front);
      if Next(t, a).core.db == t.core.db {
        CarryingOutIsRequested(t.core.db, t.core.db, AddRoute(Route("", "", 0, 0, 0, false)), front, a);
      } else {
        ChangesWereAsked(s, front, a);
        var m :| 0 <= m < |front| && front[m] == Begin(a.sid, Asked(s, front, a.sid).value);
        assert Begin(a.sid, Asked(s, front, a.sid).value) in front;
        CarryingOutIsRequested(t.core.db, Next(t, a).core.db, Asked(s, front, a.sid).value, front, a);
      }
    }
  }
}
