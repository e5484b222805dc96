/** A whole request is the interleaved protocol run with one session alone: so serial runs inherit every
    invariant of `ProtocolSafety`. */
module SerialIsRun {
  import opened Rows
  import opened Protocol
  import opened ProtocolSafety
  import opened Requests

  function Execs(n: nat): seq<Action> { if n == 0 then [] else Execs(n - 1) + [Exec(0)] }

  /** How many statements a request gets through before the fault strikes. */
  function BookStop(fault: Fault): nat {
    match fault
    case AtInsert => 2
    case AtUpdate => 4
    case AtCache(_) => 5
    case AtPublish(_) => 6
    case AtCommit => 7
    case NoFault => 8
  }

  function CancelStop(fault: Fault): nat {
    match fault
    case AtUpdate => 1
    case AtCache(_) => 3
    case AtPublish(_) => 4
    case AtCommit => 5
    case _ => 6
  }

  function RouteStop(fault: Fault): nat {
    match fault
    case AtInsert => 1
    case AtUpdate => 2
    case AtCache(_) => 2
    case AtCommit => 3
    case _ => 4
  }

  /** The steps session 0 takes for a request; after a whole request the failure finds nothing to roll back. */
  function Steps(req: Request, stop: nat, fault: Fault): seq<Action> {
    [Begin(0, req)] + (Execs(stop) + [Fail(0, TookEffect(fault))])
  }

  /** `n` statements of session 0. */
  function After(s: Sys, n: nat): Sys { if n == 0 then s else Next(After(s, n - 1), Exec(0)) }

  lemma {:induction false} RunExecs(s: Sys, n: nat)
    ensures Run(s, Execs(n)) == After(s, n)
  {
    hide Next;
    if n > 0 {
      RunExecs(s, n - 1);
      assert Execs(n)[..|Execs(n)| - 1] == Execs(n - 1);
    }
  }

  lemma RunExecsFail(s: Sys, n: nat, tookEffect: bool)
    ensures Run(s, Execs(n) + [Fail(0, tookEffect)]) == Next(After(s, n), Fail(0, tookEffect))
  {
    hide Next;
    RunExecs(s, n);
    assert (Execs(n) + [Fail(0, tookEffect)])[..|Execs(n)|] == Execs(n);
  }

  lemma StepsRun(s: Sys, req: Request, stop: nat, fault: Fault)
    ensures Run(s, Steps(req, stop, fault))
         == Next(After(Next(s, Begin(0, req)), stop), Fail(0, TookEffect(fault)))
  {
    hide Next;
    OneThenRest(s, Begin(0, req), Execs(stop) + [Fail(0, TookEffect(fault))]);
    RunExecsFail(Next(s, Begin(0, req)), stop, TookEffect(fault));
  }

  lemma OneThenRest(s: Sys, a: Action, rest: seq<Action>)
    ensures Run(s, [a] + rest) == Run(Next(s, a), rest)
  {
    hide Next;
    RunAppend(s, [a], rest);
    assert [a][..0] == [];
  }

  lemma AfterStep(t: Sys, n: nat)
    ensures After(t, n + 1) == Next(After(t, n), Exec(0))
  {
    hide Next;
  }

  lemma BeginsAlone(s: Sys, req: Request)
    requires s.sessions == map[]
    ensures Next(s, Begin(0, req)).sessions == map[0 := Opened(req)] && Next(s, Begin(0, req)).core == s.core
  {
    hide Run1, Abort, Opened;
  }

  /** A session that is gone stays gone, and its failure changes nothing. */
  lemma EndedStays(t: Sys, n: nat, stop: nat, fault: Fault, c: Core)
    requires n <= stop && EndsAs(After(t, n), c)
    ensures EndsAs(Next(After(t, stop), Fail(0, TookEffect(fault))), c)
  {
    hide Next;
    ClosedStays(t, n, stop);
    NothingToRun(After(t, stop), Fail(0, TookEffect(fault)));
  }

  ghost predicate EndsAs(t: Sys, c: Core) { t.sessions == map[] && t.core == c }

  lemma NothingToRun(s: Sys, a: Action)
    requires s.sessions == map[] && (a == Exec(0) || a.Fail?)
    ensures Next(s, a) == s
  {
    hide Run1, Abort;
  }

  lemma {:induction false} ClosedStays(s: Sys, n: nat, m: nat)
    requires n <= m && After(s, n).sessions == map[]
    ensures After(s, m) == After(s, n)
    decreases m
  {
    hide Next;
    if n < m {
      ClosedStays(s, n, m - 1);
      NothingToRun(After(s, m - 1), Exec(0));
    }
  }

  /** A session alone waits for nobody. */
  lemma LoneRuns(s: Sys)
    requires s.sessions.Keys == {0}
    ensures Next(s, Exec(0)) == Run1(s, 0, s.sessions[0])
  {
    hide Run1;
    assert !Waits(s, 0);
  }

  // ---- booking ----

  function BookPc(n: nat): Pc {
    if n == 0 then BookStart else if n == 1 then BookRouteRead else if n == 2 then BookSeatRead
    else if n == 3 then BookInserted else if n == 4 then BookMarked else if n == 5 then BookConfirmed
    else if n == 6 then BookInvalidated else BookPublished
  }

  /** Session 0 after `n` statements of a booking that is getting through, alone, from core `c`. */
  ghost predicate BookAt(t: Sys, n: nat, c: Core, user: nat, routeId: nat, seatId: nat) {
    && t.sessions.Keys == {0}
    && var me := t.sessions[0];
       && me.pc == BookPc(n) && me.user == user && me.routeId == routeId && me.seatId == seatId
       && (n >= 1 && routeId in c.db.routes ==> me.price == c.db.routes[routeId].price)
       && (n >= 3 ==> me.id == c.nextBooking)
       && t.core == c.(nextBooking := if n >= 3 then c.nextBooking + 1 else c.nextBooking,
                       events := if n >= 7 then c.events + [ConfirmedEvent(c.nextBooking)] else c.events)
  }

  lemma BookStep(t: Sys, n: nat, c: Core, user: nat, routeId: nat, seatId: nat)
    requires Safe(t) && BookAt(t, n, c, user, routeId, seatId) && n < 7
    requires BookGuard(c.db, routeId, seatId) == OK && (n < 2 || !SeatTaken(c.db, seatId))
    ensures Safe(Next(t, Exec(0))) && BookAt(Next(t, Exec(0)), n + 1, c, user, routeId, seatId)
  {
    NextKeepsSafe(t, Exec(0));
    SafeParts(t, 0);
    LoneRuns(t);
    hide Safe, Next, SessionOk, Run1;
    if n < 3 {
      BookStepEarly(t, n, c, user, routeId, seatId);
    } else {
      BookStepLate(t, n, c, user, routeId, seatId);
    }
  }

  lemma BookStepEarly(t: Sys, n: nat, c: Core, user: nat, routeId: nat, seatId: nat)
    requires BookAt(t, n, c, user, routeId, seatId) && n < 3 && SessionOk(t.core, t.sessions[0])
    requires BookGuard(c.db, routeId, seatId) == OK && (n < 2 || !SeatTaken(c.db, seatId))
    ensures BookAt(Run1(t, 0, t.sessions[0]), n + 1, c, user, routeId, seatId)
  {
    hide Overlay, SaleOk, CancelOk, RouteOk, SeatTaken;
    OverlayNothing(t.core.db);
  }

  lemma BookStepLate(t: Sys, n: nat, c: Core, user: nat, routeId: nat, seatId: nat)
    requires BookAt(t, n, c, user, routeId, seatId) && 3 <= n < 7 && SessionOk(t.core, t.sessions[0])
    ensures BookAt(Run1(t, 0, t.sessions[0]), n + 1, c, user, routeId, seatId)
  {
    hide Overlay, CancelOk, RouteOk, SeatTaken, DropMatching;
    OverlayHas(t.core.db, t.sessions[0].flushed);
  }

  lemma OverlayHas(db: Db, w: Db)
    ensures forall b :: b in w.bookings ==> b in Overlay(db, w).bookings
  {
  }

  lemma OverlayNothing(db: Db)
    ensures Overlay(db, EMPTY) == db
  {
  }

  lemma {:induction false} BookReaches(t: Sys, n: nat, c: Core, user: nat, routeId: nat, seatId: nat)
    requires Safe(t) && BookAt(t, 0, c, user, routeId, seatId) && n <= 7
    requires BookGuard(c.db, routeId, seatId) == OK && (n <= 2 || !SeatTaken(c.db, seatId))
    ensures Safe(After(t, n)) && BookAt(After(t, n), n, c, user, routeId, seatId)
  {
    hide BookAt, Safe, Next;
    if n > 0 {
      BookReaches(t, n - 1, c, user, routeId, seatId);
      BookStep(After(t, n - 1), n - 1, c, user, routeId, seatId);
    }
  }

  /** A booking refused by a guard closes at that guard. */
  lemma BookRefused(t: Sys, c: Core, user: nat, routeId: nat, seatId: nat)
    requires Safe(t) && BookAt(t, 0, c, user, routeId, seatId) && BookGuard(c.db, routeId, seatId) != OK
    ensures EndsAs(After(t, 2), c)
  {
    hide Safe, CoreOk, Next, Run1, SessionOk;
    SafeParts(t, 0);
    LoneRuns(t);
    AfterStep(t, 0);
    AfterStep(t, 1);
    BookStartChecks(t, c, user, routeId, seatId);
    var u := After(t, 1);
    if u.sessions == map[] {
      NothingToRun(u, Exec(0));
    } else {
      NextKeepsSafe(t, Exec(0));
      SafeParts(u, 0);
      LoneRuns(u);
      BookSeatChecks(u, c, user, routeId, seatId);
    }
  }

  lemma BookStartChecks(t: Sys, c: Core, user: nat, routeId: nat, seatId: nat)
    requires BookAt(t, 0, c, user, routeId, seatId) && SessionOk(t.core, t.sessions[0])
    ensures var u := Run1(t, 0, t.sessions[0]);
            if routeId in c.db.routes && c.db.routes[routeId].active then BookAt(u, 1, c, user, routeId, seatId)
            else EndsAs(u, c)
  {
    hide Overlay, SaleOk, CancelOk, RouteOk, SeatTaken;
    OverlayNothing(c.db);
  }

  lemma BookSeatChecks(t: Sys, c: Core, user: nat, routeId: nat, seatId: nat)
    requires BookAt(t, 1, c, user, routeId, seatId) && SessionOk(t.core, t.sessions[0])
    requires BookGuard(c.db, routeId, seatId) != OK && routeId in c.db.routes && c.db.routes[routeId].active
    ensures EndsAs(Run1(t, 0, t.sessions[0]), c)
  {
    hide Overlay, SaleOk, CancelOk, RouteOk, SeatTaken;
    OverlayNothing(c.db);
  }

  /** A booking for a seat that already has a row dies at its insert, one id poorer. */
  lemma BookTaken(t: Sys, c: Core, user: nat, routeId: nat, seatId: nat)
    requires Safe(t) && BookAt(t, 0, c, user, routeId, seatId)
    requires BookGuard(c.db, routeId, seatId) == OK && SeatTaken(c.db, seatId)
    ensures EndsAs(After(t, 3), c.(nextBooking := c.nextBooking + 1))
  {
    BookReaches(t, 2, c, user, routeId, seatId);
    hide Safe, SeatTaken, Next, Overlay;
    LoneRuns(After(t, 2));
    AfterStep(t, 2);
  }

  lemma BookCommits(t: Sys, c: Core, user: nat, routeId: nat, seatId: nat)
    requires Safe(t) && BookAt(t, 0, c, user, routeId, seatId)
    requires BookGuard(c.db, routeId, seatId) == OK && !SeatTaken(c.db, seatId)
    ensures EndsAs(After(t, 8), CreateBooking(c, user, routeId, seatId, NoFault).0)
  {
    hide Safe, SeatTaken, Next, CoreOk, After, SessionOk, Run1, BookAt, BookGuard, EndsAs, CreateBooking;
    BookReaches(t, 7, c, user, routeId, seatId);
    var u := After(t, 7);
    LoneBooking(u, 7, c, user, routeId, seatId);
    SafeParts(u, 0);
    LoneRuns(u);
    AfterStep(t, 7);
    BookCommit(u, c, user, routeId, seatId);
  }

  lemma LoneBooking(u: Sys, n: nat, c: Core, user: nat, routeId: nat, seatId: nat)
    requires BookAt(u, n, c, user, routeId, seatId)
    ensures u.sessions.Keys == {0}
  {
  }

  lemma BookCommit(u: Sys, c: Core, user: nat, routeId: nat, seatId: nat)
    requires BookAt(u, 7, c, user, routeId, seatId) && SessionOk(u.core, u.sessions[0])
    requires BookGuard(c.db, routeId, seatId) == OK && !SeatTaken(c.db, seatId)
    ensures EndsAs(Run1(u, 0, u.sessions[0]), CreateBooking(c, user, routeId, seatId, NoFault).0)
  {
    hide Overlay, CancelOk, RouteOk, SeatTaken;
    SaleRows(u.core, u.sessions[0]);
  }

  /** An error after `n` statements leaves the rows of `c`. */
  lemma BookFails(t: Sys, n: nat, tookEffect: bool, c: Core, user: nat, routeId: nat, seatId: nat)
    requires BookAt(t, n, c, user, routeId, seatId) && 2 <= n <= 7
    ensures var id := c.nextBooking;
            EndsAs(Next(t, Fail(0, tookEffect)),
                   c.(nextBooking := id + 1,
                      events := if n == 7 || (n == 6 && tookEffect) then c.events + [ConfirmedEvent(id)] else c.events))
  {
  }

  lemma BookBegins(s: Sys, user: nat, routeId: nat, seatId: nat)
    requires Safe(s) && s.sessions == map[]
    ensures var t := Next(s, Begin(0, Book(user, routeId, seatId)));
            Safe(t) && BookAt(t, 0, s.core, user, routeId, seatId)
  {
    hide Safe, Next;
    BeginsAlone(s, Book(user, routeId, seatId));
    NextKeepsSafe(s, Begin(0, Book(user, routeId, seatId)));
  }

  /** `POST /bookings`, whole, is a run of the protocol. */
  lemma BookIsRun(s: Sys, user: nat, routeId: nat, seatId: nat, fault: Fault)
    requires Safe(s) && s.sessions == map[]
    ensures EndsAs(Run(s, Steps(Book(user, routeId, seatId), BookStop(fault), fault)),
                   CreateBooking(s.core, user, routeId, seatId, fault).0)
  {
    hide Next, Safe, BookAt, After, Run, SeatTaken, EndsAs;
    var t, c := Next(s, Begin(0, Book(user, routeId, seatId))), s.core;
    var n := BookStop(fault);
    BookBegins(s, user, routeId, seatId);
    StepsRun(s, Book(user, routeId, seatId), n, fault);
    if BookGuard(c.db, routeId, seatId) != OK {
      BookRefused(t, c, user, routeId, seatId);
      EndedStays(t, 2, n, fault, c);
    } else if SeatTaken(c.db, seatId) && !fault.AtInsert? {
      BookTaken(t, c, user, routeId, seatId);
      EndedStays(t, 3, n, fault, c.(nextBooking := c.nextBooking + 1));
    } else if fault.NoFault? {
      BookCommits(t, c, user, routeId, seatId);
      EndedStays(t, 8, n, fault, CreateBooking(c, user, routeId, seatId, fault).0);
    } else {
      BookReaches(t, n, c, user, routeId, seatId);
      BookFails(After(t, n), n, TookEffect(fault), c, user, routeId, seatId);
    }
  }

  // ---- cancelling ----

  function CancelPc(n: nat): Pc {
    if n == 0 then CancelStart else if n == 1 then CancelChecked else if n == 2 then CancelUpdated
    else if n == 3 then CancelMarked else if n == 4 then CancelInvalidated else CancelPublished
  }

  ghost predicate CancelAt(t: Sys, n: nat, c: Core, id: nat, user: nat) {
    && t.sessions.Keys == {0}
    && var me := t.sessions[0];
       && me.pc == CancelPc(n) && me.id == id && me.user == user
       && t.core == c.(events := if n >= 5 then c.events + [CancelledEvent(id)] else c.events)
  }

  lemma CancelStep(t: Sys, n: nat, c: Core, id: nat, user: nat)
    requires Safe(t) && CancelAt(t, n, c, id, user) && n < 5 && CancelGuard(c.db, id, user) == OK
    ensures Safe(Next(t, Exec(0))) && CancelAt(Next(t, Exec(0)), n + 1, c, id, user)
  {
    NextKeepsSafe(t, Exec(0));
    SafeParts(t, 0);
    LoneRuns(t);
    hide Safe, Next, SessionOk, Run1;
    CancelMoves(t, n, c, id, user);
  }

  lemma CancelMoves(t: Sys, n: nat, c: Core, id: nat, user: nat)
    requires CancelAt(t, n, c, id, user) && n < 5 && CancelGuard(c.db, id, user) == OK
    requires SessionOk(t.core, t.sessions[0])
    ensures CancelAt(Run1(t, 0, t.sessions[0]), n + 1, c, id, user)
  {
    hide Overlay, SaleOk, CancelOk, RouteOk, DropMatching, SeatTaken;
    OverlayNothing(t.core.db);
  }

  lemma {:induction false} CancelReaches(t: Sys, n: nat, c: Core, id: nat, user: nat)
    requires Safe(t) && CancelAt(t, 0, c, id, user) && n <= 5 && CancelGuard(c.db, id, user) == OK
    ensures Safe(After(t, n)) && CancelAt(After(t, n), n, c, id, user)
  {
    hide CancelAt, Safe, Next;
    if n > 0 {
      CancelReaches(t, n - 1, c, id, user);
      CancelStep(After(t, n - 1), n - 1, c, id, user);
    }
  }

  lemma CancelRefused(t: Sys, c: Core, id: nat, user: nat)
    requires Safe(t) && CancelAt(t, 0, c, id, user) && CancelGuard(c.db, id, user) != OK
    ensures EndsAs(After(t, 1), c)
  {
    SafeParts(t, 0);
    hide Safe, Overlay, SaleOk, CancelOk, RouteOk, CoreOk, Next;
    OverlayNothing(c.db);
    LoneRuns(t);
    AfterStep(t, 0);
  }

  lemma CancelCommits(t: Sys, c: Core, id: nat, user: nat)
    requires Safe(t) && CancelAt(t, 0, c, id, user) && CancelGuard(c.db, id, user) == OK
    ensures EndsAs(After(t, 6), CancelBooking(c, id, user, NoFault).0)
  {
    CancelReaches(t, 5, c, id, user);
    var u := After(t, 5);
    SafeParts(u, 0);
    hide Safe, Next, CoreOk, After, SessionOk, Run1, CancelGuard, CancelBooking, EndsAs;
    LoneRuns(u);
    AfterStep(t, 5);
    CancelCommit(u, c, id, user);
  }

  lemma CancelCommit(u: Sys, c: Core, id: nat, user: nat)
    requires CancelAt(u, 5, c, id, user) && SessionOk(u.core, u.sessions[0]) && CoreOk(u.core)
    requires CancelGuard(c.db, id, user) == OK
    ensures EndsAs(Run1(u, 0, u.sessions[0]), CancelBooking(c, id, user, NoFault).0)
  {
    hide Overlay, SaleOk, RouteOk, CoreOk;
    CancelRows(u.core, u.sessions[0]);
  }

  lemma CancelFails(t: Sys, n: nat, tookEffect: bool, c: Core, id: nat, user: nat)
    requires CancelAt(t, n, c, id, user) && n <= 5
    ensures EndsAs(Next(t, Fail(0, tookEffect)),
                   c.(events := if n == 5 || (n == 4 && tookEffect) then c.events + [CancelledEvent(id)] else c.events))
  {
  }

  lemma CancelBegins(s: Sys, id: nat, user: nat)
    requires Safe(s) && s.sessions == map[]
    ensures var t := Next(s, Begin(0, Cancel(id, user))); Safe(t) && CancelAt(t, 0, s.core, id, user)
  {
    hide Safe, Next;
    BeginsAlone(s, Cancel(id, user));
    NextKeepsSafe(s, Begin(0, Cancel(id, user)));
  }

  /** `DELETE /bookings/{id}`, whole, is a run of the protocol. */
  lemma CancelIsRun(s: Sys, id: nat, user: nat, fault: Fault)
    requires Safe(s) && s.sessions == map[]
    ensures EndsAs(Run(s, Steps(Cancel(id, user), CancelStop(fault), fault)), CancelBooking(s.core, id, user, fault).0)
  {
    hide Next, Safe, CancelAt, After, Run, EndsAs;
    var t, c := Next(s, Begin(0, Cancel(id, user))), s.core;
    var n := CancelStop(fault);
    CancelBegins(s, id, user);
    StepsRun(s, Cancel(id, user), n, fault);
    if CancelGuard(c.db, id, user) != OK {
      CancelRefused(t, c, id, user);
      EndedStays(t, 1, n, fault, c);
    } else if n == 6 {
      CancelCommits(t, c, id, user);
      EndedStays(t, 6, n, fault, CancelBooking(c, id, user, fault).0);
    } else {
      CancelReaches(t, n, c, id, user);
      CancelFails(After(t, n), n, TookEffect(fault), c, id, user);
    }
  }

  // ---- new routes ----

  ghost predicate RouteAt(t: Sys, n: nat, c: Core, r: Route) {
    && t.sessions.Keys == {0}
    && var me := t.sessions[0];
       && me.pc == (if n == 0 then RouteStart else if n == 1 then RouteInserted
                    else if n == 2 then RouteSeated else RouteInvalidated)
       && me.route == Some(r) && (n >= 1 ==> me.routeId == c.nextRoute) && (n >= 2 ==> me.id == c.nextSeat)
       && t.core == c.(nextRoute := if n >= 1 then c.nextRoute + 1 else c.nextRoute,
                       nextSeat := if n >= 2 then c.nextSeat + r.totalSeats else c.nextSeat)
  }

  lemma RouteStep(t: Sys, n: nat, c: Core, r: Route)
    requires Safe(t) && RouteAt(t, n, c, r) && n < 3
    ensures Safe(Next(t, Exec(0))) && RouteAt(Next(t, Exec(0)), n + 1, c, r)
  {
    NextKeepsSafe(t, Exec(0));
    SafeParts(t, 0);
    LoneRuns(t);
    hide Safe, Next, SessionOk, Run1;
    RouteMoves(t, n, c, r);
  }

  lemma RouteMoves(t: Sys, n: nat, c: Core, r: Route)
    requires RouteAt(t, n, c, r) && n < 3 && SessionOk(t.core, t.sessions[0])
    ensures RouteAt(Run1(t, 0, t.sessions[0]), n + 1, c, r)
  {
    hide SaleOk, CancelOk, DropMatching, NewSeats, SeatTaken;
  }

  lemma {:induction false} RouteReaches(t: Sys, n: nat, c: Core, r: Route)
    requires Safe(t) && RouteAt(t, 0, c, r) && n <= 3
    ensures Safe(After(t, n)) && RouteAt(After(t, n), n, c, r)
  {
    hide RouteAt, Safe, Next;
    if n > 0 {
      RouteReaches(t, n - 1, c, r);
      RouteStep(After(t, n - 1), n - 1, c, r);
    }
  }

  lemma RouteCommits(t: Sys, c: Core, r: Route)
    requires Safe(t) && RouteAt(t, 0, c, r)
    ensures EndsAs(After(t, 4), CreateRoute(c, r, NoFault).0)
  {
    RouteReaches(t, 3, c, r);
    var u := After(t, 3);
    SafeParts(u, 0);
    hide Safe, Next, CoreOk, After, SessionOk, Run1, CreateRoute, EndsAs;
    LoneRuns(u);
    AfterStep(t, 3);
    RouteCommit(u, c, r);
  }

  lemma RouteCommit(u: Sys, c: Core, r: Route)
    requires RouteAt(u, 3, c, r) && SessionOk(u.core, u.sessions[0])
    ensures EndsAs(Run1(u, 0, u.sessions[0]), CreateRoute(c, r, NoFault).0)
  {
    hide Overlay, SaleOk, CancelOk, NewSeats;
    RouteRows(u.core, u.sessions[0]);
  }

  lemma RouteFails(t: Sys, n: nat, tookEffect: bool, c: Core, r: Route)
    requires RouteAt(t, n, c, r) && n <= 3
    ensures EndsAs(Next(t, Fail(0, tookEffect)), t.core)
  {
  }

  lemma RouteBegins(s: Sys, r: Route)
    requires Safe(s) && s.sessions == map[]
    ensures var t := Next(s, Begin(0, AddRoute(r))); Safe(t) && RouteAt(t, 0, s.core, r)
  {
    hide Safe, Next;
    BeginsAlone(s, AddRoute(r));
    NextKeepsSafe(s, Begin(0, AddRoute(r)));
  }

  /** `POST /routes`, whole, is a run of the protocol. */
  lemma RouteIsRun(s: Sys, r: Route, fault: Fault)
    requires Safe(s) && s.sessions == map[]
    ensures EndsAs(Run(s, Steps(AddRoute(r), RouteStop(fault), fault)), CreateRoute(s.core, r, fault).0)
  {
    hide Next, Safe, After, Run, EndsAs;
    var t, c := Next(s, Begin(0, AddRoute(r))), s.core;
    var n := RouteStop(fault);
    RouteBegins(s, r);
    StepsRun(s, AddRoute(r), n, fault);
    if n == 4 {
      RouteCommits(t, c, r);
      EndedStays(t, 4, n, fault, CreateRoute(c, r, fault).0);
    } else {
      RouteReaches(t, n, c, r);
      RouteFails(After(t, n), n, TookEffect(fault), c, r);
    }
  }
}
