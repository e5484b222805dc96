/** Runs that show what the code does not promise under interleaving. */
module Anomalies {
  import opened Rows
  import opened Listing
  import opened CacheKeys
  import opened Protocol
  import opened ProtocolSafety
  import opened Requests
  import opened SerialIsRun
  import opened Coherence

  // ---- such states exist ----

  /** One route with its seats, and nothing else. */
  function OneRoute(r: Route): Sys {
    var db := WithRoute(EMPTY, 1, r, 1);
    Sys(Core(db, 1, 2, 1 + r.totalSeats, []), map[], 0, map[], [Snapshot(0, db)], [])
  }

  /** It is a start of runs, and its first seat can be booked by anyone if the route is active and has seats. */
  lemma OneRouteStarts(r: Route)
    ensures Initial(OneRoute(r)) && Safe(OneRoute(r))
    ensures BookGuard(OneRoute(r).core.db, 1, 1) == OK <==> r.active && r.totalSeats >= 1
    ensures !SeatTaken(OneRoute(r).core.db, 1)
  {
    AddRouteKeepsConsistent(EMPTY, 1, r, 1);
    hide Consistent, NewSeats;
    EveryRunIsSafe(OneRoute(r), []);
  }

  // ---- a stale answer after everything has settled ----

  function Miss(s: Sys, r: nat): Sys {
    var data := SeatList(s.core.db, r);
    s.(cache := s.cache[SeatKey(r) := Entry(r, Reading(data, |s.history|, s.now), s.now, s.now + SEATS_TTL)],
       served := s.served + [Served(r, data, s.now, 0)])
  }

  lemma ViewNeverWaits(s: Sys, sid: nat)
    requires sid in s.sessions && Viewing(s.sessions[sid])
    ensures Next(s, Exec(sid)) == Run1(s, sid, s.sessions[sid])
  {
    hide Run1;
    assert !Waits(s, sid);
  }

  /** The session that has missed and queried. */
  function Queried(s: Sys, r: nat): Session {
    Opened(ViewSeats(r)).(pc := ViewQueried, seen := Reading(SeatList(s.core.db, r), |s.history|, s.now))
  }

  lemma MissAndQuery(s: Sys, sid: nat, r: nat)
    requires sid !in s.sessions && SeatKey(r) !in s.cache
    ensures Next(Next(Next(s, Begin(sid, ViewSeats(r))), Exec(sid)), Exec(sid)) == Advance(s, sid, Queried(s, r))
  {
    hide SeatList, SeatKey, Overlay, Next;
    Starts(s, sid, ViewSeats(r));
    var s1 := Next(s, Begin(sid, ViewSeats(r)));
    ViewNeverWaits(s1, sid);
    var s2 := Next(s1, Exec(sid));
    ViewNeverWaits(s2, sid);
  }

  lemma FillStep(s: Sys, sid: nat, r: nat)
    requires sid !in s.sessions
    ensures Next(Advance(s, sid, Queried(s, r)), Exec(sid)) == Miss(s, r)
  {
    hide SeatList, SeatKey, Overlay, Next;
    var s3 := Advance(s, sid, Queried(s, r));
    ViewNeverWaits(s3, sid);
    assert Close(s3, sid).sessions == s.sessions;
  }

  lemma ReadsThrough(s: Sys, sid: nat, r: nat)
    requires sid !in s.sessions && SeatKey(r) !in s.cache
    ensures Run(s, [Begin(sid, ViewSeats(r)), Exec(sid), Exec(sid), Exec(sid)]) == Miss(s, r)
  {
    hide Next, Run, Miss, Queried, Advance;
    MissAndQuery(s, sid, r);
    FillStep(s, sid, r);
    FourSteps(s, Begin(sid, ViewSeats(r)), Exec(sid), Exec(sid), Exec(sid));
  }

  lemma Starts(s: Sys, sid: nat, req: Request)
    requires sid !in s.sessions
    ensures Next(s, Begin(sid, req)) == Advance(s, sid, Opened(req))
  {
    hide Run1, Abort, Opened, Waits;
  }

  lemma FourSteps(s: Sys, a: Action, b: Action, c: Action, d: Action)
    ensures Run(s, [a, b, c, d]) == Next(Next(Next(Next(s, a), b), c), d)
  {
    TwoSteps(s, a, b);
    TwoSteps(Run(s, [a, b]), c, d);
    RunAppend(s, [a, b], [c, d]);
    assert [a, b] + [c, d] == [a, b, c, d];
    hide Next, Run;
  }

  lemma TwoSteps(s: Sys, a: Action, b: Action)
    ensures Run(s, [a, b]) == Next(Next(s, a), b)
  {
    hide Next;
    RunLast(s, [a, b]);
    RunLast(s, [a]);
    assert [a, b][..1] == [a] && [a][..0] == [];
  }

  lemma Hits(s: Sys, sid: nat, r: nat)
    requires sid !in s.sessions && SeatKey(r) in s.cache && s.now <= s.cache[SeatKey(r)].expires
    requires s.cache[SeatKey(r)].reading.data != []
    ensures var e, s' := s.cache[SeatKey(r)], Run(s, [Begin(sid, ViewSeats(r)), Exec(sid)]);
            && s'.core == s.core && s'.sessions == s.sessions && s'.now == s.now
            && |s'.served| == |s.served| + 1
            && s'.served[|s.served|].data == e.reading.data
            && s'.served[|s.served|].at == s.now && s'.served[|s.served|].routeId == r
  {
    hide SeatList, SeatKey, Overlay, Next, Run;
    Starts(s, sid, ViewSeats(r));
    ViewNeverWaits(Next(s, Begin(sid, ViewSeats(r))), sid);
    TwoSteps(s, Begin(sid, ViewSeats(r)), Exec(sid));
    assert Next(Next(s, Begin(sid, ViewSeats(r))), Exec(sid)).sessions == s.sessions;
  }

  // ---- the run ----

  /** The statement that clears the cached list of the route being booked. */
  lemma Clears(t: Sys, c: Core, user: nat, routeId: nat, seatId: nat)
    requires BookAt(t, 5, c, user, routeId, seatId)
    ensures SeatKey(routeId) !in Next(t, Exec(0)).cache
  {
    hide SeatPattern, SeatKey, Glob, Overlay, Next;
    LoneRuns(t);
    SeatPatternHits(routeId, routeId);
  }

  /** Publishing and committing leave the cache, the clock and the answers alone. */
  lemma CommitsQuietly(t: Sys, c: Core, user: nat, routeId: nat, seatId: nat)
    requires Safe(t) && BookAt(t, 6, c, user, routeId, seatId)
    requires BookGuard(c.db, routeId, seatId) == OK && !SeatTaken(c.db, seatId)
    ensures var e := Next(Next(t, Exec(0)), Exec(0));
            && EndsAs(e, CreateBooking(c, user, routeId, seatId, NoFault).0)
            && e.cache == t.cache && e.now == t.now && e.served == t.served
  {
    var u := Next(t, Exec(0));
    BookStep(t, 6, c, user, routeId, seatId);
    SafeParts(u, 0);
    LoneBooking(t, 6, c, user, routeId, seatId);
    PublishesNext(t, c, user, routeId, seatId);
    hide Safe, SeatTaken, Next, CoreOk, SessionOk, BookGuard, EndsAs, CreateBooking, Run1, BookAt;
    LoneRuns(t);
    LoneRuns(u);
    BookCommit(u, c, user, routeId, seatId);
    QuietStep(t);
    QuietStep(u);
  }

  lemma PublishesNext(t: Sys, c: Core, user: nat, routeId: nat, seatId: nat)
    requires BookAt(t, 6, c, user, routeId, seatId) && BookAt(Next(t, Exec(0)), 7, c, user, routeId, seatId)
    ensures t.sessions[0].pc.BookInvalidated?
    ensures Next(t, Exec(0)).sessions.Keys == {0} && Next(t, Exec(0)).sessions[0].pc.BookPublished?
  {
    hide Next;
  }

  lemma QuietStep(t: Sys)
    requires t.sessions.Keys == {0} && (t.sessions[0].pc.BookInvalidated? || t.sessions[0].pc.BookPublished?)
    ensures var e := Run1(t, 0, t.sessions[0]); e.cache == t.cache && e.now == t.now && e.served == t.served
  {
    hide Overlay;
  }

  /** Invalidate, refill, commit: from any idle state, booking any bookable seat, a reader in the gap between
      invalidation and commit leaves a list in the cache that the next client is served although every request
      has finished and the seat it shows as free is sold. */
  lemma StaleAfterCommit(s: Sys, user: nat, routeId: nat, seatId: nat) returns (acts: seq<Action>)
    requires Safe(s) && s.sessions == map[]
    requires BookGuard(s.core.db, routeId, seatId) == OK && !SeatTaken(s.core.db, seatId)
    ensures var e := Run(s, acts);
            && e.sessions == map[] && |e.served| > 0
            && e.served[|e.served| - 1].routeId == routeId && e.served[|e.served| - 1].at == e.now
            && e.served[|e.served| - 1].data != SeatList(e.core.db, routeId)
  {
    hide Safe, Next, Run, SeatList, SeatKey, BookAt, SeatTaken, After;
    var c := s.core;
    var t := After(Next(s, Begin(0, Book(user, routeId, seatId))), 6);
    BookBegins(s, user, routeId, seatId);
    BookReaches(Next(s, Begin(0, Book(user, routeId, seatId))), 5, c, user, routeId, seatId);
    BookReaches(Next(s, Begin(0, Book(user, routeId, seatId))), 6, c, user, routeId, seatId);
    Clears(After(Next(s, Begin(0, Book(user, routeId, seatId))), 5), c, user, routeId, seatId);
    AfterStep(Next(s, Begin(0, Book(user, routeId, seatId))), 5);
    RunExecs(Next(s, Begin(0, Book(user, routeId, seatId))), 6);
    OneThenRest(s, Begin(0, Book(user, routeId, seatId)), Execs(6));
    var a1 := [Begin(0, Book(user, routeId, seatId))] + Execs(6);
    assert Run(s, a1) == t;
    var a2 := GapReader(t, c, user, routeId, seatId);
    RunAppend(s, a1, a2);
    acts := a1 + a2;
  }

  lemma GapReader(t: Sys, c: Core, user: nat, routeId: nat, seatId: nat) returns (acts: seq<Action>)
    requires Safe(t) && BookAt(t, 6, c, user, routeId, seatId) && SeatKey(routeId) !in t.cache
    requires BookGuard(c.db, routeId, seatId) == OK && !SeatTaken(c.db, seatId)
    ensures var e := Run(t, acts);
            && e.sessions == map[] && |e.served| > 0
            && e.served[|e.served| - 1].routeId == routeId && e.served[|e.served| - 1].at == e.now
            && e.served[|e.served| - 1].data != SeatList(e.core.db, routeId)
  {
    hide Safe, Next, Run, SeatList, SeatKey, SeatTaken, After;
    var read := [Begin(1, ViewSeats(routeId)), Exec(1), Exec(1), Exec(1)];
    var again := [Begin(2, ViewSeats(routeId)), Exec(2)];
    var u := Miss(t, routeId);
    ReadsThrough(t, 1, routeId);
    RunKeepsSafe(t, read);
    assert BookAt(u, 6, c, user, routeId, seatId);
    CommitsQuietly(u, c, user, routeId, seatId);
    TwoSteps(u, Exec(0), Exec(0));
    var v := Run(u, [Exec(0), Exec(0)]);
    SaleChangesList(c.db, c.nextBooking, NewBooking(c.db, user, routeId, seatId));
    ListHasSeat(c.db, routeId, seatId);
    assert v.cache[SeatKey(routeId)].reading.data == SeatList(c.db, routeId);
    Hits(v, 2, routeId);
    RunAppend(t, read, [Exec(0), Exec(0)]);
    RunAppend(t, read + [Exec(0), Exec(0)], again);
    acts := read + [Exec(0), Exec(0)] + again;
  }

  lemma ListHasSeat(db: Db, routeId: nat, seatId: nat)
    requires seatId in db.seats && db.seats[seatId].routeId == routeId
    ensures SeatList(db, routeId) != []
  {
    assert seatId in SeatKeys(db, routeId);
  }

  // ---- one cancellation, announced twice ----

  function By(sid: nat, n: nat): seq<Action> { if n == 0 then [] else By(sid, n - 1) + [Exec(sid)] }

  /** `n` statements after its check, with the other sessions as they were in `s`. */
  ghost predicate CancelOn(t: Sys, n: nat, s: Sys, sid: nat)
    requires sid in s.sessions
  {
    && sid in t.sessions && t.sessions == s.sessions[sid := t.sessions[sid]]
    && var me := t.sessions[sid];
       && me.pc == CancelPc(n + 1) && me.id == s.sessions[sid].id
       && t.core == s.core.(events := if n >= 4 then s.core.events + [CancelledEvent(me.id)] else s.core.events)
  }

  ghost predicate NobodyElseWrites(s: Sys, sid: nat) {
    forall o :: o in s.sessions && o != sid ==> s.sessions[o].flushed == EMPTY
  }

  lemma RunsFree(t: Sys, sid: nat)
    requires sid in t.sessions && NobodyElseWrites(t, sid)
    ensures Next(t, Exec(sid)) == Run1(t, sid, t.sessions[sid])
  {
    hide Run1;
    forall o | o in t.sessions && o != sid ensures !Blocks(t.sessions[sid], t.sessions[o]) {
      assert t.sessions[o].flushed == EMPTY;
    }
    assert !Waits(t, sid);
  }

  lemma CancelOnMoves(t: Sys, n: nat, s: Sys, sid: nat)
    requires sid in s.sessions && CancelOn(t, n, s, sid) && n < 4 && SessionOk(t.core, t.sessions[sid])
    ensures CancelOn(Run1(t, sid, t.sessions[sid]), n + 1, s, sid)
  {
    hide Overlay, SaleOk, CancelOk, RouteOk, DropMatching, SeatTaken;
    OverlayNothing(t.core.db);
  }

  lemma {:induction false} CancelOnReaches(s: Sys, sid: nat, n: nat)
    requires Safe(s) && sid in s.sessions && s.sessions[sid].pc.CancelChecked? && NobodyElseWrites(s, sid) && n <= 4
    ensures Safe(Run(s, By(sid, n))) && CancelOn(Run(s, By(sid, n)), n, s, sid)
    ensures NobodyElseWrites(Run(s, By(sid, n)), sid)
  {
    hide Safe, Next, Run1, SessionOk;
    RunKeepsSafe(s, By(sid, n));
    if n > 0 {
      hide CancelOn, NobodyElseWrites, Run;
      var t := Run(s, By(sid, n - 1));
      CancelOnReaches(s, sid, n - 1);
      RunKeepsSafe(s, By(sid, n - 1));
      assert By(sid, n)[..|By(sid, n)| - 1] == By(sid, n - 1);
      RunLast(s, By(sid, n));
      CancelOnAlone(t, n - 1, s, sid);
      RunsFree(t, sid);
      SafeParts(t, sid);
      CancelOnMoves(t, n - 1, s, sid);
      CancelOnAlone(Run(s, By(sid, n)), n, s, sid);
    }
  }

  lemma CancelOnAlone(t: Sys, n: nat, s: Sys, sid: nat)
    requires sid in s.sessions && NobodyElseWrites(s, sid) && CancelOn(t, n, s, sid)
    ensures sid in t.sessions && NobodyElseWrites(t, sid)
  {
  }

  /** A checked session, let run to its end, cancels and announces, whatever the row has become meanwhile. */
  lemma CancelOnEnds(s: Sys, sid: nat)
    requires Safe(s) && sid in s.sessions && s.sessions[sid].pc.CancelChecked? && NobodyElseWrites(s, sid)
    ensures var e, id := Run(s, By(sid, 5)), s.sessions[sid].id;
            && id in s.core.db.bookings && s.core.db.bookings[id].seatId in s.core.db.seats
            && e.sessions == s.sessions - {sid}
            && e.core == s.core.(events := s.core.events + [CancelledEvent(id)], db := Unsell(s.core.db, id))
  {
    hide Safe, Next, Run1, SessionOk, CoreOk, CancelOn, Unsell;
    CancelOnReaches(s, sid, 4);
    var t := Run(s, By(sid, 4));
    assert By(sid, 5)[..|By(sid, 5)| - 1] == By(sid, 4);
    RunLast(s, By(sid, 5));
    CancelOnAlone(t, 4, s, sid);
    RunsFree(t, sid);
    SafeParts(t, sid);
    CancelOnCommits(t, s, sid);
  }

  lemma CancelOnCommits(t: Sys, s: Sys, sid: nat)
    requires sid in s.sessions && CancelOn(t, 4, s, sid) && SessionOk(t.core, t.sessions[sid]) && CoreOk(t.core)
    ensures var e, id := Run1(t, sid, t.sessions[sid]), s.sessions[sid].id;
            && id in s.core.db.bookings && s.core.db.bookings[id].seatId in s.core.db.seats
            && e.sessions == s.sessions - {sid}
            && e.core == s.core.(events := s.core.events + [CancelledEvent(id)], db := Unsell(s.core.db, id))
  {
    hide Overlay, SaleOk, RouteOk, CoreOk;
    CancelRows(t.core, t.sessions[sid]);
    assert (s.sessions[sid := t.sessions[sid]] - {sid}) == s.sessions - {sid};
  }

  lemma UnsellTwice(db: Db, id: nat)
    requires id in db.bookings && db.bookings[id].seatId in db.seats
    ensures Unsell(Unsell(db, id), id) == Unsell(db, id)
  {
  }

  lemma BothChecked(s: Sys, id: nat, user: nat)
    requires s.sessions == map[] && CancelGuard(s.core.db, id, user) == OK
    ensures var t := Run(s, [Begin(0, Cancel(id, user)), Begin(1, Cancel(id, user)), Exec(0), Exec(1)]);
            && t.core == s.core && t.sessions.Keys == {0, 1}
            && NobodyElseWrites(t, 0) && NobodyElseWrites(t, 1)
            && (forall i :: i in t.sessions ==> t.sessions[i].pc.CancelChecked? && t.sessions[i].id == id)
  {
    hide Next, Run, Overlay;
    var a, b := Begin(0, Cancel(id, user)), Begin(1, Cancel(id, user));
    FourSteps(s, a, b, Exec(0), Exec(1));
    Starts(s, 0, Cancel(id, user));
    Starts(Next(s, a), 1, Cancel(id, user));
    OverlayNothing(s.core.db);
    var s2 := Next(Next(s, a), b);
    RunsFree(s2, 0);
    RunsFree(Next(s2, Exec(0)), 1);
  }

  /** Two clients cancel one booking at the same moment: both requests succeed, the rows end as after one, and
      the cancellation is announced twice. In serial runs `MessagesMatchRowsIff` leaves no such repetition. */
  lemma CancelledTwice(s: Sys, id: nat, user: nat) returns (acts: seq<Action>)
    requires Safe(s) && s.sessions == map[] && CancelGuard(s.core.db, id, user) == OK
    ensures s.core.db.bookings[id].seatId in s.core.db.seats
    ensures var e := Run(s, acts);
            && e.sessions == map[] && e.core.db == Unsell(s.core.db, id)
            && e.core.events == s.core.events + [CancelledEvent(id), CancelledEvent(id)]
  {
    hide Safe, Next, Run, Unsell;
    var begin := [Begin(0, Cancel(id, user)), Begin(1, Cancel(id, user)), Exec(0), Exec(1)];
    var t := Run(s, begin);
    BothChecked(s, id, user);
    RunKeepsSafe(s, begin);
    CancelOnEnds(t, 0);
    var u := Run(t, By(0, 5));
    RunKeepsSafe(t, By(0, 5));
    assert u.sessions.Keys == {1};
    CancelOnEnds(u, 1);
    UnsellTwice(s.core.db, id);
    RunAppend(s, begin, By(0, 5));
    RunAppend(s, begin + By(0, 5), By(1, 5));
    acts := begin + By(0, 5) + By(1, 5);
  }

  /** So does one client who tries again after the commit of a cancellation was refused. */
  lemma CancelledAgain(c: Core, id: nat, user: nat)
    requires CancelGuard(c.db, id, user) == OK
    ensures var (again, reply) := CancelBooking(CancelBooking(c, id, user, AtCommit).0, id, user, NoFault);
            && reply == Done(id) && again.db == Requests.Cancelled(c.db, id)
            && again.events == c.events + [CancelledEvent(id), CancelledEvent(id)]
  {
  }
}
