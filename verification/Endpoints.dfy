/** One request from end to end: open a session, run the handler, and commit, or roll back on any error. */
module Endpoints {
  import opened Rows
  import opened Listing
  import opened CacheKeys
  import opened Search
  import opened Protocol
  import opened Requests
  import opened Caching
  import opened Storage
  import opened Repositories
  import opened Service

  /** A refused commit takes back the rows of a finished request, and nothing else of it. */
  function Refused(done: (Core, Reply), db: Db, fault: Fault): (Core, Reply) {
    if done.1.Done? && fault.AtCommit? then (done.0.(db := db), Http(SERVER_ERROR)) else done
  }

  lemma BookRefused(c: Core, user: nat, routeId: nat, seatId: nat, fault: Fault)
    ensures var done := CreateBooking(c, user, routeId, seatId, BeforeCommit(fault));
            && CreateBooking(c, user, routeId, seatId, fault) == Refused(done, c.db, fault)
            && (done.1.Http? ==> done.0.db == c.db)
  {
    hide SeatTaken, Sell;
  }

  lemma CancelRefused(c: Core, id: nat, user: nat, fault: Fault)
    ensures var done := CancelBooking(c, id, user, BeforeCommit(fault));
            && CancelBooking(c, id, user, fault) == Refused(done, c.db, fault)
            && (done.1.Http? ==> done.0.db == c.db)
  {
    hide Requests.Cancelled;
  }

  class Api {
    const database: Database
    const broker: Broker
    const cache: CacheService
    const like: Like  // the database's ILIKE

    constructor (database: Database, broker: Broker, cache: CacheService, like: Like)
      ensures this.database == database && this.broker == broker && this.cache == cache && this.like == like
    {
      this.database, this.broker, this.cache, this.like := database, broker, cache, like;
    }

    ghost function TheCore(): Core
      reads database, broker
    {
      Core(database.db, database.ids.booking, database.ids.route, database.ids.seat, broker.events)
    }

    ghost function State(): App
      reads database, broker, cache, cache.server
    {
      cache.State(TheCore())
    }

    /** `get_db` after the handler: commit what it did, or roll back. */
    method Finish(session: AsyncSession, handled: Reply, fault: Fault) returns (reply: Reply)
      requires session.database == database && (handled.Done? ==> session.added.Nothing?)
      modifies session, database
      ensures database.ids == old(database.ids)
      ensures reply == if handled.Done? && fault.AtCommit? then Http(SERVER_ERROR) else handled
      ensures database.db == if reply.Done? then Overlay(old(session.View()), old(session.dirty)) else old(database.db)
    {
      reply := handled;
      if handled.Done? {
        var ok := session.Commit(fault.AtCommit?);
        if ok { return; }
        reply := Http(SERVER_ERROR);
      }
      session.Rollback();
    }

    /** `get_db` after a reader: a commit with nothing in it. */
    method Close(session: AsyncSession)
      requires session.database == database && session.Clean()
      modifies session, database
      ensures database.db == old(database.db) && database.ids == old(database.ids)
    {
      CleanView(database.db);
      var ok := session.Commit(false);
    }

    method PostBooking(user: nat, routeId: nat, seatId: nat, fault: Fault) returns (reply: Reply)
      requires cache.Valid() && (fault.AtCache? ==> cache.client != null)
      modifies database, broker, cache.server`entries
      ensures State() == Handle(old(State()), Call.PostBooking(user, routeId, seatId, fault), like)
      ensures reply == CreateBooking(old(TheCore()), user, routeId, seatId, fault).1
      ensures reply.Http? ==> database.db == old(database.db)
    {
      hide SeatPattern, Drop, Overlay, Requests.CreateBooking, BookInvalidates;
      BookRefused(TheCore(), user, routeId, seatId, fault);
      var session := new AsyncSession(database);
      var service := new BookingService(session, broker, cache);
      var handled := service.CreateBooking(user, routeId, seatId, fault);
      reply := Finish(session, handled, fault);
    }

    method DeleteBooking(id: nat, user: nat, fault: Fault) returns (reply: Reply)
      requires cache.Valid() && (fault.AtCache? ==> cache.client != null)
      modifies database, broker, cache.server`entries
      ensures State() == Handle(old(State()), Call.DeleteBooking(id, user, fault), like)
      ensures reply == CancelBooking(old(TheCore()), id, user, fault).1
      ensures reply.Http? ==> database.db == old(database.db)
    {
      hide SeatPattern, Drop, Overlay, Requests.CancelBooking;
      CancelRefused(TheCore(), id, user, fault);
      var session := new AsyncSession(database);
      var service := new BookingService(session, broker, cache);
      var handled := service.CancelBooking(id, user, fault);
      reply := Finish(session, handled, fault);
    }

    method PostRoute(route: Route, fault: Fault) returns (reply: Reply)
      requires cache.Valid() && (fault.AtCache? ==> cache.client != null)
      modifies database, cache.server`entries
      ensures State() == Handle(old(State()), Call.PostRoute(route, fault), like)
      ensures reply == CreateRoute(old(TheCore()), route, fault).1
      ensures reply.Http? ==> database.db == old(database.db)
    {
      hide Drop, Overlay, WithRoute, SeatedRoute;
      var session := new AsyncSession(database);
      var repo := new RouteRepository(session);
      var id := repo.Create(route, fault.AtInsert?, fault.AtUpdate?);
      var handled := if id.Some? then Done(id.value) else Http(SERVER_ERROR);
      if id.Some? {
        var ok := cache.DeletePattern(ROUTES_PATTERN, fault);
        if !ok { handled := Http(SERVER_ERROR); }
        SeatedRouteRows(database.db, id.value, route, old(database.ids).seat);
      }
      reply := Finish(session, handled, fault);
    }

    lemma SeatedRouteRows(db: Db, id: nat, r: Route, first: nat)
      ensures Overlay(Overlay(db, SeatedRoute(id, r, first)), EMPTY) == WithRoute(db, id, r, first)
    {
      hide NewSeats;
      var after := Overlay(Overlay(db, SeatedRoute(id, r, first)), EMPTY);
      assert after.routes == db.routes[id := r];
      assert after.seats == WithRoute(db, id, r, first).seats && after.bookings == db.bookings;
    }

    static method ToOut(seats: map<nat, Seat>, ids: seq<nat>) returns (data: seq<SeatOut>)
      requires forall i :: 0 <= i < |ids| ==> ids[i] in seats
      ensures data == Show(seats, ids)
    {
      data := [];
      for i := 0 to |ids|
        invariant data == Show(seats, ids[..i])
      {
        data := data + [SeatOut(ids[i], seats[ids[i]].number, seats[ids[i]].booked)];
        assert ids[..i + 1][..i] == ids[..i];
      }
      assert ids[..|ids|] == ids;
    }

    /** An empty cached list is false and read again; every other hit is returned as it is. */
    method GetSeats(routeId: nat) returns (seats: CacheValue)
      requires cache.Valid()
      modifies database, cache.server`entries
      ensures State() == Handle(old(State()), Call.GetSeats(routeId), like)
      ensures seats == ListSeats(old(State()), routeId).1
    {
      hide SeatKey, Show, Overlay;
      var session := new AsyncSession(database);
      CleanView(database.db);
      var cached := cache.Get(SeatKey(routeId));
      if cached.Some? && Truthy(cached.value) {
        Close(session);
        return cached.value;
      }

      var repo := new SeatRepository(session);
      var ids := repo.ListByRoute(routeId);
      var data := ToOut(session.View().seats, ids);
      seats := SeatsValue(data);
      cache.Set(SeatKey(routeId), seats, SEATS_TTL);
      Close(session);
    }

    method GetRoutes(query: Query) returns (page: CacheValue)
      requires cache.Valid()
      modifies database, cache.server`entries
      ensures State() == Handle(old(State()), Call.GetRoutes(query), like)
      ensures page == ListRoutes(old(State()), query, like).1
    {
      hide RouteKey, Search.ListActive, Overlay;
      var session := new AsyncSession(database);
      CleanView(database.db);
      var key := RouteKey(query.origin, query.destination, query.page, query.size);
      var cached := cache.Get(key);
      if cached.Some? && Truthy(cached.value) {
        Close(session);
        return cached.value;
      }

      var repo := new RouteRepository(session);
      page := PageValue(repo.ListActive(query, like));
      cache.Set(key, page, ROUTES_TTL);
      Close(session);
    }
  }
}
