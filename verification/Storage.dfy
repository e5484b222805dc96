/** The database as one request uses it: a session collects rows, flushes them into its transaction, and commits
    or rolls back. `fails` parameters say that the database reports an error at that statement. */
module Storage {
  import opened Rows

  /** The id sequences; no session can rewind one. */
  datatype Ids = Ids(booking: nat, route: nat, seat: nat)

  class Database {
    var db: Db
    var ids: Ids

    constructor ()
      ensures db == EMPTY && ids == Ids(1, 1, 1)
    {
      db, ids := EMPTY, Ids(1, 1, 1);
    }
  }

  /** What `add` and `add_all` were given since the last flush. */
  datatype Added = Nothing | NewBooking(booking: Booking) | NewRoute(route: Route) | NewSeatRows(seats: seq<Seat>)

  /** Rows under consecutive primary keys from `first`. */
  function Numbered(rows: seq<Seat>, first: nat): (m: map<nat, Seat>)
    ensures forall i :: i in m <==> first <= i < first + |rows|
    ensures forall i :: i in m ==> m[i] == rows[i - first]
  {
    if rows == [] then map[]
    else Numbered(rows[..|rows| - 1], first)[first + |rows| - 1 := rows[|rows| - 1]]
  }

  function FirstId(ids: Ids, added: Added): nat {
    match added
    case NewBooking(_) => ids.booking
    case NewRoute(_) => ids.route
    case _ => ids.seat
  }

  function Drawn(ids: Ids, added: Added): Ids {
    match added
    case Nothing => ids
    case NewBooking(_) => ids.(booking := ids.booking + 1)
    case NewRoute(_) => ids.(route := ids.route + 1)
    case NewSeatRows(rows) => ids.(seat := ids.seat + |rows|)
  }

  function WithAdded(db: Db, added: Added, id: nat): Db {
    match added
    case Nothing => db
    case NewBooking(k) => db.(bookings := Put(db.bookings, id, k))
    case NewRoute(r) => db.(routes := Put(db.routes, id, r))
    case NewSeatRows(rows) => db.(seats := db.seats + Numbered(rows, id))
  }

  lemma OverlayAssociates(a: Db, b: Db, c: Db)
    ensures Overlay(a, Overlay(b, c)) == Overlay(Overlay(a, b), c)
  {
    MergeAssociates(a.routes, b.routes, c.routes);
    MergeAssociates(a.seats, b.seats, c.seats);
    MergeAssociates(a.bookings, b.bookings, c.bookings);
  }

  lemma MergeAssociates<T>(a: map<nat, T>, b: map<nat, T>, c: map<nat, T>)
    ensures a + (b + c) == (a + b) + c
  {
  }

  function Put<T>(table: map<nat, T>, id: nat, row: T): map<nat, T> { table[id := row] }

  /** `flushed` rows are sent and visible to this session alone; `dirty` ones are changed objects not sent yet,
      since autoflush is off. */
  class AsyncSession {
    const database: Database
    var added: Added
    var dirty: Db
    var flushed: Db

    constructor (database: Database)
      ensures this.database == database && Clean()
    {
      this.database := database;
      added, dirty, flushed := Nothing, EMPTY, EMPTY;
    }

    predicate Clean()
      reads this
    {
      added.Nothing? && dirty == EMPTY && flushed == EMPTY
    }

    /** What a SELECT of this session finds: committed rows, overwritten by its own flushed ones. */
    function View(): Db
      reads this, database
    {
      Overlay(database.db, flushed)
    }

    method Add(row: Added)
      requires added.Nothing?
      modifies `added
      ensures added == row
    {
      added := row;
    }

    /** Attribute assignments to a loaded seat. */
    method Touch(seatId: nat, seat: Seat)
      modifies `dirty
      ensures dirty == old(dirty).(seats := Put(old(dirty).seats, seatId, seat))
    {
      dirty := dirty.(seats := Put(dirty.seats, seatId, seat));
    }

    method TouchBooking(id: nat, booking: Booking)
      modifies `dirty
      ensures dirty == old(dirty).(bookings := Put(old(dirty).bookings, id, booking))
    {
      dirty := dirty.(bookings := Put(dirty.bookings, id, booking));
    }

    /** INSERT what was added, UPDATE what is dirty. A new booking draws its id before the unique index on
        `seat_id` is checked, so a refused insert uses up the id. */
    method Flush(fails: bool) returns (ok: bool, id: nat)
      modifies this, database`ids
      ensures id == FirstId(old(database.ids), old(added))
      ensures database.ids == Drawn(old(database.ids), old(added))
      ensures ok <==> !fails && (old(added).NewBooking? ==> !SeatTaken(old(View()), old(added).booking.seatId))
      ensures ok ==> added.Nothing? && dirty == EMPTY
      ensures ok ==> flushed == Overlay(WithAdded(old(flushed), old(added), id), old(dirty))
    {
      id := FirstId(database.ids, added);
      database.ids := Drawn(database.ids, added);
      if fails || (added.NewBooking? && SeatTaken(View(), added.booking.seatId)) { return false, id; }
      flushed := Overlay(WithAdded(flushed, added, id), dirty);
      added, dirty := Nothing, EMPTY;
      ok := true;
    }

    /** Everything the session wrote becomes visible at once; a refused commit changes no row. */
    method Commit(fails: bool) returns (ok: bool)
      requires added.Nothing?
      modifies this, database
      ensures ok == !fails && database.ids == old(database.ids)
      ensures database.db == if ok then Overlay(old(View()), old(dirty)) else old(database.db)
      ensures ok ==> Clean()
    {
      OverlayAssociates(database.db, flushed, dirty);
      var id;
      ok, id := Flush(fails);
      if !ok { return; }
      database.db := View();
      flushed := EMPTY;
    }

    method Rollback()
      modifies this
      ensures Clean()
    {
      added, dirty, flushed := Nothing, EMPTY, EMPTY;
    }
  }
}
