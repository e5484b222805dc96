/** `SeatRepository.list_by_route`: the seats of a route in seat order, as the API shows them. */
module Listing {
  import opened Rows
  import opened Ordering

  datatype SeatOut = SeatOut(id: nat, number: nat, booked: bool)

  function SeatKeys(db: Db, routeId: nat): map<nat, int> {
    map s | s in db.seats && db.seats[s].routeId == routeId :: db.seats[s].number
  }

  function SeatList(db: Db, routeId: nat): (out: seq<SeatOut>)
  {
    Show(db.seats, Sorted(SeatKeys(db, routeId)))
  }

  function Show(seats: map<nat, Seat>, ids: seq<nat>): (out: seq<SeatOut>)
    requires forall i :: 0 <= i < |ids| ==> ids[i] in seats
    ensures |out| == |ids|
    ensures forall i :: 0 <= i < |ids| ==> out[i] == SeatOut(ids[i], seats[ids[i]].number, seats[ids[i]].booked)
  {
    if ids == [] then []
    else Show(seats, ids[..|ids| - 1])
         + [SeatOut(ids[|ids| - 1], seats[ids[|ids| - 1]].number, seats[ids[|ids| - 1]].booked)]
  }

  /** The list depends on the seat rows of that route and on nothing else. */
  lemma ListFrame(db: Db, db': Db, routeId: nat)
    requires forall s :: s in db.seats && db.seats[s].routeId == routeId ==>
      s in db'.seats && db'.seats[s] == db.seats[s]
    requires forall s :: s in db'.seats && db'.seats[s].routeId == routeId ==>
      s in db.seats && db'.seats[s] == db.seats[s]
    ensures SeatList(db', routeId) == SeatList(db, routeId)
  {
    var keys, keys' := SeatKeys(db, routeId), SeatKeys(db', routeId);
    forall s | s in keys || s in keys' ensures s in keys && s in keys' && keys[s] == keys'[s] {
      assert s in db.seats && s in db'.seats && db.seats[s] == db'.seats[s];
    }
    assert keys == keys';
    var ids := Sorted(SeatKeys(db, routeId));
    assert Show(db.seats, ids) == Show(db'.seats, ids);
  }

  lemma NoSeatsNoList(db: Db, routeId: nat)
    requires forall s :: s in db.seats ==> db.seats[s].routeId != routeId
    ensures SeatList(db, routeId) == []
  {
    assert forall s :: s !in SeatKeys(db, routeId);
  }

  /** Every listing shows seats 1..totalSeats, in that order, with the flags now in the table. */
  lemma ListIsNumbered(db: Db, routeId: nat)
    requires SeatsNumbered(db) && routeId in db.routes
    ensures var out := SeatList(db, routeId);
            && |out| == db.routes[routeId].totalSeats
            && forall i :: 0 <= i < |out| ==>
                 out[i].number == i + 1 && SeatIs(db, out[i].id, routeId, i + 1)
                 && out[i].booked == db.seats[out[i].id].booked
  {
    var keys := SeatKeys(db, routeId);
    var ids := Sorted(keys);
    var nums := seq(|ids|, i requires 0 <= i < |ids| => keys[ids[i]]);
    var total := db.routes[routeId].totalSeats;
    forall i, j | 0 <= i < j < |nums| ensures nums[i] < nums[j] {
      assert Before(keys, ids[i], ids[j]);
      assert ids[i] != ids[j];
      assert !SameSpot(db.seats[ids[i]], db.seats[ids[j]]);
    }
    forall n | 1 <= n <= total ensures n in nums {
      assert HasSeat(db, routeId, n);
      var s :| SeatIs(db, s, routeId, n);
      assert s in keys && s in ids;
      var i :| 0 <= i < |ids| && ids[i] == s;
      assert nums[i] == n;
    }
    CountingUp(nums, total);
    var out := SeatList(db, routeId);
    forall i | 0 <= i < |out|
      ensures out[i].number == i + 1 && SeatIs(db, out[i].id, routeId, i + 1)
      ensures out[i].booked == db.seats[out[i].id].booked
    {
      assert nums[i] == keys[ids[i]] && ids[i] in keys;
    }
  }

  /** A strictly increasing sequence of exactly the numbers 1..n is 1, 2, ..., n. */
  lemma {:induction false} CountingUp(nums: seq<nat>, n: nat)
    requires forall i, j :: 0 <= i < j < |nums| ==> nums[i] < nums[j]
    requires forall i :: 0 <= i < |nums| ==> 1 <= nums[i] <= n
    requires forall v :: 1 <= v <= n ==> v in nums
    ensures |nums| == n && forall i :: 0 <= i < n ==> nums[i] == i + 1
  {
    assert n >= 1 ==> n in nums;
    if nums != [] {
      assert 1 <= nums[0] <= n;
      var last := |nums| - 1;
      var front := nums[..last];
      assert nums[last] == n;
      forall v | 1 <= v <= n - 1 ensures v in front {
        assert v in nums;
        var i :| 0 <= i < |nums| && nums[i] == v;
        assert front[i] == v;
      }
      forall i | 0 <= i < |front| ensures 1 <= front[i] <= n - 1 { assert nums[i] < nums[last]; }
      CountingUp(front, n - 1);
      assert forall i :: 0 <= i < |front| ==> nums[i] == front[i];
    }
  }
}
