/** The sorted set behind one rate-limit key, and what it says about the log of all requests. Times are
    milliseconds; `at` is the server time at which the script runs, `ts` the timestamp the caller took before it. */
module SlidingWindow {

  datatype Call = Call(ts: nat, at: nat, rand: nat)

  /** A member's text is "timestamp:random" and its score is the timestamp. */
  datatype Member = Member(ts: nat, rand: nat)

  datatype ZSet = ZSet(members: set<Member>, expireAt: nat)

  const NO_KEY := ZSet({}, 0)

  function MemberOf(c: Call): Member { Member(c.ts, c.rand) }

  function Ms(seconds: nat): nat { seconds * 1000 }

  /** What a command sees of a key: a key past its expiry is gone. */
  function Live(z: ZSet, at: nat): set<Member> { if at <= z.expireAt then z.members else {} }

  /** ZREMRANGEBYSCORE -inf bound. */
  function Prune(ms: set<Member>, bound: int): set<Member> { set m | m in ms && m.ts > bound }

  /** The whole script: prune, add, (count,) expire. */
  function Script(z: ZSet, c: Call, window: nat): ZSet {
    ZSet(Prune(Live(z, c.at), c.ts - Ms(window)) + {MemberOf(c)}, c.at + Ms(window + 1))
  }

  /** The key after a log of calls. */
  function After(calls: seq<Call>, window: nat): ZSet {
    if calls == [] then NO_KEY else Script(After(calls[..|calls| - 1], window), calls[|calls| - 1], window)
  }

  /** The same with keys that never expire. */
  function Unexpired(calls: seq<Call>, window: nat): set<Member> {
    if calls == [] then {} else
      var c := calls[|calls| - 1];
      Prune(Unexpired(calls[..|calls| - 1], window), c.ts - Ms(window)) + {MemberOf(c)}
  }

  /** The decision for the last call of the log. */
  predicate Allowed(calls: seq<Call>, window: nat, limit: nat) { |After(calls, window).members| <= limit }

  predicate AllowedUnexpired(calls: seq<Call>, window: nat, limit: nat) { |Unexpired(calls, window)| <= limit }

  // ---- assumptions a log may meet ----

  /** Scripts run in the order of the log, and the server clock does not run back. */
  ghost predicate Forward(calls: seq<Call>) {
    forall i, j :: 0 <= i < j < |calls| ==> calls[i].at <= calls[j].at
  }

  /** Each script runs at least `lo` and at most `lo + delay` after the timestamp its caller took; a caller whose
      clock is ahead of the server's has a negative difference. */
  ghost predicate Band(calls: seq<Call>, lo: int, delay: nat) {
    Forward(calls) && forall i :: 0 <= i < |calls| ==> lo <= calls[i].at - calls[i].ts <= lo + delay
  }

  /** A timestamp lags any earlier-executed call's by at most `d`. */
  ghost predicate Lagging(calls: seq<Call>, d: nat) {
    forall i, j :: 0 <= i < j < |calls| ==> calls[i].ts <= calls[j].ts + d
  }

  /** No two calls share both their millisecond and their random number. */
  ghost predicate DistinctMembers(calls: seq<Call>) {
    forall i, j :: 0 <= i < j < |calls| ==> calls[i].ts != calls[j].ts || calls[i].rand != calls[j].rand
  }

  // ---- expiry ----

  lemma {:induction false} MembersAreCalls(calls: seq<Call>, window: nat, m: Member)
    requires m in Unexpired(calls, window)
    ensures exists i :: 0 <= i < |calls| && m == MemberOf(calls[i])
  {
    var front, c := calls[..|calls| - 1], calls[|calls| - 1];
    if m == MemberOf(c) {
      assert m == MemberOf(calls[|calls| - 1]);
    } else {
      MembersAreCalls(front, window, m);
      var i :| 0 <= i < |front| && m == MemberOf(front[i]);
      assert m == MemberOf(calls[i]);
    }
  }

  /** A key that has expired held only members the next call would prune anyway. */
  lemma {:induction false} ExpiryInvisible(calls: seq<Call>, window: nat, lo: int, delay: nat)
    requires Band(calls, lo, delay) && delay <= 1001
    ensures After(calls, window).members == Unexpired(calls, window)
  {
    if calls != [] {
      var front, c := calls[..|calls| - 1], calls[|calls| - 1];
      ExpiryInvisible(front, window, lo, delay);
      var z := After(front, window);
      if c.at > z.expireAt && front != [] {
        forall m | m in Unexpired(front, window) ensures m.ts <= c.ts - Ms(window) {
          MembersAreCalls(front, window, m);
          var i :| 0 <= i < |front| && m == MemberOf(front[i]);
          assert calls[i].at <= calls[|front| - 1].at;
        }
      }
    }
  }

  /** TTL = window + 1 s makes expiry invisible to callers whose clocks are spread over a given width, wherever that
      band lies, exactly when the width is at most 1001 ms. */
  lemma ExpiryInvisibleIff(window: nat, lo: int, delay: nat)
    requires window >= 1
    ensures (forall calls :: Band(calls, lo, delay) ==> After(calls, window).members == Unexpired(calls, window))
       <==> delay <= 1001
  {
    if delay <= 1001 {
      forall calls | Band(calls, lo, delay) ensures After(calls, window).members == Unexpired(calls, window) {
        ExpiryInvisible(calls, window, lo, delay);
      }
    } else {
      var calls := LostCalls(window, lo);
      assert Band(calls, lo, delay);
      LostMember(window, lo);
    }
  }

  /** Where a log begins whose first script runs `lo` after its timestamp. */
  function Start(lo: int): nat { if lo < 0 then -lo else 0 }

  /** The second call runs 1 ms after the key expired, with a timestamp 1002 ms older than the first one's was. */
  function LostCalls(window: nat, lo: int): seq<Call>
    requires window >= 1
  {
    var n := Start(lo);
    [Call(n, n + lo, 0), Call(n + Ms(window + 1) - 1001, n + lo + Ms(window + 1) + 1, 1)]
  }

  lemma LostMember(window: nat, lo: int)
    requires window >= 1
    ensures After(LostCalls(window, lo), window).members != Unexpired(LostCalls(window, lo), window)
  {
    var calls, n := LostCalls(window, lo), Start(lo);
    var first := calls[..1];
    assert first[..0] == [];
    assert Unexpired(first, window) == {Member(n, 0)};
    assert After(first, window).expireAt == n + lo + Ms(window + 1);
    assert Member(n, 0) in Unexpired(calls, window);
    assert After(calls, window).members == {MemberOf(calls[1])};
  }

  // ---- refinement of the full log ----

  /** The members of all requests, allowed or rejected, with a timestamp after `bound`. */
  function MembersAfter(calls: seq<Call>, bound: int): set<Member> {
    set c | c in calls && c.ts > bound :: MemberOf(c)
  }

  lemma MembersAfterSnoc(front: seq<Call>, c: Call, bound: int)
    ensures MembersAfter(front + [c], bound)
         == MembersAfter(front, bound) + if c.ts > bound then {MemberOf(c)} else {}
  {
    forall m | m in MembersAfter(front, bound) ensures m in MembersAfter(front + [c], bound) {
      var x :| x in front && x.ts > bound && m == MemberOf(x);
      assert x in front + [c];
    }
    assert c in front + [c];
  }

  lemma PruneTwice(calls: seq<Call>, b1: int, b2: int)
    requires b1 <= b2
    ensures Prune(MembersAfter(calls, b1), b2) == MembersAfter(calls, b2)
  {
  }

  function Recent(calls: seq<Call>, window: nat): set<Member>
    requires calls != []
  {
    MembersAfter(calls, calls[|calls| - 1].ts - Ms(window))
  }

  lemma LaggingFront(calls: seq<Call>, d: nat)
    requires calls != [] && Lagging(calls, d)
    ensures Lagging(calls[..|calls| - 1], d)
    ensures forall x :: x in calls[..|calls| - 1] ==> x.ts <= calls[|calls| - 1].ts + d
  {
  }

  lemma RecentSnoc(front: seq<Call>, c: Call, window: nat)
    requires window >= 1
    requires front != [] ==> front[|front| - 1].ts <= c.ts && Unexpired(front, window) == Recent(front, window)
    ensures Unexpired(front + [c], window) == Recent(front + [c], window)
  {
    hide MembersAfter, Prune;
    var bound := c.ts - Ms(window);
    assert (front + [c])[..|front|] == front;
    MembersAfterSnoc(front, c, bound);
    if front != [] {
      PruneTwice(front, front[|front| - 1].ts - Ms(window), bound);
    } else {
      NothingAfter(bound);
    }
  }

  /** With nondecreasing timestamps, nothing pruned earlier could be recent again. */
  lemma {:induction false} SetIsRecent(calls: seq<Call>, window: nat)
    requires calls != [] && Lagging(calls, 0) && window >= 1
    ensures Unexpired(calls, window) == Recent(calls, window)
  {
    hide Unexpired, Recent;
    var front, c := calls[..|calls| - 1], calls[|calls| - 1];
    assert calls == front + [c];
    LaggingFront(calls, 0);
    if front != [] { SetIsRecent(front, window); }
    RecentSnoc(front, c, window);
  }

  lemma NothingAfter(bound: int)
    ensures Prune({}, bound) == {} && MembersAfter([], bound) == {}
  {
  }

  /** How many requests of the log, allowed or rejected, have a timestamp after `bound`. */
  function CountAfter(calls: seq<Call>, bound: int): nat {
    if calls == [] then 0
    else CountAfter(calls[..|calls| - 1], bound) + if calls[|calls| - 1].ts > bound then 1 else 0
  }

  /** No two calls after `bound` share both. */
  ghost predicate DistinctAfter(calls: seq<Call>, bound: int) {
    forall i, j :: 0 <= i < j < |calls| && calls[i].ts > bound && calls[j].ts > bound
      ==> calls[i].ts != calls[j].ts || calls[i].rand != calls[j].rand
  }

  lemma DistinctAfterSnoc(front: seq<Call>, c: Call, bound: int)
    ensures DistinctAfter(front + [c], bound)
       <==> DistinctAfter(front, bound) && (c.ts > bound ==> MemberOf(c) !in MembersAfter(front, bound))
  {
    var calls := front + [c];
    if c.ts > bound && MemberOf(c) in MembersAfter(front, bound) {
      var x :| x in front && x.ts > bound && MemberOf(c) == MemberOf(x);
      var i :| 0 <= i < |front| && front[i] == x;
      assert calls[i] == x && calls[|front|] == c;
    }
    if DistinctAfter(calls, bound) {
      forall i, j | 0 <= i < j < |front| && front[i].ts > bound && front[j].ts > bound
        ensures MemberOf(front[i]) != MemberOf(front[j])
      {
        assert calls[i] == front[i] && calls[j] == front[j];
      }
    }
    if DistinctAfter(front, bound) && (c.ts > bound ==> MemberOf(c) !in MembersAfter(front, bound)) {
      forall i, j | 0 <= i < j < |calls| && calls[i].ts > bound && calls[j].ts > bound
        ensures MemberOf(calls[i]) != MemberOf(calls[j])
      {
        assert calls[i] in front;
      }
    }
  }

  /** The set never counts more than the requests, and counts them all exactly when no two of them make one member. */
  lemma {:induction false} CountIsCardinality(calls: seq<Call>, bound: int)
    ensures |MembersAfter(calls, bound)| <= CountAfter(calls, bound)
    ensures |MembersAfter(calls, bound)| == CountAfter(calls, bound) <==> DistinctAfter(calls, bound)
  {
    hide DistinctAfter, MembersAfter;
    if calls == [] {
      NothingAfter(bound);
      NothingCollides(bound);
    } else {
      var front, c := calls[..|calls| - 1], calls[|calls| - 1];
      assert calls == front + [c];
      CountIsCardinality(front, bound);
      DistinctAfterSnoc(front, c, bound);
      MembersAfterSnoc(front, c, bound);
    }
  }

  lemma NothingCollides(bound: int)
    ensures DistinctAfter([], bound)
  {
  }

  function Bound(calls: seq<Call>, window: nat): int
    requires calls != []
  {
    calls[|calls| - 1].ts - Ms(window)
  }

  /** The set holds exactly the requests in (now - window, now], rejected ones included, and a call that the full
      log would allow is allowed. The decision is the full log's under every limit exactly when no two of those
      requests make one member; under a given limit it is wrong exactly when they make at most `limit` members. */
  lemma DecidesAsFullLogIff(calls: seq<Call>, window: nat, lo: int, delay: nat)
    requires calls != [] && window >= 1
    requires Lagging(calls, 0) && Band(calls, lo, delay) && delay <= 1001
    ensures After(calls, window).members == Recent(calls, window)
    ensures forall limit: nat :: CountAfter(calls, Bound(calls, window)) <= limit ==> Allowed(calls, window, limit)
    ensures (forall limit: nat :: Allowed(calls, window, limit) <==> CountAfter(calls, Bound(calls, window)) <= limit)
       <==> DistinctAfter(calls, Bound(calls, window))
  {
    hide MembersAfter, After, Unexpired, CountAfter, DistinctAfter;
    ExpiryInvisible(calls, window, lo, delay);
    SetIsRecent(calls, window);
    CountIsCardinality(calls, Bound(calls, window));
    var size: nat := |Recent(calls, window)|;
    assert Allowed(calls, window, size);
  }

  /** With distinct members the pruned, expiring set therefore decides as the full log would. */
  lemma DecidesAsFullLog(calls: seq<Call>, window: nat, limit: nat, lo: int, delay: nat)
    requires calls != [] && window >= 1
    requires Lagging(calls, 0) && DistinctMembers(calls) && Band(calls, lo, delay) && delay <= 1001
    ensures Allowed(calls, window, limit) <==> CountAfter(calls, Bound(calls, window)) <= limit
  {
    hide MembersAfter, After, Unexpired, CountAfter;
    DecidesAsFullLogIff(calls, window, lo, delay);
  }

  /** Any number of calls in one millisecond with one random number count as one, and a limit of 1 lets them all
      through. */
  lemma {:induction false} CollisionUndercounts(c: Call, n: nat, window: nat)
    requires n >= 1 && window >= 1
    ensures After(seq(n, _ => c), window).members == {MemberOf(c)}
    ensures Allowed(seq(n, _ => c), window, 1) && CountAfter(seq(n, _ => c), c.ts - Ms(window)) == n
  {
    var calls := seq(n, _ => c);
    assert calls[..n - 1] == seq(n - 1, _ => c);
    if n == 1 {
      assert calls[..0] == [];
    } else {
      CollisionUndercounts(c, n - 1, window);
    }
  }
}
