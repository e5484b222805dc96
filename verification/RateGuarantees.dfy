/** What the limiter guarantees over time: how many requests an interval can hold, and what Retry-After means. */
module RateGuarantees {
  import opened Sets
  import opened SlidingWindow

  /** The calls with a timestamp in [x, y] that were allowed. */
  function AllowedWithin(calls: seq<Call>, window: nat, limit: nat, x: nat, y: nat): set<nat> {
    set i: nat | 0 <= i < |calls| && x <= calls[i].ts <= y && Allowed(calls[..i + 1], window, limit)
  }

  /** A member outlives every later call whose window reaches back to it, unless the key itself runs out. */
  lemma {:induction false} Survives(calls: seq<Call>, window: nat, i: nat)
    requires i < |calls| && Forward(calls) && calls[|calls| - 1].at <= calls[i].at + Ms(window + 1)
    requires forall k :: i < k < |calls| ==> calls[k].ts - Ms(window) < calls[i].ts
    ensures MemberOf(calls[i]) in After(calls, window).members
  {
    var n := |calls| - 1;
    if i < n {
      var front := calls[..n];
      assert front[i] == calls[i];
      assert forall k :: i < k < |front| ==> front[k] == calls[k];
      Survives(front, window, i);
      assert calls[n].ts - Ms(window) < calls[i].ts;
    }
  }

  lemma AfterSnoc(front: seq<Call>, c: Call, window: nat)
    ensures After(front + [c], window) == Script(After(front, window), c, window)
  {
    assert (front + [c])[..|front|] == front;
  }

  lemma {:induction false} MembersBounded(calls: seq<Call>, window: nat, top: nat, m: Member)
    requires m in After(calls, window).members && forall c :: c in calls ==> c.ts <= top
    ensures m.ts <= top
  {
    var front, c := calls[..|calls| - 1], calls[|calls| - 1];
    assert forall x :: x in front ==> x in calls;
    if m != MemberOf(c) { MembersBounded(front, window, top, m); }
  }

  function MembersOf(calls: seq<Call>, indices: set<nat>): set<Member>
    requires forall i :: i in indices ==> i < |calls|
  {
    set i | i in indices :: MemberOf(calls[i])
  }

  lemma {:induction false} MembersOfSize(calls: seq<Call>, indices: set<nat>)
    requires DistinctMembers(calls) && forall i :: i in indices ==> i < |calls|
    ensures |MembersOf(calls, indices)| == |indices|
    decreases |indices|
  {
    if indices != {} {
      var i :| i in indices;
      var rest := indices - {i};
      MembersOfSize(calls, rest);
      forall j | j in rest ensures MemberOf(calls[j]) != MemberOf(calls[i]) {
        if j < i { assert MemberOf(calls[j]) != MemberOf(calls[i]); }
      }
      assert MemberOf(calls[i]) !in MembersOf(calls, rest);
      assert MembersOf(calls, indices) == MembersOf(calls, rest) + {MemberOf(calls[i])};
    }
  }

  lemma {:induction false} Largest(s: set<nat>) returns (m: nat)
    requires s != {}
    ensures m in s && forall i :: i in s ==> i <= m
    decreases |s|
  {
    m :| m in s;
    if s - {m} == {} {
      assert s == {m};
    } else {
      var r := Largest(s - {m});
      assert forall i :: i in s ==> i == m || i in s - {m};
      if r > m { m := r; }
    }
  }

  // ---- the guarantee ----

  /** Calls with timestamps in [x, y] run close enough together for their key not to run out in between. */
  ghost predicate WithinTtl(calls: seq<Call>, window: nat, x: nat, y: nat) {
    forall i, j :: 0 <= i < j < |calls| && x <= calls[i].ts <= y && x <= calls[j].ts <= y
      ==> calls[j].at <= calls[i].at + Ms(window + 1)
  }

  /** The rate limit under clock skew: if timestamps lag by at most `d`, a time interval shorter than the window less
      `d` holds at most `limit` allowed requests, as long as the key does not expire between them. */
  lemma RateLimitHolds(calls: seq<Call>, window: nat, limit: nat, d: nat, x: nat, y: nat)
    requires Forward(calls) && Lagging(calls, d) && DistinctMembers(calls)
    requires y - x < Ms(window) - d && WithinTtl(calls, window, x, y)
    ensures |AllowedWithin(calls, window, limit, x, y)| <= limit
  {
    hide After;
    var these := AllowedWithin(calls, window, limit, x, y);
    if these != {} {
      var m := Largest(these);
      var upto := calls[..m + 1];
      forall i | i in these ensures MemberOf(calls[i]) in After(upto, window).members {
        NotYetPruned(calls, window, d, i, m);
      }
      SubsetSize(MembersOf(calls, these), After(upto, window).members);
      MembersOfSize(calls, these);
    }
  }

  lemma NotYetPruned(calls: seq<Call>, window: nat, d: nat, i: nat, m: nat)
    requires Forward(calls) && Lagging(calls, d) && i <= m < |calls|
    requires calls[m].ts - calls[i].ts < Ms(window) - d && calls[m].at <= calls[i].at + Ms(window + 1)
    ensures MemberOf(calls[i]) in After(calls[..m + 1], window).members
  {
    hide After;
    var upto := calls[..m + 1];
    assert upto[i] == calls[i];
    forall k | i < k < |upto| ensures upto[k].ts - Ms(window) < upto[i].ts {
      assert k < m ==> calls[k].ts <= calls[m].ts + d;
    }
    Survives(upto, window, i);
  }

  /** The last call of a stretch with the largest timestamp in it. */
  lemma {:induction false} LatestTop(calls: seq<Call>, i: nat, j: nat) returns (k: nat)
    requires i <= j < |calls|
    ensures i <= k <= j && forall m :: i <= m <= j ==> calls[m].ts <= calls[k].ts
    decreases j - i
  {
    k := j;
    if i < j {
      k := LatestTop(calls, i, j - 1);
      if calls[j].ts >= calls[k].ts { k := j; }
    }
  }

  /** Whatever the callers' clocks do, a limit of 1 never lets two requests into one window of an unexpired key: the
      call with the largest timestamp between two allowed ones is still in the set at the second, so it is the
      second, and then the first is still there too. */
  lemma LimitOneAlone(calls: seq<Call>, window: nat, i: nat, j: nat)
    requires Forward(calls) && DistinctMembers(calls) && i <= j < |calls| && window >= 1
    requires calls[j].ts - calls[i].ts < Ms(window) && calls[j].at <= calls[i].at + Ms(window + 1)
    requires Allowed(calls[..j + 1], window, 1)
    ensures i == j
  {
    hide After;
    var upto := calls[..j + 1];
    var k := LatestTop(calls, i, j);
    assert calls[k] == upto[k] && calls[j] == upto[j] && calls[i] == upto[i];
    assert forall m :: i <= m < |upto| ==> upto[m] == calls[m] && calls[m].ts <= calls[k].ts;
    Survives(upto, window, k);
    Survives(upto, window, j);
    OneMember(After(upto, window).members, MemberOf(calls[k]), MemberOf(calls[j]));
    assert k == j;
    Survives(upto, window, i);
    OneMember(After(upto, window).members, MemberOf(calls[i]), MemberOf(calls[j]));
  }

  lemma OneMember<T>(s: set<T>, a: T, b: T)
    requires |s| <= 1 && a in s && b in s
    ensures a == b
  {
    if a != b { SubsetSize({a, b}, s); }
  }

  lemma AtMostOne(s: set<nat>)
    requires forall i, j :: i in s && j in s ==> i == j
    ensures |s| <= 1
  {
    if s != {} {
      var i :| i in s;
      SubsetSize(s, {i});
    }
  }

  lemma LimitOneHolds(calls: seq<Call>, window: nat, x: nat, y: nat)
    requires Forward(calls) && DistinctMembers(calls) && WithinTtl(calls, window, x, y)
    requires x <= y && y - x < Ms(window)
    ensures |AllowedWithin(calls, window, 1, x, y)| <= 1
  {
    hide Allowed;
    var these := AllowedWithin(calls, window, 1, x, y);
    forall i, j | i in these && j in these ensures i == j {
      if i <= j { LimitOneAlone(calls, window, i, j); } else { LimitOneAlone(calls, window, j, i); }
    }
    AtMostOne(these);
  }

  lemma LimitZeroHolds(calls: seq<Call>, window: nat, x: nat, y: nat)
    ensures |AllowedWithin(calls, window, 0, x, y)| == 0
  {
    forall i: nat {:trigger calls[..i + 1]} | i < |calls| ensures !Allowed(calls[..i + 1], window, 0) {
      assert MemberOf(calls[i]) in After(calls[..i + 1], window).members;
    }
    assert AllowedWithin(calls, window, 0, x, y) == {};
  }

  // ---- exactly how far it reaches ----

  function Least(a: nat, b: nat): nat { if a <= b then a else b }

  /** The key must not run out within the interval, and the lag shortens the guarantee by exactly itself, except that
      a limit of 1 loses nothing to it and a limit of 0 lets nobody in. Clocks spread over `delay` lag by no more. */
  predicate Reaches(window: nat, limit: nat, d: nat, delay: nat, length: nat) {
    || limit == 0
    || (length + delay <= 1000 * window + 1000 && length + (if limit == 1 then 0 else Least(d, delay)) < 1000 * window)
  }

  predicate Keeps(calls: seq<Call>, window: nat, limit: nat, x: nat, length: nat) {
    |AllowedWithin(calls, window, limit, x, x + length)| <= limit
  }

  /** Over all logs whose clocks are spread over `delay` and lag by at most `d`, no time interval of this length
      holds more than `limit` allowed requests. */
  ghost predicate IntervalsHold(window: nat, limit: nat, lo: int, delay: nat, d: nat, length: nat) {
    forall calls: seq<Call>, x: nat ::
      Band(calls, lo, delay) && Lagging(calls, d) && DistinctMembers(calls) ==> Keeps(calls, window, limit, x, length)
  }

  lemma BandLags(calls: seq<Call>, lo: int, delay: nat)
    requires Band(calls, lo, delay)
    ensures Lagging(calls, delay)
  {
    forall i, j | 0 <= i < j < |calls| ensures calls[i].ts <= calls[j].ts + delay {
      assert calls[i].at <= calls[j].at;
    }
  }

  lemma BandWithinTtl(calls: seq<Call>, lo: int, delay: nat, window: nat, x: nat, length: nat)
    requires Band(calls, lo, delay) && length + delay <= Ms(window + 1)
    ensures WithinTtl(calls, window, x, x + length)
  {
  }

  lemma ReachHolds(calls: seq<Call>, window: nat, limit: nat, lo: int, delay: nat, d: nat, length: nat, x: nat)
    requires Reaches(window, limit, d, delay, length)
    requires Band(calls, lo, delay) && Lagging(calls, d) && DistinctMembers(calls)
    ensures Keeps(calls, window, limit, x, length)
  {
    hide AllowedWithin, Lagging, DistinctMembers, WithinTtl;
    if limit == 0 {
      LimitZeroHolds(calls, window, x, x + length);
    } else {
      BandWithinTtl(calls, lo, delay, window, x, length);
      BandLags(calls, lo, delay);
      if limit == 1 {
        LimitOneHolds(calls, window, x, x + length);
      } else {
        RateLimitHolds(calls, window, limit, Least(d, delay), x, x + length);
      }
    }
  }

  // ---- logs that break it ----

  lemma {:induction false} AtMostAll(calls: seq<Call>, window: nat)
    ensures |After(calls, window).members| <= |calls|
  {
    if calls != [] {
      var front, c := calls[..|calls| - 1], calls[|calls| - 1];
      AtMostAll(front, window);
      var kept := Prune(Live(After(front, window), c.at), c.ts - Ms(window));
      SubsetSize(kept, After(front, window).members);
    }
  }

  /** `n` calls in one millisecond. */
  function Burst(n: nat, ts: nat, at: nat): (calls: seq<Call>)
    ensures |calls| == n && forall i :: 0 <= i < n ==> calls[i] == Call(ts, at, i)
  {
    if n == 0 then [] else Burst(n - 1, ts, at) + [Call(ts, at, n - 1)]
  }

  /** A burst of `limit` calls, and one with a timestamp `gap` later whose script runs `wait` later. */
  function BurstAndOne(limit: nat, lo: int, gap: nat, wait: nat): (calls: seq<Call>)
    ensures |calls| == limit + 1 && calls[limit] == Call(Start(lo) + gap, Start(lo) + lo + wait, limit)
    ensures forall i :: 0 <= i < limit ==> calls[i] == Call(Start(lo), Start(lo) + lo, i)
  {
    var n := Start(lo);
    Burst(limit, n, n + lo) + [Call(n + gap, n + lo + wait, limit)]
  }

  lemma NumberedApart(calls: seq<Call>)
    requires forall i :: 0 <= i < |calls| ==> calls[i].rand == i
    ensures DistinctMembers(calls)
  {
  }

  lemma BandSnoc(calls: seq<Call>, c: Call, lo: int, delay: nat)
    requires Band(calls, lo, delay) && lo <= c.at - c.ts <= lo + delay && forall x :: x in calls ==> x.at <= c.at
    ensures Band(calls + [c], lo, delay)
  {
    var after := calls + [c];
    forall i, j | 0 <= i < j < |after| ensures after[i].at <= after[j].at {
      assert after[i] == calls[i] && calls[i] in calls;
    }
  }

  lemma LagSnoc(calls: seq<Call>, c: Call, d: nat)
    requires Lagging(calls, d) && forall x :: x in calls ==> x.ts <= c.ts + d
    ensures Lagging(calls + [c], d)
  {
    var after := calls + [c];
    forall i, j | 0 <= i < j < |after| ensures after[i].ts <= after[j].ts + d {
      assert after[i] == calls[i] && calls[i] in calls;
    }
  }

  /** A call for which every earlier member is pruned or expired stands alone. */
  lemma StandsAlone(front: seq<Call>, c: Call, window: nat, ts: nat, at: nat)
    requires forall x :: x in front ==> x.ts <= ts && x.at <= at
    requires c.ts >= ts + Ms(window) || c.at > at + Ms(window + 1)
    ensures After(front + [c], window).members == {MemberOf(c)}
  {
    AfterSnoc(front, c, window);
    if c.ts >= ts + Ms(window) {
      forall m | m in After(front, window).members ensures m.ts <= ts {
        MembersBounded(front, window, ts, m);
      }
    } else if front != [] {
      assert front[|front| - 1] in front;
    }
  }

  lemma BurstAllowed(limit: nat, lo: int, gap: nat, wait: nat, window: nat, i: nat)
    requires limit >= 1 && (gap >= Ms(window) || wait > Ms(window + 1)) && i <= limit
    ensures Allowed(BurstAndOne(limit, lo, gap, wait)[..i + 1], window, limit)
  {
    hide After, BurstAndOne;
    var calls, n := BurstAndOne(limit, lo, gap, wait), Start(lo);
    if i < limit {
      AtMostAll(calls[..i + 1], window);
    } else {
      assert calls[..i + 1] == calls[..limit] + [calls[limit]];
      StandsAlone(calls[..limit], calls[limit], window, n, n + lo);
    }
  }

  lemma BurstFits(limit: nat, lo: int, gap: nat, wait: nat, delay: nat)
    requires gap <= wait <= gap + delay
    ensures var calls := BurstAndOne(limit, lo, gap, wait);
            Band(calls, lo, delay) && Lagging(calls, 0) && DistinctMembers(calls)
  {
    hide BurstAndOne, DistinctMembers;
    NumberedApart(BurstAndOne(limit, lo, gap, wait));
  }

  function UpTo(n: nat): (s: set<nat>)
    ensures forall i: nat :: i in s <==> i < n
    ensures |s| == n
  {
    if n == 0 then {} else UpTo(n - 1) + {n - 1}
  }

  predicate LetIn(calls: seq<Call>, window: nat, limit: nat, x: nat, length: nat, i: nat) {
    i < |calls| && x <= calls[i].ts <= x + length && Allowed(calls[..i + 1], window, limit)
  }

  lemma TooMany(calls: seq<Call>, window: nat, limit: nat, x: nat, length: nat, these: set<nat>)
    requires |these| > limit && forall i :: i in these ==> LetIn(calls, window, limit, x, length, i)
    ensures !Keeps(calls, window, limit, x, length)
  {
    hide Allowed;
    SubsetSize(these, AllowedWithin(calls, window, limit, x, x + length));
  }

  /** One call too many when the last one is alone, because the key ran out or a whole window has passed. */
  lemma BurstBreaks(limit: nat, lo: int, gap: nat, wait: nat, window: nat, length: nat)
    requires limit >= 1 && (gap >= Ms(window) || wait > Ms(window + 1)) && gap <= length
    ensures !Keeps(BurstAndOne(limit, lo, gap, wait), window, limit, Start(lo), length)
  {
    hide Allowed, BurstAndOne;
    forall i | i in UpTo(limit + 1)
      ensures LetIn(BurstAndOne(limit, lo, gap, wait), window, limit, Start(lo), length, i)
    {
      BurstAllowed(limit, lo, gap, wait, window, i);
    }
    TooMany(BurstAndOne(limit, lo, gap, wait), window, limit, Start(lo), length, UpTo(limit + 1));
  }

  function Behind(w: nat, d: nat): nat { if d <= w then w - d else 0 }

  /** The burst, one call that clears it a window later, and one whose clock is `d` behind that. */
  function SkewLog(window: nat, limit: nat, lo: int, d: nat): (calls: seq<Call>)
    ensures |calls| == limit + 2 && calls[..limit + 1] == BurstAndOne(limit, lo, Ms(window), Ms(window))
    ensures calls[limit + 1] == Call(Start(lo) + Behind(Ms(window), d), Start(lo) + lo + Ms(window), limit + 1)
    ensures forall i :: 0 <= i < limit ==> calls[i].ts == Start(lo)
  {
    var n, w := Start(lo), Ms(window);
    BurstAndOne(limit, lo, w, w) + [Call(n + Behind(w, d), n + lo + w, limit + 1)]
  }

  lemma SkewFits(window: nat, limit: nat, lo: int, d: nat, delay: nat)
    requires d <= delay
    ensures var calls := SkewLog(window, limit, lo, d);
            Band(calls, lo, delay) && Lagging(calls, d) && DistinctMembers(calls)
  {
    hide BurstAndOne, SkewLog, DistinctMembers;
    var calls := SkewLog(window, limit, lo, d);
    var burst, late := BurstAndOne(limit, lo, Ms(window), Ms(window)), calls[limit + 1];
    assert calls == burst + [late];
    BurstFits(limit, lo, Ms(window), Ms(window), delay);
    assert forall x :: x in burst ==> exists i :: 0 <= i < |burst| && x == burst[i];
    assert Lagging(burst, d);
    hide Band, Lagging;
    BandSnoc(burst, late, lo, delay);
    LagSnoc(burst, late, d);
    NumberedApart(calls);
  }

  lemma SkewAllowed(window: nat, limit: nat, lo: int, d: nat, i: nat)
    requires limit >= 2 && (i < limit || i == limit + 1)
    ensures Allowed(SkewLog(window, limit, lo, d)[..i + 1], window, limit)
  {
    hide After, BurstAndOne, SkewLog;
    var calls := SkewLog(window, limit, lo, d);
    var burst, clear, late := calls[..limit], calls[limit], calls[limit + 1];
    var two := calls[..limit + 1];
    assert two == BurstAndOne(limit, lo, Ms(window), Ms(window));
    if i < limit {
      assert calls[..i + 1] == two[..i + 1];
      BurstAllowed(limit, lo, Ms(window), Ms(window), window, i);
    } else {
      assert calls[..i + 1] == two + [late] && two == burst + [clear];
      assert clear == two[limit] && forall k :: 0 <= k < limit ==> burst[k] == two[k];
      StandsAlone(burst, clear, window, Start(lo), Start(lo) + lo);
      AfterSnoc(two, late, window);
      var kept := Prune(Live(After(two, window), late.at), late.ts - Ms(window));
      assert kept <= {MemberOf(clear)};
      SubsetSize(kept + {MemberOf(late)}, {MemberOf(clear), MemberOf(late)});
    }
  }

  lemma SkewBreaks(window: nat, limit: nat, lo: int, d: nat, length: nat)
    requires limit >= 2 && length + d >= Ms(window)
    ensures !Keeps(SkewLog(window, limit, lo, d), window, limit, Start(lo), length)
  {
    hide Allowed, BurstAndOne, SkewLog;
    var calls := SkewLog(window, limit, lo, d);
    var these := UpTo(limit) + {limit + 1};
    forall i | i in these ensures LetIn(calls, window, limit, Start(lo), length, i) {
      SkewAllowed(window, limit, lo, d, i);
    }
    TooMany(calls, window, limit, Start(lo), length, these);
  }

  /** Beyond its reach some log breaks the guarantee. */
  lemma BeyondReach(window: nat, limit: nat, lo: int, delay: nat, d: nat, length: nat) returns (calls: seq<Call>)
    requires !Reaches(window, limit, d, delay, length)
    ensures Band(calls, lo, delay) && Lagging(calls, d) && DistinctMembers(calls)
    ensures !Keeps(calls, window, limit, Start(lo), length)
  {
    hide Keeps, Band, DistinctMembers, BurstAndOne, SkewLog;
    if length + delay > Ms(window + 1) {
      var wait := Ms(window + 1) + 1;
      calls := BurstAndOne(limit, lo, Behind(wait, delay), wait);
      BurstFits(limit, lo, Behind(wait, delay), wait, delay);
      BurstBreaks(limit, lo, Behind(wait, delay), wait, window, length);
    } else if limit == 1 {
      calls := BurstAndOne(limit, lo, Ms(window), Ms(window));
      BurstFits(limit, lo, Ms(window), Ms(window), delay);
      BurstBreaks(limit, lo, Ms(window), Ms(window), window, length);
    } else {
      calls := SkewLog(window, limit, lo, Least(d, delay));
      SkewFits(window, limit, lo, Least(d, delay), delay);
      SkewBreaks(window, limit, lo, Least(d, delay), length);
    }
  }

  /** For every window, limit, band of clocks, lag and length. */
  lemma IntervalsHoldIff(window: nat, limit: nat, lo: int, delay: nat, d: nat, length: nat)
    ensures IntervalsHold(window, limit, lo, delay, d, length) <==> Reaches(window, limit, d, delay, length)
  {
    hide Keeps, Band, Lagging, DistinctMembers, Reaches;
    if Reaches(window, limit, d, delay, length) {
      forall calls: seq<Call>, x: nat | Band(calls, lo, delay) && Lagging(calls, d) && DistinctMembers(calls)
        ensures Keeps(calls, window, limit, x, length)
      {
        ReachHolds(calls, window, limit, lo, delay, d, length, x);
      }
    } else {
      var calls := BeyondReach(window, limit, lo, delay, d, length);
      assert !Keeps(calls, window, limit, Start(lo), length);
    }
  }

  // ---- Retry-After ----

  /** A call at least a window, plus the lag, after the last one is allowed whatever came before. */
  lemma RetryAfterSuffices(calls: seq<Call>, window: nat, limit: nat, d: nat, c: Call)
    requires calls != [] && Lagging(calls, d) && limit >= 1
    requires c.ts >= calls[|calls| - 1].ts + Ms(window) + d
    ensures Allowed(calls + [c], window, limit)
  {
    var top := calls[|calls| - 1].ts + d;
    LaggingFront(calls, d);
    assert forall x :: x in calls ==> x in calls[..|calls| - 1] || x == calls[|calls| - 1];
    AfterSnoc(calls, c, window);
    forall m | m in After(calls, window).members ensures m.ts <= c.ts - Ms(window) {
      MembersBounded(calls, window, top, m);
    }
    assert After(calls + [c], window).members == {MemberOf(c)};
  }

  /** The code announces exactly one window. Under any limit, that is enough after a rejection for every log with
      lag `d` if and only if timestamps never run back. */
  ghost predicate RetryAfterIsEnough(window: nat, limit: nat, d: nat) {
    forall calls: seq<Call>, c: Call ::
      calls != [] && Lagging(calls, d) && c.ts >= calls[|calls| - 1].ts + Ms(window)
      && c.at == c.ts && (forall x :: x in calls ==> x.at <= c.at) && !Allowed(calls, window, limit)
      ==> Allowed(calls + [c], window, limit)
  }

  lemma RetryAfterIsEnoughIff(window: nat, limit: nat, d: nat)
    requires window >= 1 && limit >= 1
    ensures RetryAfterIsEnough(window, limit, d) <==> d == 0
  {
    hide Allowed, Lagging, AheadLog;
    if d == 0 {
      forall calls: seq<Call>, c: Call |
        calls != [] && Lagging(calls, d) && c.ts >= calls[|calls| - 1].ts + Ms(window)
        ensures Allowed(calls + [c], window, limit)
      {
        RetryAfterSuffices(calls, window, limit, 0, c);
      }
    } else {
      RetryTooSoon(window, limit, d);
      var calls, c := AheadLog(limit), Call(Ms(window), Ms(window), limit + 1);
      assert calls[|calls| - 1] == Call(0, 1, limit);
      assert !Allowed(calls, window, limit) && !Allowed(calls + [c], window, limit);
    }
  }

  function Ahead(n: nat): (calls: seq<Call>)
    ensures |calls| == n && forall i :: 0 <= i < n ==> calls[i] == Call(1, 1, i)
  {
    if n == 0 then [] else Ahead(n - 1) + [Call(1, 1, n - 1)]
  }

  /** `limit` callers whose clocks are 1 ms ahead, then one with a slower clock, who is rejected. */
  function AheadLog(limit: nat): (calls: seq<Call>)
    ensures |calls| == limit + 1 && calls[limit] == Call(0, 1, limit)
    ensures forall i :: 0 <= i < limit ==> calls[i] == Call(1, 1, i)
  {
    Ahead(limit) + [Call(0, 1, limit)]
  }

  /** No later call of the log prunes call `i`, and its key does not run out. */
  ghost predicate NeverPruned(calls: seq<Call>, window: nat, i: nat) {
    && i < |calls| && calls[|calls| - 1].at <= calls[i].at + Ms(window + 1)
    && forall k :: i < k < |calls| ==> calls[k].ts - Ms(window) < calls[i].ts
  }

  /** More than `limit` calls that nothing has pruned. */
  lemma CrowdRejects(calls: seq<Call>, window: nat, limit: nat, kept: set<nat>)
    requires DistinctMembers(calls) && Forward(calls) && |kept| > limit
    requires forall i :: i in kept ==> NeverPruned(calls, window, i)
    ensures !Allowed(calls, window, limit)
  {
    hide After;
    forall i | i in kept ensures MemberOf(calls[i]) in After(calls, window).members {
      Survives(calls, window, i);
    }
    MembersOfSize(calls, kept);
    SubsetSize(MembersOf(calls, kept), After(calls, window).members);
  }

  lemma AheadFits(window: nat, limit: nat, d: nat)
    requires window >= 1 && d >= 1
    ensures var calls, c := AheadLog(limit), Call(Ms(window), Ms(window), limit + 1);
            && Lagging(calls, d) && (forall x :: x in calls ==> x.at <= c.at)
            && DistinctMembers(calls) && Forward(calls) && DistinctMembers(calls + [c]) && Forward(calls + [c])
  {
    hide AheadLog, DistinctMembers;
    var calls, c := AheadLog(limit), Call(Ms(window), Ms(window), limit + 1);
    assert Lagging(calls, d) && Forward(calls);
    hide Lagging;
    NumberedApart(calls);
    NumberedApart(calls + [c]);
    assert forall i :: 0 <= i < |calls| ==> (calls + [c])[i] == calls[i] && calls[i].at <= c.at;
  }

  lemma AheadStays(window: nat, limit: nat, i: nat)
    requires window >= 1 && i <= limit + 1
    ensures var calls, c := AheadLog(limit), Call(Ms(window), Ms(window), limit + 1);
            && (i <= limit ==> NeverPruned(calls, window, i)) && (i != limit ==> NeverPruned(calls + [c], window, i))
  {
    hide AheadLog;
  }

  /** The callers ahead are still in the window when the rejected one comes back. */
  lemma RetryTooSoon(window: nat, limit: nat, d: nat)
    requires window >= 1 && d >= 1
    ensures var calls, c := AheadLog(limit), Call(Ms(window), Ms(window), limit + 1);
            && Lagging(calls, d) && (forall x :: x in calls ==> x.at <= c.at)
            && !Allowed(calls, window, limit) && !Allowed(calls + [c], window, limit)
  {
    hide Allowed, AheadLog, NeverPruned, DistinctMembers, Forward, Lagging;
    var calls, c := AheadLog(limit), Call(Ms(window), Ms(window), limit + 1);
    AheadFits(window, limit, d);
    forall i: nat | i <= limit + 1
      ensures i <= limit ==> NeverPruned(calls, window, i)
      ensures i != limit ==> NeverPruned(calls + [c], window, i)
    {
      AheadStays(window, limit, i);
    }
    CrowdRejects(calls, window, limit, UpTo(limit + 1));
    CrowdRejects(calls + [c], window, limit, UpTo(limit) + {limit + 1});
  }

  // ---- starvation ----

  lemma {:induction false} CountSorted(calls: seq<Call>, bound: int, limit: nat)
    requires Lagging(calls, 0)
    ensures CountAfter(calls, bound) > limit <==> |calls| > limit && calls[|calls| - 1 - limit].ts > bound
    decreases |calls|
  {
    if calls != [] {
      var front, c := calls[..|calls| - 1], calls[|calls| - 1];
      LaggingFront(calls, 0);
      if limit > 0 {
        CountSorted(front, bound, limit - 1);
        if c.ts <= bound { CountSorted(front, bound, limit); NoneAfter(front, bound); }
      } else if c.ts <= bound {
        NoneAfter(front, bound);
      }
    }
  }

  lemma {:induction false} NoneAfter(calls: seq<Call>, bound: int)
    requires forall x :: x in calls ==> x.ts <= bound
    ensures CountAfter(calls, bound) == 0
  {
    if calls != [] {
      assert forall x :: x in calls[..|calls| - 1] ==> x in calls;
      NoneAfter(calls[..|calls| - 1], bound);
    }
  }

  /** Exactly when a call is rejected: the call `limit` places before it, allowed or not, is still in its window.
      So a client that keeps that pace is refused for ever, its own rejected attempts holding the door shut. */
  lemma RejectedIff(calls: seq<Call>, window: nat, limit: nat, lo: int, delay: nat)
    requires calls != [] && window >= 1
    requires Lagging(calls, 0) && DistinctMembers(calls) && Band(calls, lo, delay) && delay <= 1001
    ensures !Allowed(calls, window, limit)
       <==> |calls| > limit && calls[|calls| - 1 - limit].ts > calls[|calls| - 1].ts - Ms(window)
  {
    DecidesAsFullLog(calls, window, limit, lo, delay);
    CountSorted(calls, calls[|calls| - 1].ts - Ms(window), limit);
  }

  predicate Refused(calls: seq<Call>, window: nat, limit: nat, i: nat)
    requires i < |calls|
  {
    !Allowed(calls[..i + 1], window, limit)
  }

  /** Call `i` comes less than a window after the one `limit` places before it. */
  predicate Hurried(calls: seq<Call>, window: nat, limit: nat, i: nat)
    requires limit <= i < |calls|
  {
    calls[i].ts - calls[i - limit].ts < Ms(window)
  }

  lemma BandPrefix(calls: seq<Call>, n: nat, lo: int, delay: nat)
    requires Band(calls, lo, delay) && n <= |calls|
    ensures Band(calls[..n], lo, delay)
  {
  }

  lemma RefusedIffHurried(calls: seq<Call>, window: nat, limit: nat, lo: int, delay: nat, i: nat)
    requires window >= 1 && limit <= i < |calls|
    requires Lagging(calls, 0) && DistinctMembers(calls) && Band(calls, lo, delay) && delay <= 1001
    ensures Refused(calls, window, limit, i) <==> Hurried(calls, window, limit, i)
  {
    hide Allowed;
    var upto := calls[..i + 1];
    assert upto[i] == calls[i] && upto[i - limit] == calls[i - limit];
    BandPrefix(calls, i + 1, lo, delay);
    RejectedIff(upto, window, limit, lo, delay);
  }

  /** All calls after the first `limit` are refused exactly when every one of them is hurried. */
  lemma StarvedForEver(calls: seq<Call>, window: nat, limit: nat, lo: int, delay: nat)
    requires window >= 1
    requires Lagging(calls, 0) && DistinctMembers(calls) && Band(calls, lo, delay) && delay <= 1001
    ensures (forall i: nat :: limit <= i < |calls| ==> Refused(calls, window, limit, i))
       <==> (forall i: nat :: limit <= i < |calls| ==> Hurried(calls, window, limit, i))
  {
    hide Refused, Hurried;
    forall i: nat | limit <= i < |calls|
      ensures Refused(calls, window, limit, i) <==> Hurried(calls, window, limit, i)
    {
      RefusedIffHurried(calls, window, limit, lo, delay, i);
    }
  }
}
