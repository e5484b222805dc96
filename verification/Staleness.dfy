/** How old a served seat list may be when readers and writers interleave. */
module Staleness {
  import opened Listing
  import opened CacheKeys
  import opened Protocol

  /** The state left by the `snap`-th commit was the committed state at time `t`. */
  predicate InForce(h: seq<Snapshot>, snap: nat, t: nat) {
    1 <= snap <= |h| && h[snap - 1].since <= t && (snap < |h| ==> t <= h[snap].since)
  }

  /** `data` is what a query at time `t` returned. */
  predicate WasListed(h: seq<Snapshot>, routeId: nat, data: seq<SeatOut>, snap: nat, t: nat) {
    InForce(h, snap, t) && data == SeatList(h[snap - 1].db, routeId)
  }

  predicate ReadingOk(h: seq<Snapshot>, routeId: nat, r: Reading, now: nat) {
    WasListed(h, routeId, r.data, r.snap, r.at) && r.at <= now
  }

  predicate EntryOk(h: seq<Snapshot>, key: string, e: Entry, now: nat) {
    && key == SeatKey(e.routeId) && ReadingOk(h, e.routeId, e.reading, e.written)
    && e.written <= now && e.expires == e.written + SEATS_TTL
  }

  /** The promise to a client: what it got was the committed list at some time at most the TTL plus the
      filling reader's delay ago. */
  ghost predicate FreshEnough(h: seq<Snapshot>, v: Served) {
    exists snap: nat, t: nat, written: nat :: ServedFrom(h, v, snap, t, written)
  }

  /** Read at `t`, stored at `written`, which is `fillDelay` later, and served at most 15 s after that. */
  predicate ServedFrom(h: seq<Snapshot>, v: Served, snap: nat, t: nat, written: nat) {
    && WasListed(h, v.routeId, v.data, snap, t)
    && t <= written <= v.at <= written + 15000 && v.fillDelay == written - t
  }

  ghost predicate HistoryOk(s: Sys) {
    && |s.history| > 0 && s.history[|s.history| - 1].db == s.core.db
    && (forall i :: 0 <= i < |s.history| ==> s.history[i].since <= s.now)
  }

  ghost predicate CacheOk(s: Sys) {
    forall k :: k in s.cache ==> EntryOk(s.history, k, s.cache[k], s.now)
  }

  ghost predicate ReadersOk(s: Sys) {
    forall i :: i in s.sessions && s.sessions[i].pc.ViewQueried? ==>
      ReadingOk(s.history, s.sessions[i].routeId, s.sessions[i].seen, s.now)
  }

  ghost predicate ServedOk(s: Sys) {
    forall i :: 0 <= i < |s.served| ==> FreshEnough(s.history, s.served[i]) && s.served[i].at <= s.now
  }

  ghost predicate BoundedStaleness(s: Sys) {
    HistoryOk(s) && CacheOk(s) && ReadersOk(s) && ServedOk(s)
  }

  /** A commit takes nothing from the past. */
  lemma PastStays(h: seq<Snapshot>, n: Snapshot, routeId: nat, data: seq<SeatOut>, snap: nat, t: nat)
    requires WasListed(h, routeId, data, snap, t) && t <= n.since
    ensures WasListed(h + [n], routeId, data, snap, t)
  {
  }

  lemma CommitKeepsBound(s: Sys, s': Sys, n: Snapshot)
    requires BoundedStaleness(s) && n.since == s.now && s'.history == s.history + [n] && n.db == s'.core.db
    requires s'.now == s.now && s'.served == s.served && s'.cache == s.cache
    requires forall i :: i in s'.sessions ==> i in s.sessions && s'.sessions[i] == s.sessions[i]
    ensures BoundedStaleness(s')
  {
    hide WasListed;
    forall k | k in s'.cache ensures EntryOk(s'.history, k, s'.cache[k], s'.now) {
      var e := s.cache[k];
      assert EntryOk(s.history, k, e, s.now);
      PastStays(s.history, n, e.routeId, e.reading.data, e.reading.snap, e.reading.at);
    }
    forall i | i in s'.sessions && s'.sessions[i].pc.ViewQueried?
      ensures ReadingOk(s'.history, s'.sessions[i].routeId, s'.sessions[i].seen, s'.now)
    {
      var me := s.sessions[i];
      PastStays(s.history, n, me.routeId, me.seen.data, me.seen.snap, me.seen.at);
    }
    forall i | 0 <= i < |s'.served| ensures FreshEnough(s'.history, s'.served[i]) {
      assert FreshEnough(s.history, s.served[i]);
      ServedStays(s, n, s.served[i]);
    }
  }

  lemma ServedStays(s: Sys, n: Snapshot, v: Served)
    requires n.since == s.now && FreshEnough(s.history, v) && v.at <= s.now
    ensures FreshEnough(s.history + [n], v)
  {
    var snap: nat, t: nat, written: nat :| ServedFrom(s.history, v, snap, t, written);
    PastStays(s.history, n, v.routeId, v.data, snap, t);
    assert ServedFrom(s.history + [n], v, snap, t, written);
  }

  /** Steps that commit nothing and answer nobody. */
  lemma QuietKeepsBound(s: Sys, s': Sys)
    requires BoundedStaleness(s) && s'.history == s.history && s'.core.db == s.core.db && s.now <= s'.now
    requires s'.served == s.served
    requires forall k :: k in s'.cache ==> k in s.cache && s'.cache[k] == s.cache[k]
    requires forall i :: i in s'.sessions && s'.sessions[i].pc.ViewQueried? ==>
               ReadingOk(s.history, s'.sessions[i].routeId, s'.sessions[i].seen, s'.now)
    ensures BoundedStaleness(s')
  {
    hide FreshEnough, WasListed;
    forall k | k in s'.cache ensures EntryOk(s'.history, k, s'.cache[k], s'.now) {
      assert EntryOk(s.history, k, s.cache[k], s.now);
    }
    forall i | 0 <= i < |s'.served| ensures FreshEnough(s'.history, s'.served[i]) {
      assert FreshEnough(s.history, s.served[i]);
    }
  }

  lemma HitKeepsBound(s: Sys, sid: nat)
    requires BoundedStaleness(s) && sid in s.sessions && s.sessions[sid].pc.ViewStart?
    ensures BoundedStaleness(Run1(s, sid, s.sessions[sid]))
  {
    hide WasListed;
    var me, s' := s.sessions[sid], Run1(s, sid, s.sessions[sid]);
    var key := SeatKey(me.routeId);
    if |s'.served| == |s.served| {
      QuietKeepsBound(s, s');
    } else {
      var quiet := s'.(served := s.served);
      QuietKeepsBound(s, quiet);
      var e, v := s.cache[key], s'.served[|s.served|];
      assert EntryOk(s.history, key, e, s.now);
      SeatKeyInjective(e.routeId, me.routeId);
      assert ServedFrom(s.history, v, e.reading.snap, e.reading.at, e.written);
      assert FreshEnough(s.history, v);
    }
  }

  lemma QueryKeepsBound(s: Sys, sid: nat)
    requires BoundedStaleness(s) && sid in s.sessions && s.sessions[sid].pc.ViewMissed?
    ensures BoundedStaleness(Run1(s, sid, s.sessions[sid]))
  {
    QuietKeepsBound(s, Run1(s, sid, s.sessions[sid]));
  }

  lemma FilledKeepsBound(s: Sys, s': Sys, sid: nat)
    requires BoundedStaleness(s) && sid in s.sessions && s.sessions[sid].pc.ViewQueried?
    requires s' == Close(s, sid).(cache := Filled(s, s.sessions[sid]))
    ensures BoundedStaleness(s')
  {
    hide WasListed;
    var me := s.sessions[sid];
    QuietKeepsBound(s, s'.(cache := s.cache));
    assert EntryOk(s.history, SeatKey(me.routeId), s'.cache[SeatKey(me.routeId)], s.now);
  }

  lemma FillKeepsBound(s: Sys, sid: nat)
    requires BoundedStaleness(s) && sid in s.sessions && s.sessions[sid].pc.ViewQueried?
    ensures BoundedStaleness(Run1(s, sid, s.sessions[sid]))
  {
    hide WasListed, EntryOk;
    var me, s' := s.sessions[sid], Run1(s, sid, s.sessions[sid]);
    FilledKeepsBound(s, s'.(served := s.served), sid);
    var v := s'.served[|s.served|];
    assert ServedFrom(s.history, v, me.seen.snap, me.seen.at, s.now);
    assert FreshEnough(s.history, v);
  }

  lemma ExecKeepsBound(s: Sys, sid: nat)
    requires BoundedStaleness(s) && sid in s.sessions
    ensures BoundedStaleness(Run1(s, sid, s.sessions[sid]))
  {
    hide WasListed;
    var me, s' := s.sessions[sid], Run1(s, sid, s.sessions[sid]);
    match me.pc
    case ViewStart => HitKeepsBound(s, sid);
    case ViewMissed => QueryKeepsBound(s, sid);
    case ViewQueried => FillKeepsBound(s, sid);
    case _ => WriterKeepsBound(s, sid);
  }

  lemma WriterKeepsBound(s: Sys, sid: nat)
    requires BoundedStaleness(s) && sid in s.sessions && !Viewing(s.sessions[sid])
    ensures BoundedStaleness(Run1(s, sid, s.sessions[sid]))
  {
    hide WasListed, EntryOk, ServedOk, CacheOk, Run1, ReadersOk;
    WritersOnlyDrop(s, sid);
    var s' := Run1(s, sid, s.sessions[sid]);
    if s' == Commit(s, sid, s.sessions[sid]) {
      CommitKeepsBound(s, s', s'.history[|s.history|]);
    } else {
      WriterIsQuiet(s, s');
    }
  }

  lemma WriterIsQuiet(s: Sys, s': Sys)
    requires BoundedStaleness(s) && s'.history == s.history && s'.core.db == s.core.db && s.now == s'.now
    requires s'.served == s.served
    requires forall k :: k in s'.cache ==> k in s.cache && s'.cache[k] == s.cache[k]
    requires forall i :: i in s'.sessions && s'.sessions[i].pc.ViewQueried? ==>
               i in s.sessions && s'.sessions[i] == s.sessions[i]
    ensures BoundedStaleness(s')
  {
    hide WasListed, EntryOk, ServedOk, CacheOk;
    QuietKeepsBound(s, s');
  }

  lemma FailKeepsBound(s: Sys, sid: nat, tookEffect: bool)
    requires BoundedStaleness(s) && sid in s.sessions
    ensures BoundedStaleness(Abort(s, sid, s.sessions[sid], tookEffect))
  {
    hide WasListed, EntryOk, ServedOk, Glob;
    var me, s' := s.sessions[sid], Abort(s, sid, s.sessions[sid], tookEffect);
    if me.pc.ViewQueried? && tookEffect {
      FilledKeepsBound(s, s', sid);
    } else {
      QuietKeepsBound(s, s');
    }
  }

  lemma NextKeepsBound(s: Sys, a: Action)
    requires BoundedStaleness(s)
    ensures BoundedStaleness(Next(s, a))
  {
    hide WasListed, EntryOk, ServedOk, CacheOk, Run1, Waits;
    match a
    case Begin(sid, req) => QuietKeepsBound(s, Next(s, a));
    case Exec(sid) => if sid in s.sessions && !Waits(s, sid) { ExecKeepsBound(s, sid); }
    case Fail(sid, tookEffect) => if sid in s.sessions { FailKeepsBound(s, sid, tookEffect); }
    case Tick(_) => QuietKeepsBound(s, Next(s, a));
    case Evict(_) => QuietKeepsBound(s, Next(s, a));
  }

  lemma {:induction false} EveryRunIsBounded(s: Sys, acts: seq<Action>)
    requires Initial(s)
    ensures BoundedStaleness(Run(s, acts))
    decreases |acts|
  {
    if acts != [] {
      EveryRunIsBounded(s, acts[..|acts| - 1]);
      NextKeepsBound(Run(s, acts[..|acts| - 1]), acts[|acts| - 1]);
    }
  }

  /** Every seat list served in any run was the committed list of its route at a time at most 15 s plus the
      filling reader's delay before it was served. */
  lemma ServedListsAreFresh(s: Sys, acts: seq<Action>, v: Served)
    requires Initial(s) && v in Run(s, acts).served
    ensures FreshEnough(Run(s, acts).history, v)
  {
    EveryRunIsBounded(s, acts);
  }
}
