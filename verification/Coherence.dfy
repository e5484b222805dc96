/** When the seat cache is exact under interleaving: precisely what invalidating before the commit costs. */
module Coherence {
  import opened Rows
  import opened Listing
  import opened CacheKeys
  import opened Protocol
  import opened ProtocolResults
  import Ord = Ordering

  predicate TrueOrEmpty(s: Sys, r: nat, data: seq<SeatOut>) { data == [] || data == SeatList(s.core.db, r) }

  /** A cached entry that has not expired, so the next reader is answered with it unless it is empty. */
  predicate Servable(s: Sys, r: nat) { SeatKey(r) in s.cache && s.now <= s.cache[SeatKey(r)].expires }

  /** Whatever is served from the cache for route `r`, or about to be put there, is empty or the committed list. */
  ghost predicate Exact(s: Sys, r: nat) {
    && (Servable(s, r) ==> TrueOrEmpty(s, r, s.cache[SeatKey(r)].reading.data))
    && (forall i :: i in s.sessions && s.sessions[i].pc.ViewQueried? && s.sessions[i].routeId == r ==>
          TrueOrEmpty(s, r, s.sessions[i].seen.data))
  }

  /** A non-empty list of `r` is in the cache and not expired, or in the hands of a reader about to put it there. */
  ghost predicate Held(s: Sys, r: nat) {
    || (Servable(s, r) && s.cache[SeatKey(r)].reading.data != [])
    || (exists i :: i in s.sessions && s.sessions[i].pc.ViewQueried? && s.sessions[i].routeId == r
                    && s.sessions[i].seen.data != [])
  }

  /** A commit keeps route `r` exact if and only if it leaves the list of `r` as it was or nothing of `r` is
      held: the invalidation a few steps earlier does not help once a reader has come in between. */
  lemma CommitExactIff(s: Sys, sid: nat, r: nat)
    requires Exact(s, r) && sid in s.sessions && AtCommit(s.sessions[sid])
    ensures var s' := Commit(s, sid, s.sessions[sid]);
            Exact(s', r) <==> SeatList(s'.core.db, r) == SeatList(s.core.db, r) || !Held(s, r)
  {
    hide SeatList, SeatKey, Overlay;
    var s' := Commit(s, sid, s.sessions[sid]);
    if SeatList(s'.core.db, r) != SeatList(s.core.db, r) && Held(s, r) {
      if Servable(s, r) && s.cache[SeatKey(r)].reading.data != [] {
        assert !TrueOrEmpty(s', r, s'.cache[SeatKey(r)].reading.data);
      } else {
        var i :| i in s.sessions && s.sessions[i].pc.ViewQueried? && s.sessions[i].routeId == r
                 && s.sessions[i].seen.data != [];
        assert s'.sessions[i] == s.sessions[i] && !TrueOrEmpty(s', r, s'.sessions[i].seen.data);
      }
    }
  }

  /** Nothing but a commit can make a cached list untrue. */
  lemma OtherStepsKeepExact(s: Sys, a: Action, r: nat)
    requires Exact(s, r) && Next(s, a).core.db == s.core.db
    ensures Exact(Next(s, a), r)
  {
    hide SeatList, SeatKey, Overlay, NewSeats, SeatTaken, Glob, Waits, Run1, Abort;
    if a.Exec? && a.sid in s.sessions && !Waits(s, a.sid) { Run1KeepsExact(s, a.sid, r); }
    if a.Fail? && a.sid in s.sessions { FailKeepsExact(s, a.sid, a.tookEffect, r); }
  }

  lemma FailKeepsExact(s: Sys, sid: nat, tookEffect: bool, r: nat)
    requires Exact(s, r) && sid in s.sessions
    ensures Exact(Abort(s, sid, s.sessions[sid], tookEffect), r)
  {
    hide SeatList, SeatKey, Glob;
    var me := s.sessions[sid];
    if SeatKey(me.routeId) == SeatKey(r) { SeatKeyInjective(me.routeId, r); }
  }

  lemma Run1KeepsExact(s: Sys, sid: nat, r: nat)
    requires Exact(s, r) && sid in s.sessions && Run1(s, sid, s.sessions[sid]).core.db == s.core.db
    ensures Exact(Run1(s, sid, s.sessions[sid]), r)
  {
    hide SeatList, Overlay, NewSeats, SeatTaken, Glob, Exact;
    if Viewing(s.sessions[sid]) { ViewKeepsExact(s, sid, r); } else { WriterKeepsExact(s, sid, r); }
  }

  lemma ViewKeepsExact(s: Sys, sid: nat, r: nat)
    requires Exact(s, r) && sid in s.sessions && Viewing(s.sessions[sid])
    ensures Exact(Run1(s, sid, s.sessions[sid]), r)
  {
    hide SeatList, SeatKey, Overlay;
    var me := s.sessions[sid];
    if SeatKey(me.routeId) == SeatKey(r) { SeatKeyInjective(me.routeId, r); }
  }

  lemma WriterKeepsExact(s: Sys, sid: nat, r: nat)
    requires Exact(s, r) && sid in s.sessions && Run1(s, sid, s.sessions[sid]).core.db == s.core.db
    requires !Viewing(s.sessions[sid])
    ensures Exact(Run1(s, sid, s.sessions[sid]), r)
  {
    hide SeatList, SeatKey, Run1;
    WritersOnlyDrop(s, sid);
  }

  /** Selling a seat always changes what the route's list should show. */
  lemma SaleChangesList(db: Db, id: nat, k: Booking)
    requires k.seatId in db.seats && !db.seats[k.seatId].booked
    ensures SeatList(Sell(db, id, k), db.seats[k.seatId].routeId) != SeatList(db, db.seats[k.seatId].routeId)
  {
    var r, db' := db.seats[k.seatId].routeId, Sell(db, id, k);
    var ids := Ord.Sorted(SeatKeys(db, r));
    assert SeatKeys(db', r) == SeatKeys(db, r);
    assert k.seatId in SeatKeys(db, r) && k.seatId in ids;
    var i :| 0 <= i < |ids| && ids[i] == k.seatId;
    assert !SeatList(db, r)[i].booked && SeatList(db', r)[i].booked;
  }

  // ---- runs that keep their commits apart from their readers ----

  /** Every commit of the run that changes the list of `r` happens while nothing of `r` is held. */
  ghost predicate CommitsUnobserved(s: Sys, acts: seq<Action>, r: nat) {
    forall n: nat {:trigger acts[..n]} | n < |acts| ::
      var p := Run(s, acts[..n]);
      SeatList(Next(p, acts[n]).core.db, r) == SeatList(p.core.db, r) || !Held(p, r)
  }

  /** In such a run, however interleaved, no cached list of `r` is ever untrue. */
  lemma {:induction false} UnobservedRunsAreExact(s: Sys, acts: seq<Action>, r: nat)
    requires Initial(s) && CommitsUnobserved(s, acts, r)
    ensures Exact(Run(s, acts), r)
    decreases |acts|
  {
    hide Exact, Held, SeatList, Next, Run;
    if acts == [] {
      NothingCached(s, r);
    } else {
      var n := |acts| - 1;
      var front := acts[..n];
      assert forall m: nat | m < n :: front[..m] == acts[..m];
      UnobservedRunsAreExact(s, front, r);
      RunLast(s, acts);
      StepKeepsExact(Run(s, front), acts[n], r);
    }
  }

  lemma NothingCached(s: Sys, r: nat)
    requires Initial(s)
    ensures Exact(Run(s, []), r)
  {
    hide Consistent;
  }

  lemma StepKeepsExact(s: Sys, a: Action, r: nat)
    requires Exact(s, r)
    requires SeatList(Next(s, a).core.db, r) == SeatList(s.core.db, r) || !Held(s, r)
    ensures Exact(Next(s, a), r)
  {
    hide Exact, Held, SeatList, Next;
    if Next(s, a).core.db == s.core.db {
      OtherStepsKeepExact(s, a, r);
    } else {
      OnlyCommitsShow(s, a);
      CommitIsStep(s, a);
      CommitExactIff(s, a.sid, r);
    }
  }

  lemma CommitIsStep(s: Sys, a: Action)
    requires a.Exec? && a.sid in s.sessions && AtCommit(s.sessions[a.sid]) && Next(s, a).core.db != s.core.db
    ensures Next(s, a) == Commit(s, a.sid, s.sessions[a.sid])
  {
    hide Overlay, Commit, Waits;
  }

  ghost predicate ExactThroughout(s: Sys, acts: seq<Action>, r: nat) {
    forall n: nat {:trigger acts[..n]} | n <= |acts| :: Exact(Run(s, acts[..n]), r)
  }

  /** The lists of `r` served from the cache, or on their way into it, are empty or true from the first state of a run
      to the last if and only if no commit of the run catches a list of `r` held. */
  lemma ExactThroughoutIff(s: Sys, acts: seq<Action>, r: nat)
    requires Initial(s)
    ensures ExactThroughout(s, acts, r) <==> CommitsUnobserved(s, acts, r)
  {
    hide Initial, Exact, Held, SeatList, Next, Run;
    if ExactThroughout(s, acts, r) {
      forall n: nat {:trigger acts[..n]} | n < |acts|
        ensures var p := Run(s, acts[..n]);
                SeatList(Next(p, acts[n]).core.db, r) == SeatList(p.core.db, r) || !Held(p, r)
      {
        assert acts[..n + 1][..n] == acts[..n];
        RunLast(s, acts[..n + 1]);
        ExactNeedsUnheld(Run(s, acts[..n]), acts[n], r);
      }
    }
    if CommitsUnobserved(s, acts, r) {
      forall n: nat {:trigger acts[..n]} | n <= |acts| ensures Exact(Run(s, acts[..n]), r) {
        assert forall m: nat | m < n :: acts[..n][..m] == acts[..m];
        UnobservedRunsAreExact(s, acts[..n], r);
      }
    }
  }

  lemma ExactNeedsUnheld(s: Sys, a: Action, r: nat)
    requires Exact(s, r) && Exact(Next(s, a), r)
    ensures SeatList(Next(s, a).core.db, r) == SeatList(s.core.db, r) || !Held(s, r)
  {
    hide Exact, Held, SeatList, Next;
    if Next(s, a).core.db != s.core.db {
      OnlyCommitsShow(s, a);
      CommitIsStep(s, a);
      CommitExactIff(s, a.sid, r);
    }
  }

  /** A reader answered from an exact state gets the committed list of that moment; only one that has missed the cache
      may get an empty list that it read from the database before. */
  lemma AnswersAreExact(s: Sys, a: Action, r: nat)
    requires Exact(s, r) && |Next(s, a).served| > |s.served| && Next(s, a).served[|s.served|].routeId == r
    ensures TrueOrEmpty(s, r, Next(s, a).served[|s.served|].data)
    ensures a.Exec? && a.sid in s.sessions && s.sessions[a.sid].pc.ViewStart? ==>
      Next(s, a).served[|s.served|].data == SeatList(s.core.db, r)
  {
    hide SeatList, SeatKey, Run1, Waits;
    if a.Exec? && a.sid in s.sessions && !Waits(s, a.sid) {
      if Viewing(s.sessions[a.sid]) { ViewAnswersExactly(s, a.sid, r); } else { WritersOnlyDrop(s, a.sid); }
    }
  }

  lemma ViewAnswersExactly(s: Sys, sid: nat, r: nat)
    requires sid in s.sessions && Viewing(s.sessions[sid]) && Exact(s, r)
    requires var s' := Run1(s, sid, s.sessions[sid]); |s'.served| > |s.served| && s'.served[|s.served|].routeId == r
    ensures TrueOrEmpty(s, r, Run1(s, sid, s.sessions[sid]).served[|s.served|].data)
    ensures s.sessions[sid].pc.ViewStart? ==>
      Run1(s, sid, s.sessions[sid]).served[|s.served|].data == SeatList(s.core.db, r)
  {
    hide SeatList, SeatKey;
  }
}
