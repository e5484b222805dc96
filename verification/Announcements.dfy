/** When a cancellation is announced more than once, over every interleaving. */
module Announcements {
  import opened Rows
  import opened Listing
  import opened CacheKeys
  import opened Protocol
  import opened ProtocolSafety
  import opened ProtocolResults

  ghost predicate CancelledOnce(events: seq<Event>) {
    forall i, j :: 0 <= i < j < |events| && events[j].CancelledEvent? ==> events[i] != events[j]
  }

  /** A cancelled message has its CANCELLED row, or a session that will commit it next. */
  ghost predicate Backed(s: Sys, id: nat) {
    || (id in s.core.db.bookings && s.core.db.bookings[id].status.Cancelled?)
    || (exists i :: i in s.sessions && s.sessions[i].pc.CancelPublished? && s.sessions[i].id == id)
  }

  predicate Announcing(s: Sys, a: Action) {
    a.Exec? && a.sid in s.sessions && s.sessions[a.sid].pc.CancelInvalidated?
  }

  /** The broker reports an error for a cancellation it has delivered. */
  predicate Misreported(s: Sys, a: Action) {
    a.Fail? && a.tookEffect && a.sid in s.sessions && s.sessions[a.sid].pc.CancelInvalidated?
  }

  /** The two steps that put a cancellation into the message log. */
  predicate Delivers(s: Sys, a: Action) { Announcing(s, a) || Misreported(s, a) }

  /** A failure after the message went out: the broker misreported it, or the commit failed. */
  predicate LosesCancellation(s: Sys, a: Action) {
    Misreported(s, a) || (a.Fail? && a.sid in s.sessions && s.sessions[a.sid].pc.CancelPublished?)
  }

  /** The bookings whose delivered cancellation was lost in the run so far. */
  function Lost(s: Sys, acts: seq<Action>): set<nat> {
    if acts == [] then {}
    else
      var n := |acts| - 1;
      Lost(s, acts[..n]) + LostNow(Run(s, acts[..n]), acts[n])
  }

  function LostNow(s: Sys, a: Action): set<nat> {
    if LosesCancellation(s, a) then {s.sessions[a.sid].id} else {}
  }

  ghost predicate BackedOrLost(s: Sys, lost: set<nat>) {
    && (forall e :: e in s.core.events && e.CancelledEvent? ==> e.bookingId in lost || Backed(s, e.bookingId))
    && (forall id :: id in lost ==> CancelledEvent(id) in s.core.events)
  }

  /** A step that delivers a cancellation finds the committed row as its check left it, not CANCELLED, and no
      earlier delivered cancellation of that booking has been lost. */
  ghost predicate FirstWord(s: Sys, a: Action, lost: set<nat>) {
    Delivers(s, a) ==>
      var id := s.sessions[a.sid].id;
      id in s.core.db.bookings && !s.core.db.bookings[id].status.Cancelled? && id !in lost
  }

  ghost predicate AllFirstWords(s: Sys, acts: seq<Action>) {
    forall n: nat {:trigger acts[..n]} | n < |acts| ::
      FirstWord(Run(s, acts[..n]), acts[n], Lost(s, acts[..n]))
  }

  lemma Announces(s: Sys, a: Action)
    requires Announcing(s, a)
    ensures var s', me := Next(s, a), s.sessions[a.sid];
            && s'.core == s.core.(events := s.core.events + [CancelledEvent(me.id)])
            && s'.sessions == s.sessions[a.sid := me.(pc := CancelPublished)]
  {
    assert !Waits(s, a.sid);
  }

  lemma Misreports(s: Sys, a: Action)
    requires Misreported(s, a)
    ensures Next(s, a).core.events == s.core.events + [CancelledEvent(s.sessions[a.sid].id)]
  {
  }

  /** No other statement publishes a cancellation. */
  lemma OnlyDeliveryAnnounces(s: Sys, a: Action)
    requires !Delivers(s, a)
    ensures var s' := Next(s, a);
            s'.core.events == s.core.events || exists id :: s'.core.events == s.core.events + [ConfirmedEvent(id)]
  {
    hide Waits, Run1;
    if a.Exec? && a.sid in s.sessions { Run1Events(s, a.sid, s.sessions[a.sid]); }
  }

  lemma Run1Events(s: Sys, sid: nat, me: Session)
    requires !me.pc.CancelInvalidated?
    ensures var s' := Run1(s, sid, me);
            s'.core.events == s.core.events || s'.core.events == s.core.events + [ConfirmedEvent(me.id)]
  {
    hide Overlay, NewSeats, SeatTaken, DropMatching, SeatKey, SeatPattern, SeatList;
  }

  /** A session that owes a commit keeps owing it, or has committed its CANCELLED row. */
  lemma BackedStays(s: Sys, a: Action, id: nat)
    requires Safe(s) && Backed(s, id) && id !in LostNow(s, a)
    ensures Backed(Next(s, a), id)
  {
    hide Safe, Next, Evolves;
    var s' := Next(s, a);
    StepEvolves(s, a);
    if id in s.core.db.bookings && s.core.db.bookings[id].status.Cancelled? {
      CancelledStays(s.core.db, s'.core.db, id);
    } else {
      var i :| i in s.sessions && s.sessions[i].pc.CancelPublished? && s.sessions[i].id == id;
      OwesOrCommits(s, a, i);
    }
  }

  lemma CancelledStays(db: Db, db': Db, id: nat)
    requires Evolves(db, db') && id in db.bookings && db.bookings[id].status.Cancelled?
    ensures id in db'.bookings && db'.bookings[id].status.Cancelled?
  {
    assert Follows(db.bookings[id], db'.bookings[id]);
  }

  lemma OwesOrCommits(s: Sys, a: Action, i: nat)
    requires Safe(s) && i in s.sessions && s.sessions[i].pc.CancelPublished?
    requires s.sessions[i].id !in LostNow(s, a)
    ensures var s', id := Next(s, a), s.sessions[i].id;
            || (i in s'.sessions && s'.sessions[i] == s.sessions[i])
            || (id in s'.core.db.bookings && s'.core.db.bookings[id].status.Cancelled?)
  {
    hide Safe, Waits, Run1, CoreOk, SaleOk, RouteOk, AllOk, AllApart;
    if a == Exec(i) {
      if !Waits(s, i) {
        SafeParts(s, i);
        CancelRows(s.core, s.sessions[i]);
        CommitsNow(s, i);
      }
    } else if a.Exec? && a.sid in s.sessions {
      Run1Others(s, a.sid, i);
    }
  }

  lemma CommitsNow(s: Sys, i: nat)
    requires i in s.sessions && s.sessions[i].pc.CancelPublished?
    ensures Run1(s, i, s.sessions[i]) == Commit(s, i, s.sessions[i])
  {
    hide Commit;
  }

  lemma StepKeepsBacked(s: Sys, a: Action, lost: set<nat>)
    requires Safe(s) && BackedOrLost(s, lost)
    ensures BackedOrLost(Next(s, a), lost + LostNow(s, a))
  {
    hide Safe, Next, Backed;
    var s' := Next(s, a);
    forall e | e in s'.core.events && e.CancelledEvent?
      ensures e.bookingId in lost + LostNow(s, a) || Backed(s', e.bookingId)
    {
      if e in s.core.events {
        if e.bookingId !in lost + LostNow(s, a) { BackedStays(s, a, e.bookingId); }
      } else {
        NewMessageBacked(s, a, e);
      }
    }
    forall id | id in lost + LostNow(s, a) ensures CancelledEvent(id) in s'.core.events {
      EventsGrow(s, a);
      if id in LostNow(s, a) { LostWasOut(s, a); }
    }
  }

  lemma EventsGrow(s: Sys, a: Action)
    ensures forall e :: e in s.core.events ==> e in Next(s, a).core.events
  {
    hide Next;
    if Announcing(s, a) { Announces(s, a); }
    else if Misreported(s, a) { Misreports(s, a); }
    else { OnlyDeliveryAnnounces(s, a); }
  }

  /** A cancellation that has just come into the log is owed by its session, or lost at once. */
  lemma NewMessageBacked(s: Sys, a: Action, e: Event)
    requires e.CancelledEvent? && e !in s.core.events && e in Next(s, a).core.events
    ensures e.bookingId in LostNow(s, a) || Backed(Next(s, a), e.bookingId)
  {
    hide Next, Backed;
    if Announcing(s, a) {
      Announces(s, a);
      Owes(Next(s, a), a.sid);
    } else if Misreported(s, a) {
      Misreports(s, a);
    } else {
      OnlyDeliveryAnnounces(s, a);
    }
  }

  lemma LostWasOut(s: Sys, a: Action)
    requires Safe(s) && LosesCancellation(s, a)
    ensures CancelledEvent(s.sessions[a.sid].id) in Next(s, a).core.events
    ensures LostNow(s, a) == {s.sessions[a.sid].id}
  {
    hide Safe, Next, CoreOk;
    SafeParts(s, a.sid);
    EventsGrow(s, a);
    if Misreported(s, a) { Misreports(s, a); }
  }

  lemma Owes(s: Sys, i: nat)
    requires i in s.sessions && s.sessions[i].pc.CancelPublished?
    ensures Backed(s, s.sessions[i].id)
  {
  }

  /** In any state of any run, every cancelled message has its CANCELLED row, or a session about to commit it, or
      was lost earlier in that run. */
  lemma {:induction false} RunKeepsBacked(s: Sys, acts: seq<Action>)
    requires Initial(s)
    ensures BackedOrLost(Run(s, acts), Lost(s, acts))
    decreases |acts|
  {
    hide Next, Backed, LostNow;
    if acts != [] {
      hide BackedOrLost, Initial;
      var n := |acts| - 1;
      RunKeepsBacked(s, acts[..n]);
      EveryRunIsSafe(s, acts[..n]);
      StepKeepsBacked(Run(s, acts[..n]), acts[n], Lost(s, acts[..n]));
    }
  }

  /** A cancellation about to be delivered is in the log already exactly when the committed row is CANCELLED or an
      earlier one was lost: the row lock keeps every other session with the same booking from owing a commit. */
  lemma AnnouncesAgainIff(s: Sys, a: Action, lost: set<nat>)
    requires Safe(s) && BackedOrLost(s, lost) && Delivers(s, a)
    ensures CancelledEvent(s.sessions[a.sid].id) in s.core.events <==> !FirstWord(s, a, lost)
  {
    hide CoreOk;
    var me := s.sessions[a.sid];
    assert CancelledEvent(me.id).bookingId == me.id;
    assert SessionOk(s.core, me);
    forall i | i in s.sessions && s.sessions[i].pc.CancelPublished? ensures s.sessions[i].id != me.id {
      assert Apart(s.sessions[i], me);
    }
    CancelledIsAnnounced(s.core, me.id);
  }

  lemma CancelledIsAnnounced(c: Core, id: nat)
    requires CoreOk(c)
    ensures id in c.db.bookings && c.db.bookings[id].status.Cancelled? ==> CancelledEvent(id) in c.events
  {
    hide Consistent, ConfirmedOnce, ConfirmedFirst;
  }

  lemma OnceSnoc(events: seq<Event>, e: Event)
    ensures CancelledOnce(events + [e]) <==> CancelledOnce(events) && (e.CancelledEvent? ==> e !in events)
  {
    var after := events + [e];
    if e.CancelledEvent? && e in events {
      var i :| 0 <= i < |events| && events[i] == e;
      assert after[i] == after[|events|] == e;
    }
    if CancelledOnce(after) {
      forall i, j | 0 <= i < j < |events| && events[j].CancelledEvent? ensures events[i] != events[j] {
        assert after[i] != after[j];
      }
    }
  }

  lemma StepAnnouncesOnceIff(s: Sys, a: Action, lost: set<nat>)
    requires Safe(s) && BackedOrLost(s, lost)
    ensures CancelledOnce(Next(s, a).core.events) <==> CancelledOnce(s.core.events) && FirstWord(s, a, lost)
  {
    hide Safe, Next, CancelledOnce, BackedOrLost;
    var s' := Next(s, a);
    if Delivers(s, a) {
      if Announcing(s, a) { Announces(s, a); } else { Misreports(s, a); }
      AnnouncesAgainIff(s, a, lost);
      OnceSnoc(s.core.events, CancelledEvent(s.sessions[a.sid].id));
    } else {
      OnlyDeliveryAnnounces(s, a);
      if s'.core.events != s.core.events {
        var id :| s'.core.events == s.core.events + [ConfirmedEvent(id)];
        OnceSnoc(s.core.events, ConfirmedEvent(id));
      }
    }
  }

  lemma AllFirstWordsSnoc(s: Sys, acts: seq<Action>)
    requires acts != []
    ensures var n := |acts| - 1;
            AllFirstWords(s, acts)
            <==> AllFirstWords(s, acts[..n]) && FirstWord(Run(s, acts[..n]), acts[n], Lost(s, acts[..n]))
  {
    hide Run, FirstWord, Lost;
    var n := |acts| - 1;
    var front := acts[..n];
    assert forall m: nat {:trigger acts[..m]} | m < n :: front[..m] == acts[..m] && front[m] == acts[m];
    if AllFirstWords(s, acts) {
      forall m: nat {:trigger front[..m]} | m < |front|
        ensures FirstWord(Run(s, front[..m]), front[m], Lost(s, front[..m]))
      {
        assert acts[..m] == front[..m];
      }
      assert acts[..n] == front;
    }
    if AllFirstWords(s, front) && FirstWord(Run(s, front), acts[n], Lost(s, front)) {
      forall m: nat {:trigger acts[..m]} | m < |acts|
        ensures FirstWord(Run(s, acts[..m]), acts[m], Lost(s, acts[..m]))
      {
        if m < n { assert front[..m] == acts[..m]; }
      }
    }
  }

  lemma NothingAnnounced(s: Sys)
    requires Initial(s)
    ensures CancelledOnce(Run(s, []).core.events) && AllFirstWords(s, [])
  {
    hide Consistent, FirstWord;
  }

  /** Over any run, whatever fails in it: each cancellation is announced at most once if and only if every step that
      delivers one finds the row still standing and no earlier delivered cancellation of that booking lost. */
  lemma {:induction false} AnnouncedOnceIff(s: Sys, acts: seq<Action>)
    requires Initial(s)
    ensures CancelledOnce(Run(s, acts).core.events) <==> AllFirstWords(s, acts)
    decreases |acts|
  {
    hide Next, FirstWord, BackedOrLost, Lost, CancelledOnce, Initial, AllFirstWords, Run, Safe;
    if acts == [] {
      NothingAnnounced(s);
    } else {
      var n := |acts| - 1;
      AllFirstWordsSnoc(s, acts);
      RunLast(s, acts);
      AnnouncedOnceIff(s, acts[..n]);
      EveryRunIsSafe(s, acts[..n]);
      RunKeepsBacked(s, acts[..n]);
      StepAnnouncesOnceIff(Run(s, acts[..n]), acts[n], Lost(s, acts[..n]));
    }
  }
}
