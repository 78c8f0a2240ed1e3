/**
 Exactly which schedules leave a log that can be replayed.

 Whatever the interleaving, as long as the calendar is not dropped under a write that has found its row:
 once all requests have finished, the log settles the calendar if and only if no live object had a deletion
 as the last thing logged about it. That is also exactly when every client whose hrefs the log knows gets
 the calendar from the report for the calendar's own token.
 */
module SettledSchedules {
  import opened Wrappers
  import opened Schema
  import opened Operations
  import opened Ordering
  import opened Store
  import opened Hrefs
  import opened History
  import opened SyncReport
  import opened Convergence
  import opened Interleaving
  import opened Provenance
  import opened OrderlySchedules

  // What a schedule logs ---------------------------------------------------------------------------------------

  /** The kind of the row that the event logs for the object. */
  function Logs(s: System, e: Event, k: Key): Option<ChangeType> {
    if e.Advance? && e.i < |s.requests| && Owes(s.requests[e.i], k.0, k.1) && k.0 in s.db.calendars then
      Some(s.requests[e.i].phase.kind)
    else None
  }

  /** Nothing is logged about the object, and its calendar is not dropped. */
  predicate Silent(s: System, es: seq<Event>, k: Key)
    decreases |es|
  {
    es == [] || (Logs(s, es[0], k) == None && !Drops(s, es[0], k.0) && Silent(Next(s, es[0]), es[1..], k))
  }

  /** Some event logs the deletion of the object, and nothing is logged about it behind that. */
  predicate DeletionIsLast(s: System, es: seq<Event>, k: Key)
    decreases |es|
  {
    && es != []
    && (DeletionIsLast(Next(s, es[0]), es[1..], k)
        || (Logs(s, es[0], k) == Some(Deleted) && Silent(Next(s, es[0]), es[1..], k)))
  }

  predicate EndsDeleted(kinds: seq<ChangeType>) { kinds != [] && kinds[|kinds| - 1] == Deleted }

  /** What one event does to the history of an object. */
  lemma {:induction false} EventOnHistory(s: System, e: Event, k: Key)
    requires e.Advance? ==> e.i < |s.requests|
    ensures var before := ObjectHistory(s.db, k.0, k.1);
            ObjectHistory(Next(s, e).db, k.0, k.1) ==
            if Drops(s, e, k.0) then []
            else match Logs(s, e, k) case Some(kind) => before + [kind] case None => before
  {
    if e.Advance? {
      var r := s.requests[e.i];
      StatementOnLog(s.db, r);
      if IsDrop(r) {
        RowsOfDropped(s.db.log, r.job.c, k.0);
      } else if r.phase.Log? && Writes(r.job) && r.job.c in s.db.calendars {
        HistoryLogged(s.db, Next(s, e).db, r.job.c, UidFor(r.job), r.phase.kind, LogTokenFor(r.job), k.0, k.1);
      }
    }
  }

  /** The last row of an object is a deletion exactly when the schedule logged one last, or nothing behind one. */
  lemma {:induction false} EndsDeletedIff(s: System, es: seq<Event>, k: Key)
    requires ValidSchedule(s, es)
    ensures EndsDeleted(ObjectHistory(Play(s, es).db, k.0, k.1)) <==>
            DeletionIsLast(s, es, k) || (Silent(s, es, k) && EndsDeleted(ObjectHistory(s.db, k.0, k.1)))
    decreases |es|
  {
    if es != [] {
      var s' := Next(s, es[0]);
      EventOnHistory(s, es[0], k);
      EndsDeletedIff(s', es[1..], k);
      assert Play(s, es) == Play(s', es[1..]);
    }
  }

  // Drops ------------------------------------------------------------------------------------------------------

  predicate AllDropAlone(s: System, es: seq<Event>, c: string)
    decreases |es|
  {
    es == [] || (DropsAlone(s, es[0], c) && AllDropAlone(Next(s, es[0]), es[1..], c))
  }

  ghost predicate CalendarUnder(s: System, c: string) {
    forall i :: 0 <= i < |s.requests| && FoundOrOwes(s.requests[i], c) ==> c in s.db.calendars
  }

  lemma {:induction false} StaysUnder(s: System, e: Event, c: string)
    requires Enabled(s, e) && DropsAlone(s, e, c) && CalendarUnder(s, c) && ObjectIntegrity(s.db)
    ensures CalendarUnder(Next(s, e), c)
  {
    if e.Advance? {
      forall i | 0 <= i < |Next(s, e).requests| && FoundOrOwes(Next(s, e).requests[i], c)
        ensures c in Next(s, e).db.calendars
      {
        if i == e.i {
          FindsItsCalendar(s.db, s.requests[i]);
        } else {
          assert FoundOrOwes(s.requests[i], c);
        }
        CalendarsStay(s.db, s.requests[e.i], c);
      }
    } else {
      assert forall i :: 0 <= i < |s.requests| ==> Next(s, e).requests[i] == s.requests[i];
    }
  }

  /** A request finds a row, or takes on a debt, only in a calendar that is there. */
  lemma {:induction false} FindsItsCalendar(db: Db, r: Request)
    requires ObjectIntegrity(db) && FoundOrOwes(Moved(db, r), r.job.c)
    ensures FoundOrOwes(r, r.job.c) || r.job.c in db.calendars
    ensures !IsDrop(r)
  {
  }

  // Dead objects -------------------------------------------------------------------------------------------------

  /** The request is about to update the row of the object, or to log a change of it. */
  predicate Concerns(r: Request, k: Key) {
    OnObject(r, k) && (r.phase == Update || r.phase.Log?)
  }

  /** The log knows the object, or a request will see to that. */
  ghost predicate Noted(s: System, k: Key) {
    ObjectHistory(s.db, k.0, k.1) != [] || exists i :: 0 <= i < |s.requests| && Concerns(s.requests[i], k)
  }

  predicate OwesDeletion(r: Request, k: Key) { Owes(r, k.0, k.1) && r.phase.kind == Deleted }

  /** A deletion of the object is logged or owed. */
  ghost predicate DeletionNoted(s: System, k: Key) {
    || Deleted in ObjectHistory(s.db, k.0, k.1)
    || exists i :: 0 <= i < |s.requests| && OwesDeletion(s.requests[i], k)
  }

  ghost predicate DeadAreDeleted(s: System, c: string) {
    forall k: Key :: k.0 == c && k !in s.db.objects && Noted(s, k) ==> DeletionNoted(s, k)
  }

  /** The object dies with this statement, which then owes the deletion; or it was dead and noted before. */
  lemma {:induction false} WasNoted(s: System, i: nat, k: Key)
    requires ObjectIntegrity(s.db) && i < |s.requests| && !Drops(s, Advance(i), k.0)
    requires var s' := Next(s, Advance(i)); k !in s'.db.objects && Noted(s', k)
    ensures OwesDeletion(Next(s, Advance(i)).requests[i], k) || (k !in s.db.objects && Noted(s, k))
  {
    var r, s' := s.requests[i], Next(s, Advance(i));
    if IsDrop(r) { DropTakesAll(s.db, r, k); } else { DebtsFollowRows(s.db, r, k); }
    NewDebtIsOwn(s.db, r);
    EventOnHistory(s, Advance(i), k);
    if s'.requests[i].job.Upserting? && s'.requests[i].phase == Update { BecomesReady(s.db, r); }
    if Owes(r, k.0, k.1) { assert Concerns(r, k); }
    forall j | 0 <= j < |s.requests| && j != i && Concerns(s'.requests[j], k)
      ensures Noted(s, k)
    {
      assert Concerns(s.requests[j], k);
    }
  }

  lemma {:induction false} DeletionStaysNoted(s: System, i: nat, k: Key)
    requires CalendarUnder(s, k.0) && i < |s.requests| && !Drops(s, Advance(i), k.0) && DeletionNoted(s, k)
    ensures DeletionNoted(Next(s, Advance(i)), k)
  {
    var r, s' := s.requests[i], Next(s, Advance(i));
    EventOnHistory(s, Advance(i), k);
    if Deleted in ObjectHistory(s.db, k.0, k.1) {
      assert Deleted in ObjectHistory(s'.db, k.0, k.1);
    } else {
      var j :| 0 <= j < |s.requests| && OwesDeletion(s.requests[j], k);
      if j == i {
        assert FoundOrOwes(r, k.0);
        assert ObjectHistory(s'.db, k.0, k.1)[|ObjectHistory(s.db, k.0, k.1)|] == Deleted;
      } else {
        assert OwesDeletion(s'.requests[j], k);
      }
    }
  }

  lemma {:induction false} DropForgets(s: System, i: nat, k: Key)
    requires i < |s.requests| && Drops(s, Advance(i), k.0) && DropsAlone(s, Advance(i), k.0)
    ensures !Noted(Next(s, Advance(i)), k)
  {
    var s' := Next(s, Advance(i));
    EventOnHistory(s, Advance(i), k);
    forall j | 0 <= j < |s'.requests|
      ensures !Concerns(s'.requests[j], k)
    {
      if j != i { assert !FoundOrOwes(s.requests[j], k.0); }
    }
  }

  lemma {:induction false} AdvanceKeepsDead(s: System, i: nat, c: string)
    requires ObjectIntegrity(s.db) && CalendarUnder(s, c) && DeadAreDeleted(s, c)
    requires i < |s.requests| && DropsAlone(s, Advance(i), c)
    ensures DeadAreDeleted(Next(s, Advance(i)), c)
  {
    var s' := Next(s, Advance(i));
    forall k: Key | k.0 == c && k !in s'.db.objects && Noted(s', k)
      ensures DeletionNoted(s', k)
    {
      if Drops(s, Advance(i), c) {
        DropForgets(s, i, k);
      } else {
        WasNoted(s, i, k);
        if !OwesDeletion(s'.requests[i], k) { DeletionStaysNoted(s, i, k); }
      }
    }
  }

  ghost predicate SettledInv(s: System, c: string) {
    SystemInv(s) && CalendarUnder(s, c) && DeadAreDeleted(s, c)
  }

  lemma {:induction false} NextKeepsSettled(s: System, e: Event, c: string)
    requires SettledInv(s, c) && Enabled(s, e) && DropsAlone(s, e, c)
    ensures SettledInv(Next(s, e), c)
  {
    NextKeepsInv(s, e);
    StaysUnder(s, e, c);
    match e
    case Advance(i) => AdvanceKeepsDead(s, i, c);
    case Arrive(job) => ArriveKeepsDead(s, job, c);
  }

  lemma {:induction false} ArriveKeepsDead(s: System, job: Job, c: string)
    requires DeadAreDeleted(s, c)
    ensures DeadAreDeleted(Next(s, Arrive(job)), c)
  {
    var s' := Next(s, Arrive(job));
    forall k: Key | k.0 == c && k !in s'.db.objects && Noted(s', k)
      ensures DeletionNoted(s', k)
    {
      EventOnHistory(s, Arrive(job), k);
      if j :| 0 <= j < |s'.requests| && Concerns(s'.requests[j], k) {
        assert s'.requests[|s.requests|].phase == FirstPhase(job);
        assert Concerns(s.requests[j], k);
      }
      if j :| 0 <= j < |s.requests| && OwesDeletion(s.requests[j], k) { assert OwesDeletion(s'.requests[j], k); }
    }
  }

  lemma {:induction false} PlayKeepsSettled(s: System, es: seq<Event>, c: string)
    requires SettledInv(s, c) && ValidSchedule(s, es) && AllDropAlone(s, es, c)
    ensures SettledInv(Play(s, es), c)
    decreases |es|
  {
    if es != [] {
      NextKeepsSettled(s, es[0], c);
      PlayKeepsSettled(Next(s, es[0]), es[1..], c);
    }
  }

  // Quiet states ---------------------------------------------------------------------------------------------------

  ghost predicate LiveEndLive(db: Db, c: string) {
    forall u :: (c, u) in db.objects ==> EndsLive(ObjectHistory(db, c, u))
  }

  /** In a quiet state only live objects can be unsettled. */
  lemma {:induction false} QuietSettlesIff(s: System, c: string)
    requires SettledInv(s, c) && Quiescent(s)
    ensures CalendarSettles(s.db, c) <==> LiveEndLive(s.db, c)
    ensures forall u :: (c, u) in s.db.objects ==> ObjectHistory(s.db, c, u) != []
  {
    forall u
      ensures (c, u) !in s.db.objects ==> Settles(s.db, c, u)
      ensures (c, u) in s.db.objects ==> ObjectHistory(s.db, c, u) != []
    {
      if (c, u) in s.db.objects {
        QuietIsLogged(s, c, u);
      } else if ObjectHistory(s.db, c, u) != [] {
        assert Noted(s, (c, u)) && DeletionNoted(s, (c, u));
      }
    }
    if CalendarSettles(s.db, c) {
      assert forall u :: (c, u) in s.db.objects ==> Settles(s.db, c, u);
    }
  }

  lemma {:induction false} QuietIsLogged(s: System, c: string, u: string)
    requires SystemInv(s) && Quiescent(s) && (c, u) in s.db.objects
    ensures ObjectHistory(s.db, c, u) != []
  {
    assert InLog(s.db, c, u);
    var row :| row in s.db.log && row.calendarId == c && row.objectUid == u;
    FilterMember(s.db.log, OfCalendar(c), row);
    KindsNonempty(RowsOf(s.db.log, c), u);
  }

  /**
   The exact condition. In any schedule from the empty system that drops the calendar only alone, once all
   requests have finished: the log settles the calendar if and only if the schedule logged no deletion last
   about an object that is live.
   */
  lemma {:induction false} SettlesIff(users: set<string>, es: seq<Event>, c: string)
    requires ValidSchedule(Idle(users), es) && AllDropAlone(Idle(users), es, c) && Quiescent(Play(Idle(users), es))
    ensures CalendarSettles(Play(Idle(users), es).db, c) <==>
            forall u :: (c, u) in Play(Idle(users), es).db.objects ==> !DeletionIsLast(Idle(users), es, (c, u))
  {
    var s := Play(Idle(users), es);
    PlayKeepsSettled(Idle(users), es, c);
    QuietSettlesIff(s, c);
    forall u | (c, u) in s.db.objects
      ensures EndsLive(ObjectHistory(s.db, c, u)) <==> !DeletionIsLast(Idle(users), es, (c, u))
    {
      EndsDeletedIff(Idle(users), es, (c, u));
    }
  }

  /** So this is exactly when the report for the calendar's own token works for every replica the log knows. */
  lemma {:induction false} OwnTokenReportsConvergeIff(
    users: set<string>, es: seq<Event>, ctx: HrefContext, c: string, includeData: bool)
    requires ValidSchedule(Idle(users), es) && AllDropAlone(Idle(users), es, c) && Quiescent(Play(Idle(users), es))
    requires c in Play(Idle(users), es).db.calendars
    ensures var db := Play(Idle(users), es).db;
            (forall replica :: Known(db, ctx, c, replica) ==>
               ReplayRows(replica, db, ctx, c, includeData, ChangesSince(db.log, c, db.calendars[c].syncToken))
               == View(db, ctx, c, includeData))
            <==> forall u :: (c, u) in db.objects ==> !DeletionIsLast(Idle(users), es, (c, u))
  {
    var db := Play(Idle(users), es).db;
    SettlesIff(users, es, c);
    ScheduledIsStamped(users, es);
    UnloggedTokenGetsAll(db, c, db.calendars[c].syncToken);
    SettlesIffReplayable(db, ctx, c, includeData);
  }
}
