/**
 Why the rules of `OrderlySchedules` are what they are: schedules from the empty system that keep one rule
 and break the promise of the next.

 In both, an update finds its row and then waits. Meanwhile the object is deleted, or the whole calendar is
 dropped and made again. The UPDATE matches no row, and still logs a modification.
 */
module ScheduleWitnesses {
  import opened Wrappers
  import opened Schema
  import opened Operations
  import opened Store
  import opened History
  import opened Convergence
  import opened Interleaving
  import opened Provenance
  import opened OrderlySchedules

  // Building schedules -------------------------------------------------------------------------------------------

  /** Some schedule that keeps the rule leads from the empty system to this one. */
  ghost predicate Reached(rule: Rule, users: set<string>, s: System) {
    exists es :: ValidSchedule(Idle(users), es) && AllOrderly(rule, Idle(users), es) && Play(Idle(users), es) == s
  }

  lemma {:induction false} OneMoreOrderly(rule: Rule, s: System, es: seq<Event>, e: Event)
    requires AllOrderly(rule, s, es) && Orderly(rule, Play(s, es), e)
    ensures AllOrderly(rule, s, es + [e])
    decreases |es|
  {
    if es == [] {
      assert es + [e] == [e] && [e][1..] == [];
    } else {
      assert (es + [e])[1..] == es[1..] + [e];
      OneMoreOrderly(rule, Next(s, es[0]), es[1..], e);
    }
  }

  lemma {:induction false} Reach(rule: Rule, users: set<string>, s: System, e: Event) returns (s': System)
    requires Reached(rule, users, s) && Enabled(s, e) && Orderly(rule, s, e)
    ensures s' == Next(s, e) && Reached(rule, users, s')
  {
    var es :| ValidSchedule(Idle(users), es) && AllOrderly(rule, Idle(users), es) && Play(Idle(users), es) == s;
    PlayOneMore(Idle(users), es, e);
    OneMoreOrderly(rule, Idle(users), es, e);
    s' := Next(s, e);
  }

  lemma {:induction false} StartReached(rule: Rule, users: set<string>)
    ensures Reached(rule, users, Idle(users))
  {
    assert ValidSchedule(Idle(users), []) && AllOrderly(rule, Idle(users), []) && Play(Idle(users), []) == Idle(users);
  }

  /** No request but `i` owes a log row, and `i` breaks no further rule. */
  predicate Free(rule: Rule, s: System, i: nat) {
    && i < |s.requests| && rule != Strict && (rule != InTurn ==> !s.requests[i].job.Dropping?)
    && forall j :: 0 <= j < |s.requests| && j != i ==> !s.requests[j].phase.Log?
  }

  lemma {:induction false} ReachStep(rule: Rule, users: set<string>, s: System, i: nat) returns (s': System)
    requires Reached(rule, users, s) && Free(rule, s, i) && !s.requests[i].phase.Done?
    ensures s' == System(Execute(s.db, s.requests[i]).0, s.requests[i := Moved(s.db, s.requests[i])])
    ensures Reached(rule, users, s')
  {
    s' := Reach(rule, users, s, Advance(i));
  }

  /** A request executes all its remaining statements with nothing in between. */
  lemma {:induction false} ReachFinish(rule: Rule, users: set<string>, s: System, i: nat) returns (s': System)
    requires Reached(rule, users, s) && Free(rule, s, i) && Finish(s.db, s.requests[i]).1.Done?
    ensures Reached(rule, users, s')
    ensures var (db, phase) := Finish(s.db, s.requests[i]);
            s' == System(db, s.requests[i := Request(s.requests[i].job, phase)])
    decreases Rank(s.requests[i].phase)
  {
    var r := s.requests[i];
    if r.phase.Done? {
      assert s.requests[i := r] == s.requests;
      return s;
    }
    s' := ReachStep(rule, users, s, i);
    if Rank(Execute(s.db, r).1) < Rank(r.phase) {
      FinishStep(s.db, r);
      s' := ReachFinish(rule, users, s', i);
    }
  }

  /** A whole request arrives and finishes. */
  lemma {:induction false} ReachWhole(rule: Rule, users: set<string>, s: System, job: Job) returns (s': System)
    requires Reached(rule, users, s) && Integrity(s.db) && Fresh(s.db, OpOf(job)) && Admitted(s.db, job)
    requires rule != Strict && (rule != InTurn ==> !job.Dropping?)
    requires forall j :: 0 <= j < |s.requests| ==> !s.requests[j].phase.Log?
    ensures Reached(rule, users, s') && s'.db == Apply(s.db, OpOf(job)) && Integrity(s'.db)
    ensures |s'.requests| == |s.requests| + 1 && s'.requests[..|s.requests|] == s.requests
    ensures s'.requests[|s.requests|].phase.Done?
  {
    var n := |s.requests|;
    s' := Reach(rule, users, s, Arrive(job));
    var started := s'.db;
    SoloRunIsWholeOperation(started, job);
    s' := ReachFinish(rule, users, s', n);
    AppliesAlike(s.db, job);
    ApplyKeepsIntegrity(s.db, OpOf(job));
  }

  lemma {:induction false} DrawnAre(job: Job)
    ensures Drawn(job) ==
            match job
            case Upserting(_, _, _, _, _, ids) => {ids.row, ids.etag, ids.log, ids.bump}
            case Deleting(_, _, log, bump) => {log, bump}
            case Creating(_, _, _, _, _, _, token) => {token}
            case Dropping(_) => {}
  {
    var drawn := DrawnBy(OpOf(job));
    assert forall i :: 0 <= i < |drawn| ==> drawn[i] in drawn;
    if job.Upserting? {
      assert drawn[0] == job.ids.row && drawn[1] == job.ids.etag && drawn[2] == job.ids.log && drawn[3] == job.ids.bump;
    } else if job.Deleting? {
      assert drawn[0] == job.log && drawn[1] == job.bump;
    } else if job.Creating? {
      assert drawn[0] == job.token;
    }
  }

  lemma {:induction false} AppliesAlike(db: Db, job: Job)
    ensures Apply(Started(db, job), OpOf(job)).(used := Started(db, job).used) == Apply(db, OpOf(job))
  {
    DrawnAre(job);
  }

  // An update that waits -------------------------------------------------------------------------------------------

  function MakeCalendar(c: string, owner: string, token: Uuid): Job { Creating(c, owner, "", "", "", "", token) }

  function Put(c: string, u: string, ids: UpsertIds): Job {
    Upserting(None, c, u, "", ObjectFields("VEVENT", None, None, None), ids)
  }

  const FIRST_IDS := UpsertIds("r", "e", "l", "b")
  const SECOND_IDS := UpsertIds("R", "E", "L", "B")
  const SPENT: set<Uuid> := {"1", "r", "e", "l", "b", "R", "E", "L", "B"}

  /** A calendar, an object in it, and a second PUT of the object that is about to update its row. */
  ghost predicate Waiting(s: System, c: string, owner: string, u: string) {
    && Integrity(s.db) && s.db.used == SPENT && owner in s.db.users && (c, u) in s.db.objects
    && |s.requests| == 3 && s.requests[2] == Request(Put(c, u, SECOND_IDS), Update)
    && s.requests[0].phase.Done? && s.requests[1].phase.Done?
  }

  lemma {:induction false} FreshPut(db: Db, c: string, u: string, ids: UpsertIds)
    requires ids == FIRST_IDS || ids == SECOND_IDS
    requires ids.row !in db.used && ids.etag !in db.used && ids.log !in db.used && ids.bump !in db.used
    ensures Fresh(db, OpOf(Put(c, u, ids)))
  {
  }

  lemma {:induction false} ReachCalendar(rule: Rule, users: set<string>, c: string, owner: string) returns (s: System)
    requires owner in users && rule != Strict
    ensures Reached(rule, users, s) && Integrity(s.db) && s.db.used == {"1"} && owner in s.db.users
    ensures c in s.db.calendars && |s.requests| == 1 && s.requests[0].phase.Done?
  {
    StartReached(rule, users);
    s := ReachWhole(rule, users, Idle(users), MakeCalendar(c, owner, "1"));
  }

  lemma {:induction false} ReachObject(rule: Rule, users: set<string>, c: string, owner: string, u: string)
    returns (s: System)
    requires owner in users && rule != Strict
    ensures Reached(rule, users, s) && Integrity(s.db) && s.db.used == {"1", "r", "e", "l", "b"} && owner in s.db.users
    ensures (c, u) in s.db.objects
    ensures |s.requests| == 2 && s.requests[0].phase.Done? && s.requests[1].phase.Done?
  {
    var before := ReachCalendar(rule, users, c, owner);
    FreshPut(before.db, c, u, FIRST_IDS);
    s := ReachWhole(rule, users, before, Put(c, u, FIRST_IDS));
    InFront(before, s);
  }

  lemma {:induction false} StartedIsIntact(db: Db, job: Job)
    requires Integrity(db)
    ensures Integrity(Started(db, job))
  {
  }

  lemma {:induction false} ReachArrived(rule: Rule, users: set<string>, c: string, owner: string, u: string)
    returns (s: System)
    requires owner in users && rule != Strict
    ensures Reached(rule, users, s) && Integrity(s.db) && s.db.used == SPENT && owner in s.db.users
    ensures (c, u) in s.db.objects
    ensures |s.requests| == 3 && s.requests[2] == Request(Put(c, u, SECOND_IDS), Select)
    ensures s.requests[0].phase.Done? && s.requests[1].phase.Done?
  {
    var put := Put(c, u, SECOND_IDS);
    var before := ReachObject(rule, users, c, owner, u);
    FreshPut(before.db, c, u, SECOND_IDS);
    s := Reach(rule, users, before, Arrive(put));
    StartedIsIntact(before.db, put);
    DrawnAre(put);
  }

  lemma {:induction false} ReachWaiting(rule: Rule, users: set<string>, c: string, owner: string, u: string)
    returns (s: System)
    requires owner in users && rule != Strict
    ensures Reached(rule, users, s) && Waiting(s, c, owner, u)
  {
    var arrived := ReachArrived(rule, users, c, owner, u);
    s := ReachStep(rule, users, arrived, 2);
    assert s.db == arrived.db;
  }

  /** An UPDATE that matches no row still logs a modification. */
  lemma {:induction false} UpdateOfNothing(db: Db, job: Job)
    requires job.Upserting? && job.c in db.calendars && (job.c, job.u) !in db.objects
    ensures var (after, phase) := Finish(db, Request(job, Update));
            && phase == Done(false) && after.objects == db.objects
            && ObjectHistory(after, job.c, job.u) == ObjectHistory(db, job.c, job.u) + [Modified]
  {
    FinishStep(db, Request(job, Update));
    SoloLogging(db, job, Modified);
    var after := Finish(db, Request(job, Update)).0;
    HistoryLogged(db, after, job.c, job.u, Modified, LogTokenFor(job), job.c, job.u);
  }

  /** The second PUT is still about to update, and no other request is open. */
  ghost predicate StillWaits(s: System, c: string, u: string) {
    && |s.requests| >= 3 && s.requests[2] == Request(Put(c, u, SECOND_IDS), Update)
    && forall i :: 0 <= i < |s.requests| && i != 2 ==> s.requests[i].phase.Done?
  }

  /** Its row is gone. */
  ghost predicate Orphaned(s: System, c: string, u: string) {
    c in s.db.calendars && (c, u) !in s.db.objects && StillWaits(s, c, u)
  }

  lemma {:induction false} ReachOrphanDone(rule: Rule, users: set<string>, s: System, c: string, u: string)
    returns (s': System)
    requires Reached(rule, users, s) && rule != Strict && Orphaned(s, c, u)
    ensures Reached(rule, users, s') && Quiescent(s') && s'.db.objects == s.db.objects
    ensures ObjectHistory(s'.db, c, u) == ObjectHistory(s.db, c, u) + [Modified]
  {
    UpdateOfNothing(s.db, Put(c, u, SECOND_IDS));
    s' := ReachFinish(rule, users, s, 2);
  }

  /** Requests in front stay when one more has come and gone. */
  lemma {:induction false} InFront(s: System, later: System)
    requires |later.requests| == |s.requests| + 1 && later.requests[..|s.requests|] == s.requests
    ensures forall i :: 0 <= i < |s.requests| ==> later.requests[i] == s.requests[i]
  {
  }

  lemma {:induction false} AfterDeletion(db: Db, c: string, u: string)
    requires Integrity(db) && (c, u) in db.objects
    ensures var after := Apply(db, OpOf(Deleting(c, u, "d", "D"))); c in after.calendars && (c, u) !in after.objects
  {
  }

  lemma {:induction false} FreshDeletion(db: Db, c: string, u: string)
    requires db.used == SPENT
    ensures Fresh(db, OpOf(Deleting(c, u, "d", "D")))
  {
  }

  lemma {:induction false} AfterDrop(db: Db, c: string, u: string)
    ensures var after := Apply(db, OpOf(Dropping(c)));
            && after.users == db.users && after.used == db.used && c !in after.calendars
            && ObjectHistory(after, c, u) == []
  {
    RowsOfDropped(db.log, c, c);
  }

  lemma {:induction false} AfterMaking(db: Db, c: string, owner: string, u: string)
    requires Integrity(db) && c !in db.calendars && owner in db.users
    ensures var after := Apply(db, OpOf(MakeCalendar(c, owner, "2")));
            c in after.calendars && (c, u) !in after.objects && after.log == db.log
  {
  }

  /** A whole request comes and goes while the second PUT waits. */
  lemma {:induction false} ReachDuring(rule: Rule, users: set<string>, before: System, c: string, u: string, job: Job)
    returns (s: System)
    requires Reached(rule, users, before) && Integrity(before.db) && StillWaits(before, c, u)
    requires Fresh(before.db, OpOf(job)) && !job.Upserting?
    requires rule != Strict && (rule != InTurn ==> !job.Dropping?)
    ensures Reached(rule, users, s) && Integrity(s.db) && StillWaits(s, c, u)
    ensures s.db == Apply(before.db, OpOf(job))
  {
    s := ReachWhole(rule, users, before, job);
    InFront(before, s);
  }

  lemma {:induction false} WaitingStillWaits(s: System, c: string, owner: string, u: string)
    requires Waiting(s, c, owner, u)
    ensures StillWaits(s, c, u)
  {
  }

  lemma {:induction false} ReachDeleted(users: set<string>, c: string, owner: string, u: string)
    returns (s: System)
    requires owner in users
    ensures Reached(Careful, users, s) && Orphaned(s, c, u)
  {
    var waiting := ReachWaiting(Careful, users, c, owner, u);
    WaitingStillWaits(waiting, c, owner, u);
    FreshDeletion(waiting.db, c, u);
    AfterDeletion(waiting.db, c, u);
    s := ReachDuring(Careful, users, waiting, c, u, Deleting(c, u, "d", "D"));
  }

  lemma {:induction false} ReachDropped(users: set<string>, c: string, owner: string, u: string)
    returns (s: System)
    requires owner in users
    ensures Reached(InTurn, users, s) && Integrity(s.db) && StillWaits(s, c, u)
    ensures s.db.used == SPENT && owner in s.db.users && c !in s.db.calendars && ObjectHistory(s.db, c, u) == []
  {
    var waiting := ReachWaiting(InTurn, users, c, owner, u);
    WaitingStillWaits(waiting, c, owner, u);
    AfterDrop(waiting.db, c, u);
    s := ReachDuring(InTurn, users, waiting, c, u, Dropping(c));
  }

  /**
   Without strictness the life cycle can fail: an update that found its row matches none after a deletion,
   and logs a modification behind it. The log settles the object all the same.
   */
  lemma {:induction false} UpdateBehindDeletion(users: set<string>, c: string, owner: string, u: string)
    returns (s: System)
    requires owner in users
    ensures Reached(Careful, users, s) && Quiescent(s) && !LifeCycle(s.db)
  {
    s := ReachDeleted(users, c, owner, u);
    s := ReachOrphanDone(Careful, users, s, c, u);
    assert EndsLive(ObjectHistory(s.db, c, u)) && (c, u) !in s.db.objects;
  }

  /**
   Logging in turn is not enough either: when the calendar is dropped and made again under the update, the
   log of the new calendar knows an object that was never deleted there and is not live.
   */
  lemma {:induction false} DropUnderUpdate(users: set<string>, c: string, owner: string, u: string)
    returns (s: System)
    requires owner in users
    ensures Reached(InTurn, users, s) && Quiescent(s) && (c, u) !in s.db.objects && !CalendarSettles(s.db, c)
  {
    var dropped := ReachDropped(users, c, owner, u);
    AfterMaking(dropped.db, c, owner, u);
    s := ReachDuring(InTurn, users, dropped, c, u, MakeCalendar(c, owner, "2"));
    s := ReachOrphanDone(InTurn, users, s, c, u);
    assert ObjectHistory(s.db, c, u) == [Modified] && !Settles(s.db, c, u);
  }
}
