/**
 Requests that interleave at every awaited statement.

 A request is a job and the statement it will execute next. Any number of requests run at once; an
 event starts one or lets one execute its next statement. No transaction spans two statements.
 */
module Interleaving {
  import opened Wrappers
  import opened Schema
  import opened Operations
  import opened Ordering
  import opened Store
  import opened Multistatus
  import opened Hrefs
  import opened History
  import opened Validators
  import opened SyncReport

  datatype Job =
    | Upserting(ifMatch: Option<string>, c: string, u: string, data: string, fields: ObjectFields, ids: UpsertIds)
    | Deleting(c: string, u: string, log: Uuid, bump: Uuid)
    | Creating(c: string, owner: string, name: string, description: string, color: string, timezone: string,
        token: Uuid)
    | Dropping(c: string)

  /** The statement a request executes next. */
  datatype Phase = Check | Select | Insert | Update | Remove | Log(kind: ChangeType) | Bump | Fetch | Done(ok: bool)

  datatype Request = Request(job: Job, phase: Phase)

  datatype System = System(db: Db, requests: seq<Request>)

  datatype Event = Arrive(job: Job) | Advance(i: nat)

  // One statement ------------------------------------------------------------------------------------------

  function FirstPhase(job: Job): Phase {
    match job
    case Upserting(ifMatch, _, _, _, _, _) => if ifMatch.Some? && ifMatch.value != "*" then Check else Select
    case Deleting(_, _, _, _) => Remove
    case Creating(_, _, _, _, _, _, _) => Check
    case Dropping(_) => Remove
  }

  function NewCalendar(job: Job): Calendar
    requires job.Creating?
  {
    Calendar(job.c, job.owner, job.name, job.description, job.color, job.timezone, SyncToken(job.token),
        SyncToken(job.token))
  }

  function LogTokenFor(job: Job): string
    requires job.Upserting? || job.Deleting?
  {
    if job.Upserting? then SyncToken(job.ids.log) else SyncToken(job.log)
  }

  function BumpTokenFor(job: Job): string
    requires job.Upserting? || job.Deleting?
  {
    if job.Upserting? then SyncToken(job.ids.bump) else SyncToken(job.bump)
  }

  function UidFor(job: Job): string
    requires job.Upserting? || job.Deleting?
  {
    job.u
  }

  /** Execute the next statement of a request. A phase its job never reaches leaves everything as it is. */
  function Execute(db: Db, r: Request): (Db, Phase) {
    var job := r.job;
    match (job, r.phase)
    case (Upserting(ifMatch, c, u, _, _, _), Check) =>
      var existing := SelectObject(db, c, u);
      if existing.Some? && ifMatch == Some(existing.value.etag) then (db, Select) else (db, Done(false))
    case (Upserting(_, c, u, _, _, _), Select) =>
      (db, if SelectObject(db, c, u).None? then Insert else Update)
    case (Upserting(_, c, u, data, fields, ids), Insert) =>
      (match InsertObject(db, CalendarObject(ids.row, c, u, Etag(ids.etag), data, fields))
       case Some(after) => (after, Log(Created))
       case None => (db, Done(false)))
    case (Upserting(_, c, u, data, fields, ids), Update) =>
      (UpdateObject(db, c, u, Etag(ids.etag), data, fields), Log(Modified))
    case (Deleting(c, u, _, _), Remove) =>
      if (c, u) in db.objects then (DeleteObjectRow(db, c, u), Log(Deleted)) else (db, Done(false))
    case (Creating(c, _, _, _, _, _, _), Check) =>
      (db, if c in db.calendars then Done(false) else Insert)
    case (Creating(_, _, _, _, _, _, _), Insert) =>
      (match InsertCalendar(db, NewCalendar(job)) case Some(after) => (after, Fetch) case None => (db, Done(false)))
    case (Creating(c, _, _, _, _, _, _), Fetch) => (db, Done(c in db.calendars))
    case (Dropping(c), Remove) => (DeleteCalendarRow(db, c), Done(c in db.calendars))
    case (Upserting(_, c, u, _, _, _), Fetch) => (db, Done((c, u) in db.objects))
    case (_, Log(kind)) =>
      if job.Upserting? || job.Deleting? then
        match InsertChange(db, job.c, UidFor(job), kind, LogTokenFor(job))
        case Some(after) => (after, Bump)
        case None => (db, Done(false))
      else (db, r.phase)
    case (_, Bump) =>
      if job.Upserting? || job.Deleting? then
        (SetTokens(db, job.c, BumpTokenFor(job)), if job.Upserting? then Fetch else Done(true))
      else (db, r.phase)
    case _ => (db, r.phase)
  }

  // Alone, a request is a whole operation ----------------------------------------------------------------------

  function Rank(p: Phase): nat {
    match p
    case Check => 6 case Select => 5 case Insert => 4 case Update => 4 case Remove => 4
    case Log(_) => 3 case Bump => 2 case Fetch => 1 case Done(_) => 0
  }

  /** Let one request execute all its statements with nothing in between. */
  function Finish(db: Db, r: Request): (Db, Phase)
    decreases Rank(r.phase)
  {
    var (after, phase) := Execute(db, r);
    if Rank(phase) < Rank(r.phase) then Finish(after, Request(r.job, phase)) else (after, phase)
  }

  function OpOf(job: Job): Op {
    match job
    case Upserting(_, c, u, data, fields, ids) => Upsert(c, u, data, fields, ids)
    case Deleting(c, u, log, bump) => Delete(c, u, log, bump)
    case Creating(c, owner, name, description, color, timezone, token) =>
      CreateCalendar(c, owner, name, description, color, timezone, token)
    case Dropping(c) => DeleteCalendar(c)
  }

  function Drawn(job: Job): set<Uuid> {
    set x | x in DrawnBy(OpOf(job)) :: x
  }

  function Started(db: Db, job: Job): Db {
    db.(used := db.used + Drawn(job))
  }

  predicate Admitted(db: Db, job: Job) {
    job.Upserting? && job.ifMatch.Some? && job.ifMatch.value != "*" ==>
      (job.c, job.u) in db.objects && job.ifMatch.value == db.objects[(job.c, job.u)].etag
  }

  predicate Succeeds(db: Db, job: Job) {
    match job
    case Upserting(_, c, _, _, _, _) => Admitted(db, job) && c in db.calendars
    case Deleting(c, u, _, _) => (c, u) in db.objects
    case Creating(c, owner, _, _, _, _, _) => c !in db.calendars && owner in db.users
    case Dropping(c) => c in db.calendars
  }

  /** One statement of an uninterrupted request. */
  lemma {:induction false} FinishStep(db: Db, r: Request)
    requires Rank(Execute(db, r).1) < Rank(r.phase)
    ensures Finish(db, r) == Finish(Execute(db, r).0, Request(r.job, Execute(db, r).1))
  {
  }

  lemma {:induction false} FinishDone(db: Db, job: Job, ok: bool)
    ensures Finish(db, Request(job, Done(ok))) == (db, Done(ok))
  {
  }

  lemma {:induction false} SoloLogging(db: Db, job: Job, kind: ChangeType)
    requires (job.Upserting? || job.Deleting?) && job.c in db.calendars
    ensures var (after, phase) := Finish(db, Request(job, Log(kind)));
            && after == db.(log := Logged(db, job.c, UidFor(job), kind, LogTokenFor(job)),
                            nextLogId := db.nextLogId + 1,
                            calendars := db.calendars[job.c := WithToken(db.calendars[job.c], BumpTokenFor(job))])
            && phase == Done(job.Upserting? ==> (job.c, job.u) in db.objects)
  {
    var r := Request(job, Log(kind));
    FinishStep(db, r);
    var db1 := Execute(db, r).0;
    FinishStep(db1, Request(job, Bump));
    var db2 := Execute(db1, Request(job, Bump)).0;
    if job.Upserting? {
      FinishStep(db2, Request(job, Fetch));
      FinishDone(db2, job, (job.c, job.u) in db2.objects);
    } else {
      FinishDone(db2, job, true);
    }
  }

  /** Whichever branch an upsert takes, its row statement stores the row and owes the log entry. */
  lemma {:induction false} RowStatement(db: Db, job: Job)
    requires ObjectIntegrity(db) && job.Upserting? && job.c in db.calendars
    ensures var known := (job.c, job.u) in db.objects;
            var id := if known then db.objects[(job.c, job.u)].id else job.ids.row;
            Execute(db, Request(job, if known then Update else Insert)) ==
            (db.(objects := db.objects[(job.c, job.u) :=
                   CalendarObject(id, job.c, job.u, Etag(job.ids.etag), job.data, job.fields)]),
             Log(if known then Modified else Created))
  {
  }

  lemma {:induction false} SoloUpsert(db: Db, job: Job)
    requires ObjectIntegrity(db) && job.Upserting?
    ensures Finish(db, Request(job, Select)).0 ==
            UpsertDb(db, job.c, job.u, job.data, job.fields, job.ids).(used := db.used)
    ensures Finish(db, Request(job, Select)).1 == Done(job.c in db.calendars)
  {
    FinishStep(db, Request(job, Select));
    var phase := if (job.c, job.u) in db.objects then Update else Insert;
    var r := Request(job, phase);
    assert Execute(db, Request(job, Select)) == (db, phase);
    if job.c in db.calendars {
      RowStatement(db, job);
      FinishStep(db, r);
      SoloLogging(Execute(db, r).0, job, if phase == Update then Modified else Created);
    } else {
      FinishStep(db, r);
      FinishDone(db, job, false);
    }
  }

  lemma {:induction false} SoloDelete(db: Db, job: Job)
    requires Integrity(db) && job.Deleting?
    ensures Finish(db, Request(job, Remove)) ==
            (DeleteDb(db, job.c, job.u, job.log, job.bump).(used := db.used), Done((job.c, job.u) in db.objects))
  {
    FinishStep(db, Request(job, Remove));
    if (job.c, job.u) in db.objects {
      SoloLogging(Execute(db, Request(job, Remove)).0, job, Deleted);
    } else {
      FinishDone(db, job, false);
    }
  }

  lemma {:induction false} SoloCreate(db: Db, job: Job)
    requires Integrity(db) && job.Creating?
    ensures Finish(db, Request(job, Check)) ==
            (Apply(db, OpOf(job)).(used := db.used), Done(job.c !in db.calendars && job.owner in db.users))
  {
    FinishStep(db, Request(job, Check));
    if job.c in db.calendars {
      FinishDone(db, job, false);
    } else {
      FinishStep(db, Request(job, Insert));
      var after := Execute(db, Request(job, Insert)).0;
      if job.owner in db.users {
        FinishStep(after, Request(job, Fetch));
        FinishDone(after, job, true);
      } else {
        FinishDone(db, job, false);
      }
    }
  }

  /**
   The statements of a request, executed without interruption, amount to the closed form of its
   operation; a request that the If-Match check refuses changes no table. It reports success exactly when
   it had something to act on.
   */
  lemma {:induction false} SoloRunIsWholeOperation(db: Db, job: Job)
    requires Integrity(db)
    ensures Finish(db, Request(job, FirstPhase(job))).1 == Done(Succeeds(db, job))
    ensures Finish(db, Request(job, FirstPhase(job))).0 ==
            if Admitted(db, job) then Apply(db, OpOf(job)).(used := db.used) else db
  {
    match job
    case Upserting(_, c, u, _, _, _) =>
      if FirstPhase(job) == Check { FinishStep(db, Request(job, Check)); }
      if Admitted(db, job) { SoloUpsert(db, job); } else { FinishDone(db, job, false); }
    case Deleting(_, _, _, _) => SoloDelete(db, job);
    case Creating(_, _, _, _, _, _, _) => SoloCreate(db, job);
    case Dropping(c) =>
      FinishStep(db, Request(job, Remove));
      FinishDone(DeleteCalendarRow(db, c), job, c in db.calendars);
  }

  // Schedules ------------------------------------------------------------------------------------------------

  /** An arriving request draws fresh UUIDs; only an unfinished request can go on. */
  ghost predicate Enabled(s: System, e: Event) {
    match e
    case Arrive(job) => Fresh(s.db, OpOf(job))
    case Advance(i) => i < |s.requests| && !s.requests[i].phase.Done?
  }

  function Next(s: System, e: Event): System {
    match e
    case Arrive(job) => System(Started(s.db, job), s.requests + [Request(job, FirstPhase(job))])
    case Advance(i) =>
      if i < |s.requests| then
        var (db, phase) := Execute(s.db, s.requests[i]);
        System(db, s.requests[i := Request(s.requests[i].job, phase)])
      else s
  }

  ghost predicate ValidSchedule(s: System, es: seq<Event>)
    decreases |es|
  {
    es == [] || (Enabled(s, es[0]) && ValidSchedule(Next(s, es[0]), es[1..]))
  }

  function Play(s: System, es: seq<Event>): System
    decreases |es|
  {
    if es == [] then s else Play(Next(s, es[0]), es[1..])
  }

  ghost predicate Quiescent(s: System) {
    forall i :: 0 <= i < |s.requests| ==> s.requests[i].phase.Done?
  }

  // Every live uid is logged or owed -----------------------------------------------------------------------------

  ghost predicate InLog(db: Db, c: string, u: string) {
    exists r :: r in db.log && r.calendarId == c && r.objectUid == u
  }

  predicate Owes(r: Request, c: string, u: string) {
    r.phase.Log? && (r.job.Upserting? || r.job.Deleting?) && r.job.c == c && UidFor(r.job) == u
  }

  ghost predicate LoggedOrOwed(s: System) {
    forall c, u :: (c, u) in s.db.objects ==>
                     InLog(s.db, c, u) || exists i :: 0 <= i < |s.requests| && Owes(s.requests[i], c, u)
  }

  /** Rows point at calendars and carry their own key: (calendar, uid) names at most one row. */
  ghost predicate SystemInv(s: System) {
    ObjectIntegrity(s.db) && LoggedOrOwed(s)
  }

  lemma {:induction false} ExecuteKeepsKeys(db: Db, r: Request)
    requires ObjectIntegrity(db)
    ensures ObjectIntegrity(Execute(db, r).0)
  {
  }

  /** A statement makes no object live without owing it, and loses a log row only together with its calendar. */
  lemma {:induction false} ExecuteKeepsDebts(db: Db, r: Request, c: string, u: string)
    requires ObjectIntegrity(db)
    requires (c, u) in Execute(db, r).0.objects
    ensures var (after, phase) := Execute(db, r);
            || Owes(Request(r.job, phase), c, u)
            || InLog(after, c, u)
            || ((c, u) in db.objects && !InLog(db, c, u) && !Owes(r, c, u))
  {
    var (after, phase) := Execute(db, r);
    if Owes(r, c, u) {
      assert c in db.calendars;
      assert after.log == db.log + [after.log[|db.log|]];
      assert after.log[|db.log|] in after.log;
    } else if InLog(db, c, u) {
      var row :| row in db.log && row.calendarId == c && row.objectUid == u;
      if r.job.Dropping? && r.phase == Remove {
        DropRowsMembers(db.log, r.job.c);
      }
      assert row in after.log;
    }
  }

  lemma {:induction false} AdvanceKeepsDebts(s: System, i: nat)
    requires SystemInv(s) && i < |s.requests|
    ensures LoggedOrOwed(Next(s, Advance(i)))
  {
    var s' := Next(s, Advance(i));
    forall c, u | (c, u) in s'.db.objects
      ensures InLog(s'.db, c, u) || exists j :: 0 <= j < |s'.requests| && Owes(s'.requests[j], c, u)
    {
      ExecuteKeepsDebts(s.db, s.requests[i], c, u);
      if Owes(s'.requests[i], c, u) {
      } else if !InLog(s'.db, c, u) {
        var j :| 0 <= j < |s.requests| && Owes(s.requests[j], c, u);
        assert j != i;
        assert Owes(s'.requests[j], c, u);
      }
    }
  }

  lemma {:induction false} NextKeepsInv(s: System, e: Event)
    requires SystemInv(s) && Enabled(s, e)
    ensures SystemInv(Next(s, e))
  {
    match e
    case Advance(i) =>
      ExecuteKeepsKeys(s.db, s.requests[i]);
      AdvanceKeepsDebts(s, i);
    case Arrive(job) =>
      var s' := Next(s, e);
      forall c, u | (c, u) in s'.db.objects && !InLog(s'.db, c, u)
        ensures exists j :: 0 <= j < |s'.requests| && Owes(s'.requests[j], c, u)
      {
        assert !InLog(s.db, c, u);
        var j :| 0 <= j < |s.requests| && Owes(s.requests[j], c, u);
        assert s'.requests[j] == s.requests[j];
      }
  }

  lemma {:induction false} PlayKeepsInv(s: System, es: seq<Event>)
    requires SystemInv(s) && ValidSchedule(s, es)
    ensures SystemInv(Play(s, es))
    decreases |es|
  {
    if es != [] {
      NextKeepsInv(s, es[0]);
      PlayKeepsInv(Next(s, es[0]), es[1..]);
    }
  }

  lemma {:induction false} ReportNames(db: Db, ctx: HrefContext, c: string, includeData: bool, rows: seq<SyncChange>,
      row: SyncChange)
    requires row in rows && (c, row.objectUid) in db.objects
    ensures exists p :: p in DeltaParts(db, ctx, c, includeData, rows) && p.Response?
                        && p.href == ObjectHref(ctx, c, row.objectUid)
  {
    if row == rows[0] {
      var entry := EntryFor(db, ctx, c, includeData, row);
      assert entry[0] in DeltaParts(db, ctx, c, includeData, rows);
    } else {
      assert row in rows[1..];
      ReportNames(db, ctx, c, includeData, rows[1..], row);
    }
  }

  /**
   However requests interleaved, once all have finished the whole-log report names every live uid.
   */
  lemma {:induction false} QuiescentReportNamesLiveUids(users: set<string>, es: seq<Event>, ctx: HrefContext,
      c: string, includeData: bool, u: string)
    requires ValidSchedule(System(EmptyDb(users), []), es)
    requires var s := Play(System(EmptyDb(users), []), es); Quiescent(s) && (c, u) in s.db.objects
    ensures var db := Play(System(EmptyDb(users), []), es).db;
            exists p :: p in DeltaParts(db, ctx, c, includeData, RowsOf(db.log, c)) && p.Response?
                        && p.href == ObjectHref(ctx, c, u)
  {
    PlayKeepsInv(System(EmptyDb(users), []), es);
    var db := Play(System(EmptyDb(users), []), es).db;
    assert InLog(db, c, u);
    var row :| row in db.log && row.calendarId == c && row.objectUid == u;
    FilterMember(db.log, OfCalendar(c), row);
    ReportNames(db, ctx, c, includeData, RowsOf(db.log, c), row);
  }

  // The ctag between quiet states ----------------------------------------------------------------------------------

  predicate WillBump(r: Request, c: string) {
    (r.phase.Log? || r.phase == Bump) && (r.job.Upserting? || r.job.Deleting?) && r.job.c == c
  }

  /** Since `db`: the ctag of `c` is new, or the objects are the old ones, or some request is about to bump. */
  ghost predicate CtagPending(db: Db, s: System, c: string) {
    c in s.db.calendars ==>
      || s.db.calendars[c].ctag !in Tokens(db.used)
      || (c in db.calendars && s.db.calendars[c].ctag == db.calendars[c].ctag
          && (SameObjects(db, s.db, c) || exists i :: 0 <= i < |s.requests| && WillBump(s.requests[i], c)))
  }

  /** The UUIDs of unfinished requests were drawn after `db`. */
  ghost predicate DrawnLater(db: Db, s: System) {
    db.used <= s.db.used
    && forall i :: 0 <= i < |s.requests| && !s.requests[i].phase.Done? ==> Drawn(s.requests[i].job) !! db.used
  }

  lemma {:induction false} BumpIsNew(db: Db, job: Job)
    requires Drawn(job) !! db.used
    ensures job.Upserting? || job.Deleting? ==> BumpTokenFor(job) !in Tokens(db.used)
    ensures job.Creating? ==> SyncToken(job.token) !in Tokens(db.used)
  {
    var drawn := DrawnBy(OpOf(job));
    match job
    case Upserting(_, _, _, _, _, ids) => assert drawn[3] in drawn; FreshToken(db.used, ids.bump);
    case Deleting(_, _, _, bump) => assert drawn[1] in drawn; FreshToken(db.used, bump);
    case Creating(_, _, _, _, _, _, token) => assert drawn[0] in drawn; FreshToken(db.used, token);
    case Dropping(_) =>
  }

  /** The effect of one statement on the ctag and the objects of a calendar. */
  lemma {:induction false} ExecuteOnCalendar(db: Db, r: Request, c: string)
    requires !r.phase.Done?
    ensures var (after, phase) := Execute(db, r);
            c in after.calendars ==>
              || (r.job.Creating? && after.calendars[c].ctag == SyncToken(r.job.token))
              || ((r.job.Upserting? || r.job.Deleting?) && after.calendars[c].ctag == BumpTokenFor(r.job))
              || (c in db.calendars && after.calendars[c].ctag == db.calendars[c].ctag
                  && (SameObjects(db, after, c) || WillBump(Request(r.job, phase), c))
                  && (WillBump(r, c) ==> WillBump(Request(r.job, phase), c)))
  {
  }

  lemma {:induction false} NextKeepsPending(db: Db, s: System, e: Event, c: string)
    requires Enabled(s, e) && DrawnLater(db, s) && CtagPending(db, s, c)
    ensures DrawnLater(db, Next(s, e)) && CtagPending(db, Next(s, e), c)
  {
    var s' := Next(s, e);
    match e
    case Arrive(job) =>
      forall x | x in Drawn(job)
        ensures x !in db.used
      {
        var i :| 0 <= i < |DrawnBy(OpOf(job))| && DrawnBy(OpOf(job))[i] == x;
      }
      if i :| 0 <= i < |s.requests| && WillBump(s.requests[i], c) {
        assert s'.requests[i] == s.requests[i];
      }
      assert forall u :: SelectObject(s'.db, c, u) == SelectObject(s.db, c, u);
    case Advance(i) =>
      ExecuteOnCalendar(s.db, s.requests[i], c);
      BumpIsNew(db, s.requests[i].job);
      assert s'.requests[i] == Request(s.requests[i].job, Execute(s.db, s.requests[i]).1);
      if j :| 0 <= j < |s.requests| && WillBump(s.requests[j], c) {
        if j != i { assert s'.requests[j] == s.requests[j]; }
      }
  }

  lemma {:induction false} PlayKeepsPending(db: Db, s: System, es: seq<Event>, c: string)
    requires ValidSchedule(s, es) && DrawnLater(db, s) && CtagPending(db, s, c)
    ensures CtagPending(db, Play(s, es), c)
    decreases |es|
  {
    if es != [] {
      NextKeepsPending(db, s, es[0], c);
      PlayKeepsPending(db, Next(s, es[0]), es[1..], c);
    }
  }

  /** Every ctag was drawn, and so was whatever a request may still write. */
  ghost predicate CtagsDrawn(s: System) {
    && (forall c :: c in s.db.calendars ==> s.db.calendars[c].ctag in Tokens(s.db.used))
    && (forall i :: 0 <= i < |s.requests| ==> Drawn(s.requests[i].job) <= s.db.used)
  }

  lemma {:induction false} BumpIsDrawn(job: Job, used: set<Uuid>)
    requires Drawn(job) <= used
    ensures job.Upserting? || job.Deleting? ==> BumpTokenFor(job) in Tokens(used)
    ensures job.Creating? ==> SyncToken(job.token) in Tokens(used)
  {
    var drawn := DrawnBy(OpOf(job));
    match job
    case Upserting(_, _, _, _, _, ids) => assert drawn[3] in drawn && ids.bump in Drawn(job);
    case Deleting(_, _, _, bump) => assert drawn[1] in drawn && bump in Drawn(job);
    case Creating(_, _, _, _, _, _, token) => assert drawn[0] in drawn && token in Drawn(job);
    case Dropping(_) =>
  }

  lemma {:induction false} NextKeepsDrawn(s: System, e: Event)
    requires CtagsDrawn(s) && Enabled(s, e)
    ensures CtagsDrawn(Next(s, e))
  {
    match e
    case Arrive(job) => assert Tokens(s.db.used) <= Tokens(Next(s, e).db.used);
    case Advance(i) =>
      BumpIsDrawn(s.requests[i].job, s.db.used);
      assert Execute(s.db, s.requests[i]).0.used == s.db.used;
      forall c | c in Next(s, e).db.calendars
        ensures Next(s, e).db.calendars[c].ctag in Tokens(s.db.used)
      {
        ExecuteOnCalendar(s.db, s.requests[i], c);
      }
  }

  lemma {:induction false} PlayKeepsDrawn(s: System, es: seq<Event>)
    requires CtagsDrawn(s) && ValidSchedule(s, es)
    ensures CtagsDrawn(Play(s, es))
    decreases |es|
  {
    if es != [] {
      NextKeepsDrawn(s, es[0]);
      PlayKeepsDrawn(Next(s, es[0]), es[1..]);
    }
  }

  /**
   Between two moments without open requests the ctag stays sound under any interleaving: the same
   ctag means the same objects.
   */
  lemma {:induction false} QuiescentCtagSoundness(users: set<string>, es: seq<Event>, more: seq<Event>, c: string)
    requires ValidSchedule(System(EmptyDb(users), []), es)
    requires var s := Play(System(EmptyDb(users), []), es);
             && Quiescent(s) && ValidSchedule(s, more) && Quiescent(Play(s, more))
             && c in s.db.calendars && c in Play(s, more).db.calendars
             && Play(s, more).db.calendars[c].ctag == s.db.calendars[c].ctag
    ensures var s := Play(System(EmptyDb(users), []), es);
            SameObjects(s.db, Play(s, more).db, c)
  {
    PlayKeepsDrawn(System(EmptyDb(users), []), es);
    var s := Play(System(EmptyDb(users), []), es);
    PlayKeepsPending(s.db, s, more, c);
  }

  // What interleaving breaks ------------------------------------------------------------------------------------------

  /** Some schedule leads from one system to the other. */
  ghost predicate Leads(s: System, s': System) {
    exists es :: ValidSchedule(s, es) && Play(s, es) == s'
  }

  lemma {:induction false} PlayOneMore(s: System, es: seq<Event>, e: Event)
    requires ValidSchedule(s, es) && Enabled(Play(s, es), e)
    ensures ValidSchedule(s, es + [e]) && Play(s, es + [e]) == Next(Play(s, es), e)
    decreases |es|
  {
    if es == [] {
      assert es + [e] == [e] && [e][1..] == [];
    } else {
      assert (es + [e])[1..] == es[1..] + [e];
      PlayOneMore(Next(s, es[0]), es[1..], e);
    }
  }

  lemma {:induction false} LeadsOn(s: System, s1: System, e: Event) returns (s2: System)
    requires Leads(s, s1) && Enabled(s1, e)
    ensures s2 == Next(s1, e) && Leads(s, s2)
  {
    var es :| ValidSchedule(s, es) && Play(s, es) == s1;
    PlayOneMore(s, es, e);
    s2 := Next(s1, e);
  }

  lemma {:induction false} Stays(s: System)
    ensures Leads(s, s)
  {
    assert ValidSchedule(s, []) && Play(s, []) == s;
  }

  /** A schedule can let one request execute all its remaining statements. */
  lemma {:induction false} LeadsToFinish(s: System, s1: System, i: nat) returns (s2: System)
    requires Leads(s, s1) && i < |s1.requests|
    requires Finish(s1.db, s1.requests[i]).1.Done?
    ensures Leads(s, s2)
    ensures var (db, phase) := Finish(s1.db, s1.requests[i]);
            s2 == System(db, s1.requests[i := Request(s1.requests[i].job, phase)])
    decreases Rank(s1.requests[i].phase)
  {
    var r := s1.requests[i];
    if r.phase.Done? {
      assert s1.requests[i := r] == s1.requests;
      return s1;
    }
    s2 := LeadsOn(s, s1, Advance(i));
    if Rank(Execute(s1.db, r).1) < Rank(r.phase) {
      FinishStep(s1.db, r);
      s2 := LeadsToFinish(s, s2, i);
    }
  }

  lemma {:induction false} BothArrive(db: Db, one: Job, two: Job) returns (s: System)
    requires Fresh(db, OpOf(one)) && Fresh(Started(db, one), OpOf(two))
    ensures Leads(System(db, []), s)
    ensures s == System(Started(Started(db, one), two), [Request(one, FirstPhase(one)), Request(two, FirstPhase(two))])
  {
    var s0 := System(db, []);
    Stays(s0);
    s := LeadsOn(s0, s0, Arrive(one));
    s := LeadsOn(s0, s, Arrive(two));
  }

  /** The deletion has removed its row and still owes its log entry while the upsert begins. */
  lemma {:induction false} RowGoesFirst(db: Db, del: Job, put: Job) returns (s: System)
    requires Integrity(db) && del.Deleting? && put.Upserting? && put.ifMatch.None? && (del.c, del.u) in db.objects
    requires Fresh(db, OpOf(del)) && Fresh(Started(db, del), OpOf(put))
    ensures Leads(System(db, []), s)
    ensures s == System(DeleteObjectRow(Started(Started(db, del), put), del.c, del.u),
                        [Request(del, Log(Deleted)), Request(put, Select)])
  {
    s := BothArrive(db, del, put);
    s := LeadsOn(System(db, []), s, Advance(0));
  }

  /**
   A deletion and a re-creation of one object can interleave so that both succeed, the object is live,
   and its last log row is the deletion: the whole-log replay then misses it (`ConvergesIff`).
   */
  lemma {:induction false} InterleavingMisordersLog(db: Db, del: Job, put: Job) returns (s: System)
    requires Integrity(db) && del.Deleting? && put.Upserting? && put.ifMatch.None?
    requires del.c == put.c && del.u == put.u && (del.c, del.u) in db.objects
    requires Fresh(db, OpOf(del)) && Fresh(Started(db, del), OpOf(put))
    ensures Leads(System(db, []), s) && s.requests == [Request(del, Done(true)), Request(put, Done(true))]
    ensures (del.c, del.u) in s.db.objects
    ensures exists before, id, t :: s.db.log == before + [SyncChange(id, del.c, del.u, Deleted, t)]
  {
    var s0 := System(db, []);
    s := RowGoesFirst(db, del, put);  // the row is deleted
    SoloUpsert(s.db, put);
    s := LeadsToFinish(s0, s, 1);     // the object is created again and logged
    assert s.requests == [Request(del, Log(Deleted)), Request(put, Done(true))];
    SoloLogging(s.db, del, Deleted);
    ghost var before, id := s.db.log, s.db.nextLogId;
    s := LeadsToFinish(s0, s, 0);     // only now the deletion is logged
    assert s.db.log == before + [SyncChange(id, del.c, del.u, Deleted, LogTokenFor(del))];
  }

  /** With the deletion as the last row of a live object, the whole-log replay leaves it out. */
  lemma {:induction false} MisorderedLogMissesObject(
    db: Db, ctx: HrefContext, c: string, u: string, includeData: bool, replica: Replica, before: seq<SyncChange>,
        id: nat, t: string)
    requires (c, u) in db.objects && db.log == before + [SyncChange(id, c, u, Deleted, t)]
    ensures ObjectHref(ctx, c, u) in View(db, ctx, c, includeData)
    ensures ObjectHref(ctx, c, u) !in ReplayRows(replica, db, ctx, c, includeData, RowsOf(db.log, c))
  {
    var row := [SyncChange(id, c, u, Deleted, t)];
    assert row[1..] == [];
    assert Filter(row, OfCalendar(c)) == row;
    assert Kinds(row[1..], u) == [];
    assert Kinds(row, u) == [Deleted];
    FilterAppend(before, row, OfCalendar(c));
    KindsAppend(RowsOf(before, c), row, u);
    ReplaySettles(replica, db, ctx, c, includeData, RowsOf(db.log, c), u);
    ViewAt(db, ctx, c, includeData, u);
  }

  /** Both checks pass before either write. */
  lemma {:induction false} BothChecksPass(db: Db, one: Job, two: Job) returns (s: System)
    requires one.Upserting? && two.Upserting?
    requires one.c == two.c && one.u == two.u && (one.c, one.u) in db.objects
    requires one.ifMatch == two.ifMatch == Some(db.objects[(one.c, one.u)].etag) && one.ifMatch != Some("*")
    requires Fresh(db, OpOf(one)) && Fresh(Started(db, one), OpOf(two))
    ensures Leads(System(db, []), s)
    ensures s == System(Started(Started(db, one), two), [Request(one, Select), Request(two, Select)])
  {
    var s0 := System(db, []);
    s := BothArrive(db, one, two);
    s := LeadsOn(s0, s, Advance(0));
    assert s.requests == [Request(one, Select), Request(two, Check)];
    s := LeadsOn(s0, s, Advance(1));
  }

  /** Two conditional writes with the same etag can interleave so that both succeed and the second one stays. */
  lemma {:induction false} InterleavingLosesUpdate(db: Db, one: Job, two: Job) returns (s: System)
    requires Integrity(db) && one.Upserting? && two.Upserting?
    requires one.c == two.c && one.u == two.u && (one.c, one.u) in db.objects
    requires one.ifMatch == two.ifMatch == Some(db.objects[(one.c, one.u)].etag) && one.ifMatch != Some("*")
    requires Fresh(db, OpOf(one)) && Fresh(Started(db, one), OpOf(two))
    ensures Leads(System(db, []), s) && s.requests == [Request(one, Done(true)), Request(two, Done(true))]
    ensures (one.c, one.u) in s.db.objects && s.db.objects[(one.c, one.u)].icalData == two.data
  {
    var s0 := System(db, []);
    s := BothChecksPass(db, one, two);
    SoloUpsert(s.db, one);
    s := LeadsToFinish(s0, s, 0);
    assert s.requests == [Request(one, Done(true)), Request(two, Select)];
    SoloUpsert(s.db, two);
    s := LeadsToFinish(s0, s, 1);
  }
}
