/**
 Where the tokens and etags of an interleaved system come from.

 Requests are never forgotten, and each draws its own UUIDs. Every etag in the tables is traced to the
 upsert that wrote it, every calendar token to the request that gave it, and every log token to the
 request that logged it. So the promises of `Validators` hold at every moment of every schedule.
 */
module Provenance {
  import opened Schema
  import opened Operations
  import opened Ordering
  import opened Store
  import opened Multistatus
  import opened Hrefs
  import opened History
  import opened Validators
  import opened SyncReport
  import opened Convergence
  import opened Interleaving

  // Draws ---------------------------------------------------------------------------------------------------

  ghost predicate DistinctDraws(requests: seq<Request>, used: set<Uuid>) {
    && (forall i :: 0 <= i < |requests| ==> OwnDraws(requests[i].job, used))
    && (forall i, j :: 0 <= i < j < |requests| ==> Drawn(requests[i].job) !! Drawn(requests[j].job))
  }

  /** The UUIDs of one job are different and were drawn. */
  ghost predicate OwnDraws(job: Job, used: set<Uuid>) {
    Drawn(job) <= used && Distinct(DrawnBy(OpOf(job)))
  }

  predicate Writes(job: Job) { job.Upserting? || job.Deleting? }

  function LogIdOf(job: Job): Uuid
    requires Writes(job)
  {
    if job.Upserting? then job.ids.log else job.log
  }

  /** The UUID behind the token a job gives its calendar. */
  function TokenIdOf(job: Job): Uuid
    requires !job.Dropping?
  {
    match job
    case Upserting(_, _, _, _, _, ids) => ids.bump
    case Deleting(_, _, _, bump) => bump
    case Creating(_, _, _, _, _, _, token) => token
  }

  lemma {:induction false} IdsAreDrawn(job: Job)
    ensures Writes(job) ==> LogIdOf(job) in Drawn(job)
    ensures !job.Dropping? ==> TokenIdOf(job) in Drawn(job)
    ensures job.Upserting? ==> job.ids.etag in Drawn(job)
    ensures Writes(job) && Distinct(DrawnBy(OpOf(job))) ==> LogIdOf(job) != TokenIdOf(job)
  {
    var drawn := DrawnBy(OpOf(job));
    match job
    case Upserting(_, _, _, _, _, ids) =>
      assert drawn[1] == ids.etag && drawn[2] == ids.log && drawn[3] == ids.bump;
      assert ids.etag in drawn && ids.log in drawn && ids.bump in drawn;
    case Deleting(_, _, log, bump) =>
      assert drawn[0] == log && drawn[1] == bump;
      assert log in drawn && bump in drawn;
    case Creating(_, _, _, _, _, _, token) =>
      assert drawn[0] == token && token in drawn;
    case Dropping(_) =>
  }

  // Origins -----------------------------------------------------------------------------------------------------

  predicate PastRow(p: Phase) { p.Log? || p.Bump? || p.Fetch? || p.Done? }

  predicate PastLog(p: Phase) { p.Bump? || p.Fetch? || p.Done? }

  /** The request wrote the row under `k` with this etag. */
  predicate WroteEtag(r: Request, k: Key, etag: string) {
    r.job.Upserting? && (r.job.c, r.job.u) == k && PastRow(r.phase) && etag == Etag(r.job.ids.etag)
  }

  predicate GivesToken(r: Request, t: string) {
    !r.job.Dropping? && t == SyncToken(TokenIdOf(r.job))
  }

  predicate PutInLog(r: Request, t: string) {
    Writes(r.job) && PastLog(r.phase) && t == SyncToken(LogIdOf(r.job))
  }

  ghost predicate EtagOrigins(objects: map<Key, CalendarObject>, requests: seq<Request>) {
    forall k :: k in objects ==> exists i :: 0 <= i < |requests| && WroteEtag(requests[i], k, objects[k].etag)
  }

  /** Some request gave, or will give, this token to a calendar. */
  ghost predicate Issued(requests: seq<Request>, t: string) {
    exists i :: 0 <= i < |requests| && GivesToken(requests[i], t)
  }

  ghost predicate TokenOrigins(calendars: map<string, Calendar>, requests: seq<Request>) {
    forall c :: c in calendars ==>
                  calendars[c].ctag == calendars[c].syncToken && Issued(requests, calendars[c].syncToken)
  }

  ghost predicate LogOrigins(log: seq<SyncChange>, requests: seq<Request>) {
    forall r :: r in log ==> exists i :: 0 <= i < |requests| && PutInLog(requests[i], r.syncToken)
  }

  ghost predicate Origins(s: System) {
    && DistinctDraws(s.requests, s.db.used)
    && EtagOrigins(s.db.objects, s.requests)
    && TokenOrigins(s.db.calendars, s.requests)
    && LogOrigins(s.db.log, s.requests) && DistinctRowTokens(s.db.log)
  }

  /** No share is involved, and everything else refers to what exists. */
  ghost predicate Sound(db: Db) {
    CalendarIntegrity(db) && ObjectIntegrity(db) && db.shares == map[] && LogIntegrity(db)
  }

  // One statement -------------------------------------------------------------------------------------------------

  /** The request as it is after its next statement. */
  function Moved(db: Db, r: Request): Request { Request(r.job, Execute(db, r).1) }

  lemma {:induction false} PhasesMoveOn(db: Db, r: Request)
    ensures PastRow(r.phase) ==> PastRow(Moved(db, r).phase)
    ensures PastLog(r.phase) ==> PastLog(Moved(db, r).phase)
  {
  }

  /** A statement leaves the etag under a key alone, or is the row statement of the upsert it names. */
  lemma {:induction false} StatementOnObjects(db: Db, r: Request, k: Key)
    requires k in Execute(db, r).0.objects
    ensures var after := Execute(db, r).0;
            || (k in db.objects && after.objects[k].etag == db.objects[k].etag)
            || (!PastRow(r.phase) && WroteEtag(Moved(db, r), k, after.objects[k].etag))
  {
  }

  lemma {:induction false} StatementOnCalendars(db: Db, r: Request, c: string)
    requires c in Execute(db, r).0.calendars
    ensures var cal := Execute(db, r).0.calendars[c];
            || (c in db.calendars && cal.ctag == db.calendars[c].ctag && cal.syncToken == db.calendars[c].syncToken)
            || (cal.ctag == cal.syncToken && GivesToken(r, cal.syncToken))
  {
  }

  /** The log stays, loses a dropped calendar, or takes the row the request owes. */
  lemma {:induction false} StatementOnLog(db: Db, r: Request)
    ensures var after := Execute(db, r).0;
            || (after.log == db.log && after.nextLogId == db.nextLogId
                && (db.calendars.Keys <= after.calendars.Keys))
            || (r.job.Dropping? && r.phase == Remove && after == DeleteCalendarRow(db, r.job.c))
            || (r.phase.Log? && Writes(r.job) && r.job.c in db.calendars && Moved(db, r).phase == Bump
                && after == db.(log := Logged(db, r.job.c, UidFor(r.job), r.phase.kind, LogTokenFor(r.job)),
                                nextLogId := db.nextLogId + 1))
  {
  }

  lemma {:induction false} StatementKeepsLog(db: Db, r: Request)
    requires LogIntegrity(db)
    ensures LogIntegrity(Execute(db, r).0)
  {
    StatementOnLog(db, r);
    var after := Execute(db, r).0;
    if r.job.Dropping? && r.phase == Remove {
      DropRowsMembers(db.log, r.job.c);
      DropRowsKeepsOrder(db.log, r.job.c);
    } else {
      LoggingKeepsIntegrity(db, after);
    }
  }

  lemma {:induction false} StatementKeepsCalendars(db: Db, r: Request)
    requires CalendarIntegrity(db) && db.shares == map[]
    ensures CalendarIntegrity(Execute(db, r).0) && Execute(db, r).0.shares == map[]
    ensures Execute(db, r).0.users == db.users && Execute(db, r).0.used == db.used
  {
    StatementKeepsRest(db, r);
    var after := Execute(db, r).0;
    forall c | c in after.calendars
      ensures after.calendars[c].id == c && after.calendars[c].ownerId in db.users
    {
      StatementKeepsOwner(db, r, c);
    }
  }

  lemma {:induction false} StatementKeepsRest(db: Db, r: Request)
    ensures var after := Execute(db, r).0;
            after.users == db.users && after.used == db.used && after.shares.Keys <= db.shares.Keys
  {
  }

  lemma {:induction false} StatementKeepsOwner(db: Db, r: Request, c: string)
    requires CalendarIntegrity(db) && c in Execute(db, r).0.calendars
    ensures var cal := Execute(db, r).0.calendars[c]; cal.id == c && cal.ownerId in db.users
  {
  }

  lemma {:induction false} StatementKeepsSound(db: Db, r: Request)
    requires Sound(db)
    ensures Sound(Execute(db, r).0) && Execute(db, r).0.users == db.users && Execute(db, r).0.used == db.used
  {
    ExecuteKeepsKeys(db, r);
    StatementKeepsLog(db, r);
    StatementKeepsCalendars(db, r);
  }

  // One event -----------------------------------------------------------------------------------------------------

  lemma {:induction false} ArriveKeepsDraws(s: System, job: Job)
    requires DistinctDraws(s.requests, s.db.used) && Enabled(s, Arrive(job))
    ensures var s' := Next(s, Arrive(job)); DistinctDraws(s'.requests, s'.db.used)
  {
  }

  lemma {:induction false} AdvanceKeepsEtags(s: System, i: nat)
    requires EtagOrigins(s.db.objects, s.requests) && i < |s.requests|
    ensures var s' := Next(s, Advance(i)); EtagOrigins(s'.db.objects, s'.requests)
  {
    var s' := Next(s, Advance(i));
    PhasesMoveOn(s.db, s.requests[i]);
    forall k | k in s'.db.objects
      ensures exists j :: 0 <= j < |s'.requests| && WroteEtag(s'.requests[j], k, s'.db.objects[k].etag)
    {
      StatementOnObjects(s.db, s.requests[i], k);
      if k in s.db.objects && s'.db.objects[k].etag == s.db.objects[k].etag {
        var j :| 0 <= j < |s.requests| && WroteEtag(s.requests[j], k, s.db.objects[k].etag);
        assert WroteEtag(s'.requests[j], k, s'.db.objects[k].etag);
      } else {
        assert WroteEtag(s'.requests[i], k, s'.db.objects[k].etag);
      }
    }
  }

  lemma {:induction false} AdvanceKeepsIssued(s: System, i: nat, t: string)
    requires i < |s.requests| && Issued(s.requests, t)
    ensures Issued(Next(s, Advance(i)).requests, t)
  {
    var j :| 0 <= j < |s.requests| && GivesToken(s.requests[j], t);
    assert GivesToken(Next(s, Advance(i)).requests[j], t);
  }

  lemma {:induction false} AdvanceKeepsTokens(s: System, i: nat)
    requires TokenOrigins(s.db.calendars, s.requests) && i < |s.requests|
    ensures var s' := Next(s, Advance(i)); TokenOrigins(s'.db.calendars, s'.requests)
  {
    var s' := Next(s, Advance(i));
    forall c | c in s'.db.calendars
      ensures s'.db.calendars[c].ctag == s'.db.calendars[c].syncToken
          && Issued(s'.requests, s'.db.calendars[c].syncToken)
    {
      StatementOnCalendars(s.db, s.requests[i], c);
      if GivesToken(s.requests[i], s'.db.calendars[c].syncToken) {
        assert GivesToken(s'.requests[i], s'.db.calendars[c].syncToken);
      } else {
        AdvanceKeepsIssued(s, i, s'.db.calendars[c].syncToken);
      }
    }
  }

  /** A request that has not logged yet owns a token that no row carries. */
  lemma {:induction false} LogTokenIsUnused(s: System, i: nat)
    requires Origins(s) && i < |s.requests| && Writes(s.requests[i].job) && !PastLog(s.requests[i].phase)
    ensures forall r :: r in s.db.log ==> r.syncToken != LogTokenFor(s.requests[i].job)
  {
    forall r | r in s.db.log
      ensures r.syncToken != LogTokenFor(s.requests[i].job)
    {
      var j :| 0 <= j < |s.requests| && PutInLog(s.requests[j], r.syncToken);
      assert j != i;
      IdsAreDrawn(s.requests[i].job);
      IdsAreDrawn(s.requests[j].job);
      DistinctTokens(LogIdOf(s.requests[i].job), LogIdOf(s.requests[j].job));
    }
  }

  lemma {:induction false} AdvanceKeepsLog(s: System, i: nat)
    requires Origins(s) && i < |s.requests|
    ensures var s' := Next(s, Advance(i)); LogOrigins(s'.db.log, s'.requests) && DistinctRowTokens(s'.db.log)
  {
    var s', r := Next(s, Advance(i)), s.requests[i];
    StatementOnLog(s.db, r);
    PhasesMoveOn(s.db, r);
    if r.job.Dropping? && r.phase == Remove {
      DropRowsMembers(s.db.log, r.job.c);
      DropRowsKeepsTokens(s.db.log, r.job.c);
    } else if s'.db.log != s.db.log {
      LogTokenIsUnused(s, i);
      AppendKeepsDistinct(s.db.log, s'.db.log);
      assert PutInLog(s'.requests[i], s'.db.log[|s.db.log|].syncToken);
    }
    OldRowsKeepOrigins(s, i);
  }

  lemma {:induction false} OldRowsKeepOrigins(s: System, i: nat)
    requires LogOrigins(s.db.log, s.requests) && i < |s.requests|
    ensures LogOrigins(s.db.log, Next(s, Advance(i)).requests)
  {
    var s' := Next(s, Advance(i));
    PhasesMoveOn(s.db, s.requests[i]);
    forall row | row in s.db.log
      ensures exists j :: 0 <= j < |s'.requests| && PutInLog(s'.requests[j], row.syncToken)
    {
      var j :| 0 <= j < |s.requests| && PutInLog(s.requests[j], row.syncToken);
      assert PutInLog(s'.requests[j], row.syncToken);
    }
  }

  lemma {:induction false} MoreRequests(s: System, job: Job)
    requires EtagOrigins(s.db.objects, s.requests) && TokenOrigins(s.db.calendars, s.requests)
    requires LogOrigins(s.db.log, s.requests)
    ensures var s' := Next(s, Arrive(job));
            && EtagOrigins(s'.db.objects, s'.requests) && TokenOrigins(s'.db.calendars, s'.requests)
            && LogOrigins(s'.db.log, s'.requests)
  {
    var s' := Next(s, Arrive(job));
    assert forall i :: 0 <= i < |s.requests| ==> s'.requests[i] == s.requests[i];
    forall k | k in s'.db.objects
      ensures exists i :: 0 <= i < |s'.requests| && WroteEtag(s'.requests[i], k, s'.db.objects[k].etag)
    {
      var i :| 0 <= i < |s.requests| && WroteEtag(s.requests[i], k, s.db.objects[k].etag);
      assert WroteEtag(s'.requests[i], k, s'.db.objects[k].etag);
    }
    forall c | c in s'.db.calendars
      ensures Issued(s'.requests, s'.db.calendars[c].syncToken)
    {
      var i :| 0 <= i < |s.requests| && GivesToken(s.requests[i], s.db.calendars[c].syncToken);
      assert GivesToken(s'.requests[i], s'.db.calendars[c].syncToken);
    }
    forall r | r in s'.db.log
      ensures exists i :: 0 <= i < |s'.requests| && PutInLog(s'.requests[i], r.syncToken)
    {
      var i :| 0 <= i < |s.requests| && PutInLog(s.requests[i], r.syncToken);
      assert PutInLog(s'.requests[i], r.syncToken);
    }
  }

  lemma {:induction false} NextKeepsOrigins(s: System, e: Event)
    requires Origins(s) && Sound(s.db) && Enabled(s, e)
    ensures Origins(Next(s, e)) && Sound(Next(s, e).db)
  {
    match e
    case Arrive(job) =>
      ArriveKeepsDraws(s, job);
      MoreRequests(s, job);
    case Advance(i) =>
      StatementKeepsSound(s.db, s.requests[i]);
      AdvanceKeepsEtags(s, i);
      AdvanceKeepsTokens(s, i);
      AdvanceKeepsLog(s, i);
  }

  lemma {:induction false} PlayKeepsOrigins(s: System, es: seq<Event>)
    requires Origins(s) && Sound(s.db) && ValidSchedule(s, es)
    ensures Origins(Play(s, es)) && Sound(Play(s, es).db)
    decreases |es|
  {
    if es != [] {
      NextKeepsOrigins(s, es[0]);
      PlayKeepsOrigins(Next(s, es[0]), es[1..]);
    }
  }

  function Idle(users: set<string>): System { System(EmptyDb(users), []) }

  lemma {:induction false} ScheduledHasOrigins(users: set<string>, es: seq<Event>)
    requires ValidSchedule(Idle(users), es)
    ensures Origins(Play(Idle(users), es)) && Sound(Play(Idle(users), es).db)
  {
    PlayKeepsOrigins(Idle(users), es);
  }

  // What origins give -----------------------------------------------------------------------------------------------

  /** A token that some request gives to a calendar is never the token of a log row. */
  lemma {:induction false} IssuedIsNotLogged(s: System, t: string)
    requires Origins(s) && Issued(s.requests, t)
    ensures !LoggedToken(s.db, t) && t in Tokens(s.db.used)
  {
    var i :| 0 <= i < |s.requests| && GivesToken(s.requests[i], t);
    IdsAreDrawn(s.requests[i].job);
    assert TokenIdOf(s.requests[i].job) in s.db.used;
    forall r | r in s.db.log
      ensures r.syncToken != t
    {
      var j :| 0 <= j < |s.requests| && PutInLog(s.requests[j], r.syncToken);
      LogIdIsNotTokenId(s.requests, s.db.used, j, i);
      DistinctTokens(LogIdOf(s.requests[j].job), TokenIdOf(s.requests[i].job));
    }
  }

  lemma {:induction false} LogIdIsNotTokenId(requests: seq<Request>, used: set<Uuid>, j: nat, i: nat)
    requires DistinctDraws(requests, used) && j < |requests| && i < |requests|
    requires Writes(requests[j].job) && !requests[i].job.Dropping?
    ensures LogIdOf(requests[j].job) != TokenIdOf(requests[i].job)
  {
    IdsAreDrawn(requests[j].job);
    IdsAreDrawn(requests[i].job);
    assert OwnDraws(requests[i].job, used);
  }

  lemma {:induction false} OriginsGiveEtags(s: System)
    requires Origins(s)
    ensures ObjectEtags(s.db)
  {
    forall k | k in s.db.objects
      ensures s.db.objects[k].etag in Etags(s.db.used)
    {
      var i :| 0 <= i < |s.requests| && WroteEtag(s.requests[i], k, s.db.objects[k].etag);
      IdsAreDrawn(s.requests[i].job);
      assert s.requests[i].job.ids.etag in s.db.used;
    }
    forall k, k' | k in s.db.objects && k' in s.db.objects && k != k'
      ensures s.db.objects[k].etag != s.db.objects[k'].etag
    {
      var i :| 0 <= i < |s.requests| && WroteEtag(s.requests[i], k, s.db.objects[k].etag);
      var j :| 0 <= j < |s.requests| && WroteEtag(s.requests[j], k', s.db.objects[k'].etag);
      EtagsDiffer(s, i, j);
    }
  }

  /** Two upserts never write the same etag. */
  lemma {:induction false} EtagsDiffer(s: System, i: nat, j: nat)
    requires DistinctDraws(s.requests, s.db.used) && i < |s.requests| && j < |s.requests| && i != j
    requires s.requests[i].job.Upserting? && s.requests[j].job.Upserting?
    ensures Etag(s.requests[i].job.ids.etag) != Etag(s.requests[j].job.ids.etag)
  {
    IdsAreDrawn(s.requests[i].job);
    IdsAreDrawn(s.requests[j].job);
    if Etag(s.requests[i].job.ids.etag) == Etag(s.requests[j].job.ids.etag) {
      EtagInjective(s.requests[i].job.ids.etag, s.requests[j].job.ids.etag);
    }
  }

  lemma {:induction false} OriginsGiveStamps(s: System)
    requires Origins(s)
    ensures Stamped(s.db)
  {
    OriginsGiveEtags(s);
    forall c | c in s.db.calendars
      ensures !LoggedToken(s.db, s.db.calendars[c].syncToken) && s.db.calendars[c].syncToken in Tokens(s.db.used)
    {
      IssuedIsNotLogged(s, s.db.calendars[c].syncToken);
    }
    forall r | r in s.db.log
      ensures r.syncToken in Tokens(s.db.used)
    {
      var i :| 0 <= i < |s.requests| && PutInLog(s.requests[i], r.syncToken);
      IdsAreDrawn(s.requests[i].job);
      assert LogIdOf(s.requests[i].job) in s.db.used;
    }
  }

  /**
   At every moment of every schedule: all keys are intact, ctag is the sync token, no log row carries a
   calendar's token, and log tokens and etags are unique.
   */
  lemma {:induction false} ScheduledIsStamped(users: set<string>, es: seq<Event>)
    requires ValidSchedule(Idle(users), es)
    ensures var db := Play(Idle(users), es).db; Integrity(db) && Stamped(db)
  {
    ScheduledHasOrigins(users, es);
    OriginsGiveStamps(Play(Idle(users), es));
  }

  lemma {:induction false} PlayKeepsIssued(s: System, es: seq<Event>, t: string)
    requires ValidSchedule(s, es) && Issued(s.requests, t)
    ensures Issued(Play(s, es).requests, t)
    decreases |es|
  {
    if es != [] {
      match es[0] {
        case Advance(i) => AdvanceKeepsIssued(s, i, t);
        case Arrive(job) =>
          var i :| 0 <= i < |s.requests| && GivesToken(s.requests[i], t);
          assert GivesToken(Next(s, es[0]).requests[i], t);
      }
      PlayKeepsIssued(Next(s, es[0]), es[1..], t);
    }
  }

  lemma {:induction false} PlayAppend(s: System, es: seq<Event>, more: seq<Event>)
    ensures Play(s, es + more) == Play(Play(s, es), more)
    ensures ValidSchedule(s, es + more) <==> ValidSchedule(s, es) && ValidSchedule(Play(s, es), more)
    decreases |es|
  {
    if es == [] {
      assert es + more == more;
    } else {
      assert (es + more)[1..] == es[1..] + more;
      PlayAppend(Next(s, es[0]), es[1..], more);
    }
  }

  /** A token that a calendar shows at one moment is in no log row at that moment or any later one. */
  lemma {:induction false} ShownTokenNeverLogged(users: set<string>, es: seq<Event>, more: seq<Event>, c: string)
    requires ValidSchedule(Idle(users), es + more)
    requires c in Play(Idle(users), es).db.calendars
    ensures !LoggedToken(Play(Idle(users), es + more).db, Play(Idle(users), es).db.calendars[c].syncToken)
  {
    PlayAppend(Idle(users), es, more);
    ScheduledHasOrigins(users, es);
    ScheduledHasOrigins(users, es + more);
    var t := Play(Idle(users), es).db.calendars[c].syncToken;
    PlayKeepsIssued(Play(Idle(users), es), more, t);
    IssuedIsNotLogged(Play(Idle(users), es + more), t);
  }

  /**
   Once all requests of any interleaving have finished, the report for the calendar's own token is the
   whole history and names every live uid.
   */
  lemma {:induction false} OwnTokenReportNamesLiveUids(
    users: set<string>, es: seq<Event>, ctx: HrefContext, c: string, includeData: bool, u: string, entries: seq<Part>)
    requires ValidSchedule(Idle(users), es) && Quiescent(Play(Idle(users), es))
    requires var db := Play(Idle(users), es).db;
             (c, u) in db.objects && c in db.calendars
             && ReportEntries(db, ctx, c, includeData, db.calendars[c].syncToken, entries)
    ensures var db := Play(Idle(users), es).db; ChangesSince(db.log, c, db.calendars[c].syncToken) == RowsOf(db.log, c)
    ensures exists p :: p in entries && p.Response? && p.href == ObjectHref(ctx, c, u)
  {
    var db := Play(Idle(users), es).db;
    ScheduledIsStamped(users, es);
    TokenIsUri(db, c);
    UnloggedTokenGetsAll(db, c, db.calendars[c].syncToken);
    QuiescentReportNamesLiveUids(users, es, ctx, c, includeData, u);
  }
}
