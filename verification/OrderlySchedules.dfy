/**
 Which schedules keep the change log in order.

 A write changes its row in one statement and logs the change in a later one. As long as no other write
 to the same object comes in between, and the calendar is not dropped under a write that has found its
 row, the finished log settles every object, so the whole-log replay converges under any interleaving of
 everything else. If moreover no object is deleted under a write that has found its row, the log spells
 the life cycle that runs of whole operations spell.
 */
module OrderlySchedules {
  import opened Wrappers
  import opened Sequences
  import opened Schema
  import opened Operations
  import opened Ordering
  import opened Store
  import opened Multistatus
  import opened ClientReader
  import opened Hrefs
  import opened History
  import opened SyncReport
  import opened Convergence
  import opened Interleaving
  import opened Provenance

  predicate OnObject(r: Request, k: Key) {
    Writes(r.job) && (r.job.c, UidFor(r.job)) == k
  }

  /** The request is about to change its row, or to log the change. */
  predicate AtRowOrLog(r: Request) {
    Writes(r.job) && (r.phase == Insert || r.phase == Update || r.phase == Remove || r.phase.Log?)
  }

  /** The request has found a row to update, or owes a log row, in the calendar. */
  predicate FoundOrOwes(r: Request, c: string) {
    Writes(r.job) && r.job.c == c && (r.phase == Update || r.phase.Log?)
  }

  predicate IsDrop(r: Request) { r.job.Dropping? && r.phase == Remove }

  predicate Drops(s: System, e: Event, c: string) {
    e.Advance? && e.i < |s.requests| && IsDrop(s.requests[e.i]) && s.requests[e.i].job.c == c
  }

  /** The event drops the calendar only while no request has found a row to update, or owes a log row, in it. */
  predicate DropsAlone(s: System, e: Event, c: string) {
    Drops(s, e, c) ==> forall j :: 0 <= j < |s.requests| ==> !FoundOrOwes(s.requests[j], c)
  }

  /** How orderly a schedule is; each rule includes the ones before. */
  datatype Rule = InTurn | Careful | Strict

  /**
   The event leaves other writes alone. It neither changes a row nor logs a change while another request
   owes a log row for the object. If careful, it drops no calendar under a request that has found its row;
   if rule, it deletes no row that another request is about to update.
   */
  predicate Orderly(rule: Rule, s: System, e: Event) {
    e.Advance? && e.i < |s.requests| ==>
      var r := s.requests[e.i];
      && (AtRowOrLog(r) ==>
            forall j :: 0 <= j < |s.requests| && j != e.i ==> !Owes(s.requests[j], r.job.c, UidFor(r.job)))
      && (rule != InTurn ==> DropsAlone(s, e, r.job.c))
      && (rule == Strict && r.job.Deleting? && r.phase == Remove ==>
            forall j :: 0 <= j < |s.requests| ==>
                          !(OnObject(s.requests[j], (r.job.c, r.job.u)) && s.requests[j].phase == Update))
  }

  predicate AllOrderly(rule: Rule, s: System, es: seq<Event>)
    decreases |es|
  {
    es == [] || (Orderly(rule, s, es[0]) && AllOrderly(rule, Next(s, es[0]), es[1..]))
  }

  // The story of an object -------------------------------------------------------------------------------------

  /** No object is owed two log rows. */
  ghost predicate OneDebt(requests: seq<Request>) {
    forall i, j, c, u | 0 <= i < |requests| && 0 <= j < |requests| ::
      Owes(requests[i], c, u) && Owes(requests[j], c, u) ==> i == j
  }

  /** What is owed to the log for an object. */
  ghost function Pending(requests: seq<Request>, c: string, u: string): seq<ChangeType> {
    if exists i :: 0 <= i < |requests| && Owes(requests[i], c, u) then
      var i :| 0 <= i < |requests| && Owes(requests[i], c, u);
      [requests[i].phase.kind]
    else []
  }

  /** What the log says of an object, and what it will say once debts are paid. */
  ghost function Story(s: System, c: string, u: string): seq<ChangeType> {
    ObjectHistory(s.db, c, u) + Pending(s.requests, c, u)
  }

  ghost predicate GoodStory(rule: Rule, kinds: seq<ChangeType>, live: bool) {
    if rule == Strict then WellSpelled(kinds) && (EndsLive(kinds) <==> live)
    else if live then EndsLive(kinds)
    else kinds != [] ==> Deleted in kinds
  }

  ghost predicate GoodStories(rule: Rule, s: System) {
    forall c, u :: GoodStory(rule, Story(s, c, u), (c, u) in s.db.objects)
  }

  /** A request about to update has its calendar, and its row or at least a story. */
  ghost predicate UpdatesReady(rule: Rule, s: System) {
    forall i :: 0 <= i < |s.requests| && s.requests[i].job.Upserting? && s.requests[i].phase == Update ==>
                  var job := s.requests[i].job;
                  && job.c in s.db.calendars && Story(s, job.c, job.u) != []
                  && (rule == Strict ==> (job.c, job.u) in s.db.objects)
  }

  ghost predicate DebtsHaveCalendars(s: System) {
    forall i :: 0 <= i < |s.requests| && Writes(s.requests[i].job) && s.requests[i].phase.Log? ==>
                  s.requests[i].job.c in s.db.calendars
  }

  ghost predicate StoryInv(rule: Rule, s: System) {
    && ObjectIntegrity(s.db) && OneDebt(s.requests) && DebtsHaveCalendars(s)
    && GoodStories(rule, s) && UpdatesReady(rule, s)
  }

  lemma {:induction false} PendingIs(requests: seq<Request>, i: nat, c: string, u: string)
    requires OneDebt(requests) && i < |requests| && Owes(requests[i], c, u)
    ensures Pending(requests, c, u) == [requests[i].phase.kind]
  {
  }

  /** Two lists of requests with the same debts for an object. */
  lemma {:induction false} SamePending(requests: seq<Request>, requests': seq<Request>, c: string, u: string)
    requires OneDebt(requests) && OneDebt(requests')
    requires |requests| <= |requests'|
    requires forall i :: 0 <= i < |requests| ==>
                           (Owes(requests[i], c, u) <==> Owes(requests'[i], c, u))
                           && (Owes(requests[i], c, u) ==> requests[i].phase == requests'[i].phase)
    requires forall i :: |requests| <= i < |requests'| ==> !Owes(requests'[i], c, u)
    ensures Pending(requests', c, u) == Pending(requests, c, u)
  {
    if i :| 0 <= i < |requests| && Owes(requests[i], c, u) {
      PendingIs(requests, i, c, u);
      PendingIs(requests', i, c, u);
    }
  }

  // One event -----------------------------------------------------------------------------------------------------

  /** The change that a statement makes to the row under its key and now owes to the log. */
  function NewDebt(db: Db, r: Request): Option<ChangeType> {
    var phase := Execute(db, r).1;
    if Writes(r.job) && !r.phase.Log? && phase.Log? then Some(phase.kind) else None
  }

  /** What a statement does to the rows: nothing, unless it takes on a debt or drops a calendar. */
  lemma {:induction false} DebtsFollowRows(db: Db, r: Request, k: Key)
    requires !IsDrop(r)
    ensures var after := Execute(db, r).0;
            match NewDebt(db, r)
            case None => k in after.objects <==> k in db.objects
            case Some(kind) =>
              if !OnObject(r, k) then k in after.objects <==> k in db.objects
              else
                match kind
                case Created => k !in db.objects && k in after.objects && r.job.c in db.calendars
                case Modified => r.job.Upserting? && r.phase == Update && (k in after.objects <==> k in db.objects)
                case Deleted => r.job.Deleting? && r.phase == Remove && k in db.objects && k !in after.objects
    ensures NewDebt(db, r).Some? ==> AtRowOrLog(r) && !r.phase.Log?
  {
  }

  lemma {:induction false} DropTakesAll(db: Db, r: Request, k: Key)
    requires ObjectIntegrity(db) && IsDrop(r)
    ensures var after := Execute(db, r).0;
            && (k in after.objects <==> k in db.objects && k.0 != r.job.c)
            && ObjectHistory(after, k.0, k.1) == if k.0 == r.job.c then [] else ObjectHistory(db, k.0, k.1)
  {
    RowsOfDropped(db.log, r.job.c, k.0);
  }

  /** Only a drop takes a calendar away. */
  lemma {:induction false} CalendarsStay(db: Db, r: Request, c: string)
    requires c in db.calendars && !(IsDrop(r) && r.job.c == c)
    ensures c in Execute(db, r).0.calendars
  {
  }

  lemma {:induction false} AdvanceKeepsOneDebt(rule: Rule, s: System, i: nat)
    requires OneDebt(s.requests) && i < |s.requests| && Orderly(rule, s, Advance(i))
    ensures OneDebt(Next(s, Advance(i)).requests)
  {
    NewDebtIsOwn(s.db, s.requests[i]);
  }

  /** A request that owes after its statement owed before, or took on the debt by it. */
  lemma {:induction false} NewDebtIsOwn(db: Db, r: Request)
    ensures var r' := Moved(db, r);
            forall c, u :: Owes(r', c, u) ==> OnObject(r, (c, u)) && !r.phase.Log? && AtRowOrLog(r)
  {
  }

  /** What a statement adds to the story of an object: the debt it takes on. */
  lemma {:induction false} StoryGrows(rule: Rule, s: System, i: nat, c: string, u: string)
    requires OneDebt(s.requests) && DebtsHaveCalendars(s) && i < |s.requests| && Orderly(rule, s, Advance(i))
    requires !IsDrop(s.requests[i])
    ensures var r := s.requests[i];
            Story(Next(s, Advance(i)), c, u) ==
            Story(s, c, u) + if OnObject(r, (c, u)) && NewDebt(s.db, r).Some? then [NewDebt(s.db, r).value] else []
  {
    var r, s' := s.requests[i], Next(s, Advance(i));
    AdvanceKeepsOneDebt(rule, s, i);
    NewDebtIsOwn(s.db, r);
    DebtsFollowRows(s.db, r, (c, u));
    StatementOnLog(s.db, r);
    if r.phase.Log? && Writes(r.job) {
      PaysDebt(s, i, c, u);
    } else {
      assert s'.db.log == s.db.log;
      if OnObject(r, (c, u)) && NewDebt(s.db, r).Some? {
        PendingIs(s'.requests, i, c, u);
        assert Pending(s.requests, c, u) == [];
      } else {
        SamePending(s.requests, s'.requests, c, u);
      }
    }
  }

  /** Paying a debt moves it from what is owed to the log. */
  lemma {:induction false} PaysDebt(s: System, i: nat, c: string, u: string)
    requires OneDebt(s.requests) && DebtsHaveCalendars(s) && i < |s.requests|
    requires s.requests[i].phase.Log? && Writes(s.requests[i].job)
    requires OneDebt(Next(s, Advance(i)).requests)
    ensures Story(Next(s, Advance(i)), c, u) == Story(s, c, u)
  {
    var r, s' := s.requests[i], Next(s, Advance(i));
    HistoryLogged(s.db, s'.db, r.job.c, UidFor(r.job), r.phase.kind, LogTokenFor(r.job), c, u);
    if OnObject(r, (c, u)) {
      PendingIs(s.requests, i, c, u);
      forall j | 0 <= j < |s'.requests|
        ensures !Owes(s'.requests[j], c, u)
      {
        if j != i { assert s'.requests[j] == s.requests[j]; }
      }
      NothingBefore(ObjectHistory(s'.db, c, u));
    } else {
      SamePending(s.requests, s'.requests, c, u);
    }
  }

  lemma {:induction false} StoryContinues(rule: Rule, kinds: seq<ChangeType>, live: bool, kind: ChangeType)
    requires GoodStory(rule, kinds, live)
    requires kind == Created ==> !live
    requires kind == Deleted ==> live
    requires kind == Modified ==> kinds != [] && (rule == Strict ==> live)
    ensures GoodStory(rule, kinds + [kind], if kind == Created then true else if kind == Deleted then false else live)
  {
    if !live && kind == Modified { assert Deleted in kinds + [kind]; }
    if kind == Deleted { assert (kinds + [kind])[|kinds|] == Deleted; }
  }

  lemma {:induction false} AdvanceKeepsStories(rule: Rule, s: System, i: nat)
    requires StoryInv(rule, s) && i < |s.requests| && Orderly(rule, s, Advance(i)) && !IsDrop(s.requests[i])
    ensures GoodStories(rule, Next(s, Advance(i)))
  {
    var r, s' := s.requests[i], Next(s, Advance(i));
    forall c, u
      ensures GoodStory(rule, Story(s', c, u), (c, u) in s'.db.objects)
    {
      StoryGrows(rule, s, i, c, u);
      DebtsFollowRows(s.db, r, (c, u));
      assert GoodStory(rule, Story(s, c, u), (c, u) in s.db.objects);
      if OnObject(r, (c, u)) && NewDebt(s.db, r).Some? {
        StoryContinues(rule, Story(s, c, u), (c, u) in s.db.objects, NewDebt(s.db, r).value);
      } else {
        NothingBefore(Story(s, c, u));
      }
    }
  }

  lemma {:induction false} DropKeepsStories(rule: Rule, s: System, i: nat)
    requires rule != InTurn && StoryInv(rule, s)
    requires i < |s.requests| && Orderly(rule, s, Advance(i)) && IsDrop(s.requests[i])
    ensures OneDebt(Next(s, Advance(i)).requests)
    ensures forall c, u :: c != s.requests[i].job.c ==> Story(Next(s, Advance(i)), c, u) == Story(s, c, u)
    ensures GoodStories(rule, Next(s, Advance(i)))
  {
    var r, s' := s.requests[i], Next(s, Advance(i));
    AdvanceKeepsOneDebt(rule, s, i);
    forall c, u
      ensures c != r.job.c ==> Story(s', c, u) == Story(s, c, u)
      ensures GoodStory(rule, Story(s', c, u), (c, u) in s'.db.objects)
    {
      DropTakesAll(s.db, r, (c, u));
      assert GoodStory(rule, Story(s, c, u), (c, u) in s.db.objects);
      if c == r.job.c {
        DropLeavesNoDebt(s, i, u);
      } else {
        SamePending(s.requests, s'.requests, c, u);
      }
    }
  }

  lemma {:induction false} DropLeavesNoDebt(s: System, i: nat, u: string)
    requires i < |s.requests| && IsDrop(s.requests[i]) && DropsAlone(s, Advance(i), s.requests[i].job.c)
    ensures Pending(Next(s, Advance(i)).requests, s.requests[i].job.c, u) == []
  {
    var c, s' := s.requests[i].job.c, Next(s, Advance(i));
    forall j | 0 <= j < |s'.requests|
      ensures !Owes(s'.requests[j], c, u)
    {
      if j != i { assert !FoundOrOwes(s.requests[j], c); }
    }
  }

  /** A request that is about to update was about to before, or has just found its row. */
  lemma {:induction false} BecomesReady(db: Db, r: Request)
    requires r.job.Upserting? && Moved(db, r).phase == Update
    ensures r.phase == Select && (r.job.c, r.job.u) in db.objects && Execute(db, r).0 == db
  {
  }

  lemma {:induction false} AdvanceKeepsReady(rule: Rule, s: System, i: nat, j: nat)
    requires rule != InTurn && StoryInv(rule, s) && i < |s.requests| && j < |s.requests| && Orderly(rule, s, Advance(i))
    requires var s' := Next(s, Advance(i)); s'.requests[j].job.Upserting? && s'.requests[j].phase == Update
    ensures var s', job := Next(s, Advance(i)), s.requests[j].job;
            && job.c in s'.db.calendars && Story(s', job.c, job.u) != []
            && (rule == Strict ==> (job.c, job.u) in s'.db.objects)
  {
    var r, s', job := s.requests[i], Next(s, Advance(i)), s.requests[j].job;
    if i == j {
      BecomesReady(s.db, r);
      assert GoodStory(rule, Story(s, job.c, job.u), true);
    }
    assert Story(s, job.c, job.u) != [] && job.c in s.db.calendars;
    if IsDrop(r) {
      assert !FoundOrOwes(s.requests[j], r.job.c);
      DropKeepsStories(rule, s, i);
      DropTakesAll(s.db, r, (job.c, job.u));
    } else {
      StoryGrows(rule, s, i, job.c, job.u);
      DebtsFollowRows(s.db, r, (job.c, job.u));
    }
    CalendarsStay(s.db, r, job.c);
  }

  lemma {:induction false} AdvanceKeepsDebtCalendars(rule: Rule, s: System, i: nat, j: nat)
    requires rule != InTurn && StoryInv(rule, s) && i < |s.requests| && j < |s.requests| && Orderly(rule, s, Advance(i))
    requires var r := Next(s, Advance(i)).requests[j]; Writes(r.job) && r.phase.Log?
    ensures s.requests[j].job.c in Next(s, Advance(i)).db.calendars
  {
    var r := s.requests[i];
    if i == j {
      assert Owes(Moved(s.db, r), r.job.c, UidFor(r.job));
      NewDebtIsOwn(s.db, r);
      DebtsFollowRows(s.db, r, (r.job.c, UidFor(r.job)));
    } else {
      assert FoundOrOwes(s.requests[j], s.requests[j].job.c);
    }
    CalendarsStay(s.db, r, s.requests[j].job.c);
  }

  lemma {:induction false} NextKeepsStories(rule: Rule, s: System, e: Event)
    requires rule != InTurn && StoryInv(rule, s) && Enabled(s, e) && Orderly(rule, s, e)
    ensures StoryInv(rule, Next(s, e))
  {
    var s' := Next(s, e);
    match e
    case Advance(i) =>
      ExecuteKeepsKeys(s.db, s.requests[i]);
      AdvanceKeepsOneDebt(rule, s, i);
      if IsDrop(s.requests[i]) { DropKeepsStories(rule, s, i); } else { AdvanceKeepsStories(rule, s, i); }
      forall j | 0 <= j < |s'.requests| && s'.requests[j].job.Upserting? && s'.requests[j].phase == Update
        ensures var job := s'.requests[j].job;
                job.c in s'.db.calendars && Story(s', job.c, job.u) != []
                    && (rule == Strict ==> (job.c, job.u) in s'.db.objects)
      {
        AdvanceKeepsReady(rule, s, i, j);
      }
      forall j | 0 <= j < |s'.requests| && Writes(s'.requests[j].job) && s'.requests[j].phase.Log?
        ensures s'.requests[j].job.c in s'.db.calendars
      {
        AdvanceKeepsDebtCalendars(rule, s, i, j);
      }
    case Arrive(job) => ArriveKeepsStories(rule, s, job);
  }

  lemma {:induction false} ArriveKeepsStories(rule: Rule, s: System, job: Job)
    requires StoryInv(rule, s)
    ensures StoryInv(rule, Next(s, Arrive(job)))
  {
    var s' := Next(s, Arrive(job));
    assert forall i :: 0 <= i < |s.requests| ==> s'.requests[i] == s.requests[i];
    assert s'.requests[|s.requests|].phase == FirstPhase(job);
    assert OneDebt(s'.requests);
    forall c, u
      ensures Story(s', c, u) == Story(s, c, u)
    {
      SamePending(s.requests, s'.requests, c, u);
    }
    forall c, u
      ensures GoodStory(rule, Story(s', c, u), (c, u) in s'.db.objects)
    {
      assert GoodStory(rule, Story(s, c, u), (c, u) in s.db.objects);
    }
  }

  lemma {:induction false} PlayKeepsStories(rule: Rule, s: System, es: seq<Event>)
    requires rule != InTurn && StoryInv(rule, s) && ValidSchedule(s, es) && AllOrderly(rule, s, es)
    ensures StoryInv(rule, Play(s, es))
    decreases |es|
  {
    if es != [] {
      NextKeepsStories(rule, s, es[0]);
      PlayKeepsStories(rule, Next(s, es[0]), es[1..]);
    }
  }

  lemma {:induction false} EmptyHasStories(rule: Rule, users: set<string>)
    ensures StoryInv(rule, Idle(users))
  {
  }

  // Quiet states ----------------------------------------------------------------------------------------------------

  lemma {:induction false} QuietStory(s: System, c: string, u: string)
    requires Quiescent(s)
    ensures Story(s, c, u) == ObjectHistory(s.db, c, u)
  {
    NothingBefore(ObjectHistory(s.db, c, u));
  }

  /** Strictly orderly schedules: whenever all requests have finished, the log spells the life cycle. */
  lemma {:induction false} OrderlyLifeCycle(users: set<string>, es: seq<Event>)
    requires ValidSchedule(Idle(users), es) && AllOrderly(Strict, Idle(users), es) && Quiescent(Play(Idle(users), es))
    ensures LifeCycle(Play(Idle(users), es).db)
  {
    var s := Play(Idle(users), es);
    EmptyHasStories(Strict, users);
    PlayKeepsStories(Strict, Idle(users), es);
    forall c, u
      ensures WellSpelled(ObjectHistory(s.db, c, u))
          && (EndsLive(ObjectHistory(s.db, c, u)) <==> (c, u) in s.db.objects)
    {
      QuietStory(s, c, u);
      assert GoodStory(Strict, Story(s, c, u), (c, u) in s.db.objects);
    }
  }

  /** Orderly schedules: whenever all requests have finished, the log settles every object. */
  lemma {:induction false} OrderlyLogSettles(users: set<string>, es: seq<Event>)
    requires ValidSchedule(Idle(users), es) && AllOrderly(Careful, Idle(users), es) && Quiescent(Play(Idle(users), es))
    ensures LogSettles(Play(Idle(users), es).db)
  {
    var s := Play(Idle(users), es);
    EmptyHasStories(Careful, users);
    PlayKeepsStories(Careful, Idle(users), es);
    forall c, u
      ensures Settles(s.db, c, u)
    {
      QuietStory(s, c, u);
      assert GoodStory(Careful, Story(s, c, u), (c, u) in s.db.objects);
    }
  }

  /**
   After any orderly schedule, once all requests have finished, the report for the calendar's own token
   brings a replica to the calendar exactly when the log knows every href it holds.
   */
  lemma {:induction false} OrderlyReportConvergesIff(
    users: set<string>, es: seq<Event>, replica: Replica, ctx: HrefContext, c: string, includeData: bool,
        entries: seq<Part>)
    requires ValidSchedule(Idle(users), es) && AllOrderly(Careful, Idle(users), es) && Quiescent(Play(Idle(users), es))
    requires var db := Play(Idle(users), es).db;
             c in db.calendars && ReportEntries(db, ctx, c, includeData, db.calendars[c].syncToken, entries)
    ensures var db := Play(Idle(users), es).db;
            Replay(replica, SeenParts(entries)) == View(db, ctx, c, includeData) <==> Known(db, ctx, c, replica)
  {
    var db := Play(Idle(users), es).db;
    OrderlyLogSettles(users, es);
    ScheduledIsStamped(users, es);
    TokenIsUri(db, c);
    UnloggedTokenGetsAll(db, c, db.calendars[c].syncToken);
    FallbackConvergesIff(replica, db, ctx, c, includeData);
  }
}
