/**
 Syncs whose statements interleave with writes.

 A sync report reads the calendar row, then the log, then one object after another, and other requests go
 on in between, so the answer of such a torn sync mixes moments. `QuietSyncRepairsIff` says that this does
 the client no lasting harm: after any number of torn syncs, between any writes, the next sync that meets a
 quiet server leaves exactly the calendar, unless the log itself ends a live object with a deletion.
 */
module TornSync {
  import opened Wrappers
  import opened Schema
  import opened Operations
  import opened Ordering
  import opened Store
  import opened Multistatus
  import opened ClientReader
  import opened Properties
  import opened Hrefs
  import opened History
  import opened SyncReport
  import opened Convergence
  import opened Interleaving
  import opened Provenance
  import opened OrderlySchedules
  import opened SettledSchedules
  import SyncClient

  /** How far the report has come, and what it has put into its answer. */
  datatype Progress =
    | NotSyncing
    | NeedsRows(includeData: bool, newToken: string)
    | NeedsChanges(includeData: bool, newToken: string, anchor: Option<nat>)
    | Fetching(includeData: bool, newToken: string, rows: seq<SyncChange>, entries: seq<Part>)

  datatype World = World(system: System, replica: Replica, token: string, sync: Progress)

  datatype Step =
    | Server(e: Event)
    | ReadCalendar(includeData: bool)
    | ListAll
    | FindAnchor
    | ReadChanges
    | FetchNext
    | Answer

  function StartWorld(users: set<string>): World { World(Idle(users), map[], "", NotSyncing) }

  /** One statement of the server or of the report. */
  ghost predicate Steps(ctx: HrefContext, c: string, w: World, step: Step, w': World) {
    var db := w.system.db;
    match step
    case Server(e) => Enabled(w.system, e) && w' == w.(system := Next(w.system, e))
    case ReadCalendar(includeData) =>
      && w.sync.NotSyncing?
      && w' == if c in db.calendars then w.(sync := NeedsRows(includeData, db.calendars[c].syncToken)) else w
    case ListAll =>
      && w.sync.NeedsRows? && w.token == ""
      && exists rows :: Listing(rows, ObjectsOf(db, c), StartOf)
                        && w' == w.(sync := Fetching(w.sync.includeData, w.sync.newToken, [],
                                                     ListingParts(rows, ctx, c, w.sync.includeData)))
    case FindAnchor =>
      && w.sync.NeedsRows? && w.token != ""
      && w' == w.(sync := NeedsChanges(w.sync.includeData, w.sync.newToken, Anchor(db.log, c, w.token)))
    case ReadChanges =>
      && w.sync.NeedsChanges?
      && w' == w.(sync := Fetching(w.sync.includeData, w.sync.newToken, RowsBehind(db.log, c, w.sync.anchor), []))
    case FetchNext =>
      && w.sync.Fetching? && w.sync.rows != []
      && w' == w.(sync := w.sync.(rows := w.sync.rows[1..],
                                  entries := w.sync.entries + EntryFor(db, ctx, c, w.sync.includeData, w.sync.rows[0])))
    case Answer =>
      && w.sync.Fetching? && w.sync.rows == []
      && w' == World(w.system, Replay(if w.token == "" then map[] else w.replica, SeenParts(w.sync.entries)),
                     EnsureSyncTokenUri(w.sync.newToken), NotSyncing)
  }

  /** The calendar is not dropped. */
  predicate KeepsCalendar(c: string, w: World, step: Step) {
    step.Server? ==> !Drops(w.system, step.e, c)
  }

  ghost predicate Trace(ctx: HrefContext, c: string, ws: seq<World>, steps: seq<Step>) {
    && |ws| == |steps| + 1
    && (exists users :: ws[0] == StartWorld(users))
    && forall i :: 0 <= i < |steps| ==> Steps(ctx, c, ws[i], steps[i], ws[i + 1]) && KeepsCalendar(c, ws[i], steps[i])
  }

  // What the server remembers -----------------------------------------------------------------------------------

  /** The uid is in the log of the calendar, or owed to it. */
  ghost predicate Recorded(s: System, c: string, u: string) {
    InLog(s.db, c, u) || exists i :: 0 <= i < |s.requests| && Owes(s.requests[i], c, u)
  }

  ghost predicate RecordedHref(s: System, ctx: HrefContext, c: string, href: string) {
    exists u :: ObjectHref(ctx, c, u) == href && Recorded(s, c, u)
  }

  ghost predicate ServerInv(s: System, c: string) {
    Origins(s) && Sound(s.db) && SettledInv(s, c)
  }

  lemma {:induction false} StaysRecorded(s: System, e: Event, c: string, u: string)
    requires Enabled(s, e) && !Drops(s, e, c) && CalendarUnder(s, c) && Recorded(s, c, u)
    ensures Recorded(Next(s, e), c, u)
  {
    var s' := Next(s, e);
    match e
    case Arrive(job) =>
      if i :| 0 <= i < |s.requests| && Owes(s.requests[i], c, u) { assert Owes(s'.requests[i], c, u); }
    case Advance(i) =>
      var r := s.requests[i];
      StatementOnLog(s.db, r);
      if row :| row in s.db.log && row.calendarId == c && row.objectUid == u {
        if IsDrop(r) { DropRowsMembers(s.db.log, r.job.c); }
        assert row in s'.db.log;
      } else {
        var j :| 0 <= j < |s.requests| && Owes(s.requests[j], c, u);
        if j == i {
          assert FoundOrOwes(r, c);
          DebtIsPaid(s.db, r);
        } else {
          assert Owes(s'.requests[j], c, u);
        }
      }
  }

  lemma {:induction false} DebtIsPaid(db: Db, r: Request)
    requires r.phase.Log? && Writes(r.job) && r.job.c in db.calendars
    ensures InLog(Execute(db, r).0, r.job.c, UidFor(r.job))
  {
    var after := Execute(db, r).0;
    assert after.log[|db.log|] in after.log;
  }

  lemma {:induction false} ServerInvStays(s: System, e: Event, c: string)
    requires ServerInv(s, c) && Enabled(s, e) && !Drops(s, e, c)
    ensures ServerInv(Next(s, e), c)
  {
    NextKeepsOrigins(s, e);
    NextKeepsSettled(s, e, c);
  }

  // What the client holds -----------------------------------------------------------------------------------------

  /** Every href the client holds, or will read in the running report, is one the server has a record of. */
  ghost predicate ProgressInv(s: System, ctx: HrefContext, c: string, sync: Progress) {
    match sync
    case NotSyncing => true
    case NeedsRows(_, newToken) => Issued(s.requests, newToken)
    case NeedsChanges(_, newToken, _) => Issued(s.requests, newToken)
    case Fetching(_, newToken, rows, entries) =>
      && Issued(s.requests, newToken)
      && (forall r :: r in rows ==> Recorded(s, c, r.objectUid))
      && (forall p :: p in entries ==> p.Response? && RecordedHref(s, ctx, c, p.href))
  }

  ghost predicate WorldInv(ctx: HrefContext, c: string, w: World) {
    && ServerInv(w.system, c)
    && (forall href :: href in w.replica ==> RecordedHref(w.system, ctx, c, href))
    && (if w.token == "" then w.replica == map[] else Issued(w.system.requests, w.token))
    && ProgressInv(w.system, ctx, c, w.sync)
  }

  lemma {:induction false} HrefStaysRecorded(s: System, e: Event, ctx: HrefContext, c: string, href: string)
    requires Enabled(s, e) && !Drops(s, e, c) && CalendarUnder(s, c) && RecordedHref(s, ctx, c, href)
    ensures RecordedHref(Next(s, e), ctx, c, href)
  {
    var u :| ObjectHref(ctx, c, u) == href && Recorded(s, c, u);
    StaysRecorded(s, e, c, u);
  }

  lemma {:induction false} StaysIssued(s: System, e: Event, t: string)
    requires Enabled(s, e) && Issued(s.requests, t)
    ensures Issued(Next(s, e).requests, t)
  {
    assert ValidSchedule(Next(s, e), []) && [e][1..] == [];
    PlayKeepsIssued(s, [e], t);
    assert Play(s, [e]) == Next(s, e);
  }

  lemma {:induction false} ServerKeepsWorld(ctx: HrefContext, c: string, w: World, e: Event)
    requires WorldInv(ctx, c, w) && Enabled(w.system, e) && !Drops(w.system, e, c)
    ensures WorldInv(ctx, c, w.(system := Next(w.system, e)))
  {
    var s, s' := w.system, Next(w.system, e);
    ServerInvStays(s, e, c);
    forall href | RecordedHref(s, ctx, c, href)
      ensures RecordedHref(s', ctx, c, href)
    {
      HrefStaysRecorded(s, e, ctx, c, href);
    }
    forall u | Recorded(s, c, u)
      ensures Recorded(s', c, u)
    {
      StaysRecorded(s, e, c, u);
    }
    if w.token != "" { StaysIssued(s, e, w.token); }
    if !w.sync.NotSyncing? { StaysIssued(s, e, w.sync.newToken); }
  }

  lemma {:induction false} ListedIsRecorded(s: System, ctx: HrefContext, c: string, includeData: bool,
      rows: seq<CalendarObject>)
    requires SystemInv(s) && forall o :: o in rows ==> o in ObjectsOf(s.db, c)
    ensures forall p :: p in ListingParts(rows, ctx, c, includeData) ==> p.Response? && RecordedHref(s, ctx, c, p.href)
  {
    if rows != [] {
      assert rows[0] in ObjectsOf(s.db, c);
      var k :| k in s.db.objects && k.0 == c && s.db.objects[k] == rows[0];
      assert k == (c, k.1) && rows[0].uid == k.1;
      assert Recorded(s, c, k.1);
      assert RecordedHref(s, ctx, c, ObjectHref(ctx, c, rows[0].uid));
      ListedIsRecorded(s, ctx, c, includeData, rows[1..]);
    }
  }

  lemma {:induction false} LoggedIsRecorded(s: System, c: string, anchor: Option<nat>)
    ensures forall r :: r in RowsBehind(s.db.log, c, anchor) ==> Recorded(s, c, r.objectUid)
  {
    forall r | r in RowsBehind(s.db.log, c, anchor)
      ensures Recorded(s, c, r.objectUid)
    {
      match anchor
      case Some(id) => FilterMember(s.db.log, OfCalendarAfter(c, id), r);
      case None => FilterMember(s.db.log, OfCalendar(c), r);
    }
  }

  /** Replay adds no href but those of the entries. */
  lemma {:induction false} ReplayHrefs(replica: Replica, entries: seq<Part>, href: string)
    requires href in Replay(replica, SeenParts(entries))
    ensures href in replica || exists p :: p in entries && p.Response? && p.href == href
    decreases |entries|
  {
    if entries != [] {
      var next := Absorb(replica, SeenPart(entries[0]));
      assert SeenParts(entries)[1..] == SeenParts(entries[1..]);
      ReplayHrefs(next, entries[1..], href);
      if href !in next {
        var p :| p in entries[1..] && p.Response? && p.href == href;
        assert p in entries;
      } else if href !in replica {
        assert entries[0] in entries && entries[0].Response? && entries[0].href == href;
      }
    }
  }

  lemma {:induction false} AnswerKeepsWorld(ctx: HrefContext, c: string, w: World, w': World)
    requires WorldInv(ctx, c, w) && Steps(ctx, c, w, Answer, w')
    ensures WorldInv(ctx, c, w')
  {
    var before := if w.token == "" then map[] else w.replica;
    forall href | href in w'.replica
      ensures RecordedHref(w.system, ctx, c, href)
    {
      ReplayHrefs(before, w.sync.entries, href);
    }
    IssuedIsUri(w.system.requests, w.sync.newToken);
  }

  lemma {:induction false} IssuedIsUri(requests: seq<Request>, t: string)
    requires Issued(requests, t)
    ensures EnsureSyncTokenUri(t) == t && t != ""
  {
    var i :| 0 <= i < |requests| && GivesToken(requests[i], t);
    assert t[4] == ':';
  }

  lemma {:induction false} FetchKeepsWorld(ctx: HrefContext, c: string, w: World, w': World)
    requires WorldInv(ctx, c, w) && Steps(ctx, c, w, FetchNext, w')
    ensures WorldInv(ctx, c, w')
  {
    var s, row := w.system, w.sync.rows[0];
    assert row in w.sync.rows;
    EntryIsRecorded(s, ctx, c, w.sync.includeData, row);
    forall p | p in w'.sync.entries
      ensures p.Response? && RecordedHref(s, ctx, c, p.href)
    {
      assert p in w.sync.entries || p in EntryFor(s.db, ctx, c, w.sync.includeData, row);
    }
    forall r | r in w'.sync.rows
      ensures Recorded(s, c, r.objectUid)
    {
      assert r in w.sync.rows;
    }
  }

  lemma {:induction false} EntryIsRecorded(s: System, ctx: HrefContext, c: string, includeData: bool, row: SyncChange)
    requires Recorded(s, c, row.objectUid)
    ensures forall p :: p in EntryFor(s.db, ctx, c, includeData, row) ==> p.Response? && RecordedHref(s, ctx, c, p.href)
  {
    assert RecordedHref(s, ctx, c, ObjectHref(ctx, c, row.objectUid));
  }

  lemma {:induction false} ListKeepsWorld(ctx: HrefContext, c: string, w: World, w': World)
    requires WorldInv(ctx, c, w) && Steps(ctx, c, w, ListAll, w')
    ensures WorldInv(ctx, c, w')
  {
    var rows :| Listing(rows, ObjectsOf(w.system.db, c), StartOf)
                && w' == w.(sync := Fetching(w.sync.includeData, w.sync.newToken, [],
                                             ListingParts(rows, ctx, c, w.sync.includeData)));
    ListedIsRecorded(w.system, ctx, c, w.sync.includeData, rows);
  }

  lemma {:induction false} StepKeepsWorld(ctx: HrefContext, c: string, w: World, step: Step, w': World)
    requires WorldInv(ctx, c, w) && Steps(ctx, c, w, step, w') && KeepsCalendar(c, w, step)
    ensures WorldInv(ctx, c, w')
  {
    match step
    case Server(e) => ServerKeepsWorld(ctx, c, w, e);
    case ReadCalendar(_) =>
    case ListAll => ListKeepsWorld(ctx, c, w, w');
    case FindAnchor =>
    case ReadChanges => LoggedIsRecorded(w.system, c, w.sync.anchor);
    case FetchNext => FetchKeepsWorld(ctx, c, w, w');
    case Answer => AnswerKeepsWorld(ctx, c, w, w');
  }

  lemma {:induction false} TraceKeepsWorld(ctx: HrefContext, c: string, ws: seq<World>, steps: seq<Step>, k: nat)
    requires Trace(ctx, c, ws, steps) && k < |ws|
    ensures WorldInv(ctx, c, ws[k])
  {
    if k == 0 {
      var users :| ws[0] == StartWorld(users);
    } else {
      TraceKeepsWorld(ctx, c, ws, steps, k - 1);
      assert Steps(ctx, c, ws[k - 1], steps[k - 1], ws[k]) && KeepsCalendar(c, ws[k - 1], steps[k - 1]);
      StepKeepsWorld(ctx, c, ws[k - 1], steps[k - 1], ws[k]);
    }
  }

  /** On a quiet server every recorded href is one the log knows. */
  lemma {:induction false} QuietIsKnown(s: System, ctx: HrefContext, c: string, replica: Replica)
    requires Quiescent(s) && forall href :: href in replica ==> RecordedHref(s, ctx, c, href)
    ensures Known(s.db, ctx, c, replica)
  {
    forall href | href in replica
      ensures exists u :: ObjectHref(ctx, c, u) == href && ObjectHistory(s.db, c, u) != []
    {
      var u :| ObjectHref(ctx, c, u) == href && Recorded(s, c, u);
      var row :| row in s.db.log && row.calendarId == c && row.objectUid == u;
      FilterMember(s.db.log, OfCalendar(c), row);
      KindsNonempty(RowsOf(s.db.log, c), u);
    }
  }

  /**
   In any trace of writes and torn syncs, on a calendar that is not dropped: a sync at a moment when all
   writes have finished leaves the client with exactly the calendar if and only if it holds no token, or
   the last log row of every live object is no deletion.
   */
  lemma {:induction false} QuietSyncRepairsIff(
    ctx: HrefContext, c: string, ws: seq<World>, steps: seq<Step>, k: nat, includeData: bool, after: SyncClient.Client)
    requires Trace(ctx, c, ws, steps) && k < |ws| && ws[k].sync.NotSyncing?
    requires Quiescent(ws[k].system) && c in ws[k].system.db.calendars
    requires SyncClient.ClientSyncs(ws[k].system.db, ctx, c, includeData,
        SyncClient.Client(ws[k].replica, ws[k].token), after)
    ensures after.replica == View(ws[k].system.db, ctx, c, includeData)
            <==> ws[k].token == "" || LiveEndLive(ws[k].system.db, c)
  {
    TraceKeepsWorld(ctx, c, ws, steps, k);
    var s, replica, token := ws[k].system, ws[k].replica, ws[k].token;
    OriginsGiveStamps(s);
    var entries := SyncClient.SyncReads(s.db, ctx, c, includeData, SyncClient.Client(replica, token), after);
    if token == "" {
      InitialSyncConverges(s.db, ctx, c, includeData, entries);
    } else {
      IssuedIsNotLogged(s, token);
      UnloggedTokenGetsAll(s.db, c, token);
      QuietIsKnown(s, ctx, c, replica);
      WholeLogRepairsIff(s, ctx, c, includeData, replica);
    }
  }

  lemma {:induction false} WholeLogRepairsIff(s: System, ctx: HrefContext, c: string, includeData: bool,
      replica: Replica)
    requires SettledInv(s, c) && Quiescent(s) && Known(s.db, ctx, c, replica)
    ensures ReplayRows(replica, s.db, ctx, c, includeData, RowsOf(s.db.log, c)) == View(s.db, ctx, c, includeData)
            <==> LiveEndLive(s.db, c)
  {
    QuietSettlesIff(s, c);
    if LiveEndLive(s.db, c) {
      FallbackConvergesIff(replica, s.db, ctx, c, includeData);
    } else {
      var u :| (c, u) in s.db.objects && !EndsLive(ObjectHistory(s.db, c, u));
      UidConverges(replica, s.db, ctx, c, includeData, RowsOf(s.db.log, c), u);
    }
  }

  // Orderly writes ------------------------------------------------------------------------------------------------

  /** Every write of the trace follows the rules of `OrderlySchedules`. */
  predicate OrderlyTrace(ws: seq<World>, steps: seq<Step>)
    requires |steps| < |ws|
  {
    forall i :: 0 <= i < |steps| && steps[i].Server? ==> Orderly(Careful, ws[i].system, steps[i].e)
  }

  lemma {:induction false} TraceKeepsStories(ctx: HrefContext, c: string, ws: seq<World>, steps: seq<Step>, k: nat)
    requires Trace(ctx, c, ws, steps) && k < |ws| && OrderlyTrace(ws, steps)
    ensures StoryInv(Careful, ws[k].system)
  {
    if k == 0 {
      var users :| ws[0] == StartWorld(users);
      EmptyHasStories(Careful, users);
    } else {
      TraceKeepsStories(ctx, c, ws, steps, k - 1);
      assert Steps(ctx, c, ws[k - 1], steps[k - 1], ws[k]);
      if steps[k - 1].Server? { NextKeepsStories(Careful, ws[k - 1].system, steps[k - 1].e); }
    }
  }

  /** So if the writes are orderly, a sync that meets a quiet server always leaves exactly the calendar. */
  lemma {:induction false} QuietSyncRepairs(
    ctx: HrefContext, c: string, ws: seq<World>, steps: seq<Step>, k: nat, includeData: bool, after: SyncClient.Client)
    requires Trace(ctx, c, ws, steps) && k < |ws| && ws[k].sync.NotSyncing? && OrderlyTrace(ws, steps)
    requires Quiescent(ws[k].system) && c in ws[k].system.db.calendars
    requires SyncClient.ClientSyncs(ws[k].system.db, ctx, c, includeData,
        SyncClient.Client(ws[k].replica, ws[k].token), after)
    ensures after.replica == View(ws[k].system.db, ctx, c, includeData)
  {
    var s := ws[k].system;
    QuietSyncRepairsIff(ctx, c, ws, steps, k, includeData, after);
    TraceKeepsStories(ctx, c, ws, steps, k);
    forall u | (c, u) in s.db.objects
      ensures EndsLive(ObjectHistory(s.db, c, u))
    {
      QuietStory(s, c, u);
      assert GoodStory(Careful, Story(s, c, u), true);
    }
  }
}
