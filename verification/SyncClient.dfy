/**
 One client of one calendar, syncing at any times during any run of the server.

 A trace alternates whole server operations with syncs. The client sends the token it holds, reads the
 document the server answers with, replays the responses and keeps the new token.
 */
module SyncClient {
  import opened Wrappers
  import opened Schema
  import opened Operations
  import opened Ordering
  import opened Store
  import opened Multistatus
  import opened ClientReader
  import opened Properties
  import opened Hrefs
  import opened History
  import opened Validators
  import opened SyncReport
  import opened Convergence
  import ReportToken
  import XmlRequest

  datatype Client = Client(replica: Replica, token: string)

  datatype World = World(db: Db, client: Client)

  datatype Event = Server(op: Op) | Sync(includeData: bool)

  const NEW_CLIENT := Client(map[], "")

  /** A missing calendar answers 404 and changes nothing; without a token the client starts over. */
  ghost predicate ClientSyncs(db: Db, ctx: HrefContext, c: string, includeData: bool, before: Client, after: Client) {
    if c !in db.calendars then after == before
    else
      exists document ::
        && Answers(db, ctx, c, includeData, before.token, document)
        && var seen := ReadDocument(document);
           && seen.Some?
           && after.replica == Replay(if before.token == "" then map[] else before.replica, seen.value)
           && TokenIn(seen.value) == Some(after.token)
  }

  ghost predicate Step(ctx: HrefContext, c: string, w: World, e: Event, w': World) {
    match e
    case Server(op) => Fresh(w.db, op) && w'.db == Apply(w.db, op) && w'.client == w.client
    case Sync(includeData) => w'.db == w.db && ClientSyncs(w.db, ctx, c, includeData, w.client, w'.client)
  }

  ghost predicate Trace(ctx: HrefContext, c: string, ws: seq<World>, es: seq<Event>) {
    && |ws| == |es| + 1
    && (exists users :: ws[0] == World(EmptyDb(users), NEW_CLIENT))
    && forall i :: 0 <= i < |es| ==> Step(ctx, c, ws[i], es[i], ws[i + 1])
  }

  // What a sync does ----------------------------------------------------------------------------------------

  lemma {:induction false} DeltaHasNoTokens(db: Db, ctx: HrefContext, c: string, includeData: bool,
      rows: seq<SyncChange>)
    ensures var parts := DeltaParts(db, ctx, c, includeData, rows);
            Tidy(parts) && forall p :: p in parts ==> p.Response?
  {
    if rows != [] { DeltaHasNoTokens(db, ctx, c, includeData, rows[1..]); }
  }

  lemma {:induction false} ListingHasNoTokens(rows: seq<CalendarObject>, ctx: HrefContext, c: string, includeData: bool)
    ensures var parts := ListingParts(rows, ctx, c, includeData); Tidy(parts) && forall p :: p in parts ==> p.Response?
  {
    if rows != [] { ListingHasNoTokens(rows[1..], ctx, c, includeData); }
  }

  lemma {:induction false} ReportHasNoTokens(db: Db, ctx: HrefContext, c: string, includeData: bool, token: string,
      entries: seq<Part>)
    requires ReportEntries(db, ctx, c, includeData, token, entries)
    ensures forall last :: Tidy(entries + [SyncTokenPart(last)])
    ensures forall p :: p in entries ==> p.Response?
  {
    if token == "" {
      var rows :| Listing(rows, ObjectsOf(db, c), StartOf) && entries == ListingParts(rows, ctx, c, includeData);
      ListingHasNoTokens(rows, ctx, c, includeData);
    } else {
      DeltaHasNoTokens(db, ctx, c, includeData, ChangesSince(db.log, c, token));
    }
  }

  lemma {:induction false} ReadResponses(entries: seq<Part>, token: string)
    requires forall p :: p in entries ==> p.Response?
    ensures TokenIn(SeenParts(entries + [SyncTokenPart(token)])) == Some(token)
    ensures forall replica ::
              Replay(replica, SeenParts(entries + [SyncTokenPart(token)])) == Replay(replica, SeenParts(entries))
  {
    var last := [SyncTokenPart(token)];
    assert last[1..] == [] && SeenParts(last) == [SeenToken(token)] && SeenParts(last)[1..] == [];
    SeenPartsAppend(entries, last);
    forall replica
      ensures Replay(replica, SeenParts(entries + last)) == Replay(replica, SeenParts(entries))
    {
      ReplayAppend(replica, SeenParts(entries), SeenParts(last));
    }
    TokenAtEnd(SeenParts(entries), token);
  }

  lemma {:induction false} TokenAtEnd(seen: seq<Seen>, token: string)
    ensures TokenIn(seen + [SeenToken(token)]) == Some(token)
  {
    if seen == [] {
      assert seen + [SeenToken(token)] == [SeenToken(token)] && [SeenToken(token)][1..] == [];
    } else {
      assert (seen + [SeenToken(token)])[1..] == seen[1..] + [SeenToken(token)];
      TokenAtEnd(seen[1..], token);
    }
  }

  /** The client reads exactly the report entries, and takes over the calendar's token. */
  lemma {:induction false} SyncReads(db: Db, ctx: HrefContext, c: string, includeData: bool, before: Client,
      after: Client) returns (entries: seq<Part>)
    requires c in db.calendars && CalendarTokens(db)
    requires ClientSyncs(db, ctx, c, includeData, before, after)
    ensures ReportEntries(db, ctx, c, includeData, before.token, entries)
    ensures after.replica == Replay(if before.token == "" then map[] else before.replica, SeenParts(entries))
    ensures after.token == db.calendars[c].syncToken
  {
    var document :|
      && Answers(db, ctx, c, includeData, before.token, document)
      && var seen := ReadDocument(document);
         && seen.Some?
         && after.replica == Replay(if before.token == "" then map[] else before.replica, seen.value)
         && TokenIn(seen.value) == Some(after.token);
    var token := EnsureSyncTokenUri(db.calendars[c].syncToken);
    entries :|
      && ReportEntries(db, ctx, c, includeData, before.token, entries)
      && document == Document(entries + [SyncTokenPart(token)]);
    ReportHasNoTokens(db, ctx, c, includeData, before.token, entries);
    ReadBack(entries + [SyncTokenPart(token)]);
    ReadResponses(entries, token);
    TokenIsUri(db, c);
  }

  // Invariants of a trace -------------------------------------------------------------------------------------

  /** A token the client holds was handed out by the server, so no log row ever carries it. */
  ghost predicate HoldsIssuedToken(w: World) {
    w.client.token != "" ==> w.client.token in Tokens(w.db.used) && !LoggedToken(w.db, w.client.token)
  }

  ghost predicate WorldInv(w: World) {
    Integrity(w.db) && Stamped(w.db) && LifeCycle(w.db) && HoldsIssuedToken(w)
    && (w.client.token == "" ==> w.client.replica == map[])
  }

  lemma {:induction false} StepKeepsInv(ctx: HrefContext, c: string, w: World, e: Event, w': World)
    requires WorldInv(w) && Step(ctx, c, w, e, w')
    ensures WorldInv(w')
  {
    match e
    case Server(op) =>
      ApplyKeepsIntegrity(w.db, op);
      ApplyKeepsStamps(w.db, op);
      ApplyKeepsLifeCycle(w.db, op);
      StampsAreFresh(w.db, op);
      RowsAfter(w.db, op);
      assert Tokens(w.db.used) <= Tokens(w'.db.used);
    case Sync(includeData) =>
      if c in w.db.calendars {
        var _ := SyncReads(w.db, ctx, c, includeData, w.client, w'.client);
        TokenIsUri(w.db, c);
      }
  }

  lemma {:induction false} TraceStart(ctx: HrefContext, c: string, ws: seq<World>, es: seq<Event>)
    requires Trace(ctx, c, ws, es)
    ensures WorldInv(ws[0])
  {
  }

  lemma {:induction false} TraceStep(ctx: HrefContext, c: string, ws: seq<World>, es: seq<Event>, k: nat)
    requires Trace(ctx, c, ws, es) && k < |es|
    ensures Step(ctx, c, ws[k], es[k], ws[k + 1])
  {
  }

  lemma {:induction false} TraceInv(ctx: HrefContext, c: string, ws: seq<World>, es: seq<Event>, k: nat)
    requires Trace(ctx, c, ws, es) && k < |ws|
    ensures WorldInv(ws[k])
  {
    if k == 0 {
      TraceStart(ctx, c, ws, es);
    } else {
      var before, after := ws[k - 1], ws[k];
      TraceInv(ctx, c, ws, es, k - 1);
      TraceStep(ctx, c, ws, es, k - 1);
      StepKeepsInv(ctx, c, before, es[k - 1], after);
    }
  }

  /**
   Every sync, in every trace: the client ends up equal to the calendar exactly when each href it held
   before belongs to a uid of the present log. A client without a token always does.
   */
  lemma {:induction false} SyncConvergesIff(ctx: HrefContext, c: string, ws: seq<World>, es: seq<Event>, k: nat)
    requires Trace(ctx, c, ws, es) && k < |es| && es[k].Sync? && c in ws[k].db.calendars
    ensures ws[k + 1].client.replica == View(ws[k].db, ctx, c, es[k].includeData)
            <==> Known(ws[k].db, ctx, c, ws[k].client.replica)
  {
    TraceInv(ctx, c, ws, es, k);
    var w, w' := ws[k], ws[k + 1];
    TraceStep(ctx, c, ws, es, k);
    var entries := SyncReads(w.db, ctx, c, es[k].includeData, w.client, w'.client);
    if w.client.token == "" {
      InitialSyncConverges(w.db, ctx, c, es[k].includeData, entries);
    } else {
      UnloggedTokenGetsAll(w.db, c, w.client.token);
      LifeCycleSettles(w.db);
      FallbackConvergesIff(w.client.replica, w.db, ctx, c, es[k].includeData);
    }
  }

  // Without a deletion of the calendar --------------------------------------------------------------------------

  lemma {:induction false} ApplyKeepsKnown(db: Db, op: Op, ctx: HrefContext, c: string, replica: Replica)
    requires Integrity(db) && Known(db, ctx, c, replica) && op != DeleteCalendar(c)
    ensures Known(Apply(db, op), ctx, c, replica)
  {
    ApplyGrows(db, db, op, c) by { assert RowsOf(db.log, c)[..|RowsOf(db.log, c)|] == RowsOf(db.log, c); }
    var rows, now := RowsOf(db.log, c), RowsOf(Apply(db, op).log, c);
    assert now == rows + now[|rows|..];
    forall u | ObjectHistory(db, c, u) != []
      ensures ObjectHistory(Apply(db, op), c, u) != []
    {
      KindsAppend(rows, now[|rows|..], u);
    }
  }

  lemma {:induction false} ViewIsKnown(db: Db, ctx: HrefContext, c: string, includeData: bool)
    requires LifeCycle(db)
    ensures Known(db, ctx, c, View(db, ctx, c, includeData))
  {
  }

  /** Before position `k` the calendar is not deleted. */
  predicate NotDeleted(es: seq<Event>, k: nat, c: string)
    requires k <= |es|
  {
    forall i :: 0 <= i < k ==> es[i] != Server(DeleteCalendar(c))
  }

  lemma {:induction false} NextKnows(ctx: HrefContext, c: string, ws: seq<World>, es: seq<Event>, k: nat)
    requires Trace(ctx, c, ws, es) && k < |es| && es[k] != Server(DeleteCalendar(c))
    requires Known(ws[k].db, ctx, c, ws[k].client.replica)
    ensures Known(ws[k + 1].db, ctx, c, ws[k + 1].client.replica)
  {
    TraceInv(ctx, c, ws, es, k);
    TraceStep(ctx, c, ws, es, k);
    if es[k].Sync? && c in ws[k].db.calendars {
      SyncConvergesIff(ctx, c, ws, es, k);
      ViewIsKnown(ws[k].db, ctx, c, es[k].includeData);
    } else {
      StepKeepsKnown(ctx, c, ws[k], es[k], ws[k + 1]);
    }
  }

  lemma {:induction false} TraceKnows(ctx: HrefContext, c: string, ws: seq<World>, es: seq<Event>, k: nat)
    requires Trace(ctx, c, ws, es) && k <= |es| && NotDeleted(es, k, c)
    ensures Known(ws[k].db, ctx, c, ws[k].client.replica)
  {
    if k == 0 {
      var users :| ws[0] == World(EmptyDb(users), NEW_CLIENT);
      NothingIsKnown(ws[0].db, ctx, c);
    } else {
      TraceKnows(ctx, c, ws, es, k - 1);
      NextKnows(ctx, c, ws, es, k - 1);
    }
  }

  lemma {:induction false} NothingIsKnown(db: Db, ctx: HrefContext, c: string)
    ensures Known(db, ctx, c, map[])
  {
  }

  lemma {:induction false} StepKeepsKnown(ctx: HrefContext, c: string, w: World, e: Event, w': World)
    requires Step(ctx, c, w, e, w') && Integrity(w.db) && Known(w.db, ctx, c, w.client.replica)
    requires e != Server(DeleteCalendar(c)) && (e.Sync? ==> c !in w.db.calendars)
    ensures Known(w'.db, ctx, c, w'.client.replica)
  {
    if e.Server? { ApplyKeepsKnown(w.db, e.op, ctx, c, w.client.replica); }
  }

  /**
   A client that syncs whenever it likes, while the server runs any operations, holds exactly the calendar
   after each sync that comes before a deletion of this calendar.
   */
  lemma {:induction false} EverySyncConverges(ctx: HrefContext, c: string, ws: seq<World>, es: seq<Event>, k: nat)
    requires Trace(ctx, c, ws, es) && k < |es| && es[k].Sync? && c in ws[k].db.calendars
    requires NotDeleted(es, k, c)
    ensures ws[k + 1].client.replica == View(ws[k].db, ctx, c, es[k].includeData)
  {
    TraceKnows(ctx, c, ws, es, k);
    SyncConvergesIff(ctx, c, ws, es, k);
  }

  /**
   The deletion has to be excluded: after a calendar is deleted and made again under its id, it has no
   object, but the report for any old token is empty and a client keeps whatever it held.
   */
  lemma {:induction false} StaleAfterRecreation(
    db: Db, ctx: HrefContext, c: string, includeData: bool, create: Op, t: string, replica: Replica, entries: seq<Part>)
    requires create.CreateCalendar? && create.c == c && create.owner in db.users && t != "" && !LoggedToken(db, t)
    requires ReportEntries(Apply(DeleteCalendarRow(db, c), create), ctx, c, includeData, t, entries)
    ensures View(Apply(DeleteCalendarRow(db, c), create), ctx, c, includeData) == map[]
    ensures Replay(replica, SeenParts(entries)) == replica
  {
    var later := Apply(DeleteCalendarRow(db, c), create);
    NothingIsLeft(db, c, create);
    DropRowsMembers(db.log, c);
    UnloggedTokenGetsAll(later, c, t);
  }

  lemma {:induction false} NothingIsLeft(db: Db, c: string, create: Op)
    requires create.CreateCalendar?
    ensures var later := Apply(DeleteCalendarRow(db, c), create);
            && RowsOf(later.log, c) == [] && later.log == DropRows(db.log, c)
            && forall k :: k in later.objects ==> k.0 != c
  {
    RowsOfDropped(db.log, c, c);
  }

  // A token the server never made ----------------------------------------------------------------------------------

  /** No log row carries a token of another shape, so a client that starts empty still gets everything. */
  lemma {:induction false} ForeignTokenConverges(db: Db, ctx: HrefContext, c: string, includeData: bool, t: string,
      entries: seq<Part>)
    requires Reachable(db) && !(TOKEN_PREFIX <= t)
    requires ReportEntries(db, ctx, c, includeData, t, entries)
    ensures Replay(map[], SeenParts(entries)) == View(db, ctx, c, includeData)
  {
    ReachableHasIntegrity(db);
    ReachableStamped(db);
    ReachableLifeCycle(db);
    if t == "" {
      InitialSyncConverges(db, ctx, c, includeData, entries);
    } else {
      forall r | r in db.log
        ensures r.syncToken != t
      {
        var x :| x in db.used && SyncToken(x) == r.syncToken;
      }
      UnloggedTokenGetsAll(db, c, t);
      LifeCycleSettles(db);
      FallbackConvergesIff(map[], db, ctx, c, includeData);
    }
  }

  /**
   A request body without a token of the server, such as one with a self-closing token element, with or
   without a sync level: whatever text the reader takes for the token, a client that starts empty ends up
   with the calendar.
   */
  lemma {:induction false} BodyWithoutTokenConverges(
    events: seq<XmlRequest.XmlEvent>, request: XmlRequest.ReportRequest,
    db: Db, ctx: HrefContext, c: string, includeData: bool, entries: seq<Part>)
    requires XmlRequest.ReportFrom(XmlRequest.NEW_REPORT, events) == Some(request) && request.SyncCollection?
    requires forall e :: e in events && e.Text? ==> !(TOKEN_PREFIX <= e.text)
    requires Reachable(db) && ReportEntries(db, ctx, c, includeData, request.syncToken, entries)
    ensures Replay(map[], SeenParts(entries)) == View(db, ctx, c, includeData)
  {
    ReportToken.TokenIsText(events, request);
    ForeignTokenConverges(db, ctx, c, includeData, request.syncToken, entries);
  }

  // A trace that leaves a client behind ------------------------------------------------------------------------------

  /** A sync with these entries can happen. */
  lemma {:induction false} SyncHappens(
    db: Db, ctx: HrefContext, c: string, includeData: bool, before: Client, entries: seq<Part>) returns (after: Client)
    requires c in db.calendars && ReportEntries(db, ctx, c, includeData, before.token, entries)
    requires Tidy(entries) && forall p :: p in entries ==> p.Response?
    ensures ClientSyncs(db, ctx, c, includeData, before, after)
    ensures after.replica == Replay(if before.token == "" then map[] else before.replica, SeenParts(entries))
    ensures after.token == EnsureSyncTokenUri(db.calendars[c].syncToken)
  {
    var token := EnsureSyncTokenUri(db.calendars[c].syncToken);
    var parts := entries + [SyncTokenPart(token)];
    assert Tidy(parts);
    ReadBack(parts);
    ReadResponses(entries, token);
    after := Client(Replay(if before.token == "" then map[] else before.replica, SeenParts(parts)), token);
    assert Answers(db, ctx, c, includeData, before.token, Document(parts));
  }

  function Created(c: string, owner: string, token: Uuid): Op { CreateCalendar(c, owner, "", "", "", "", token) }

  function Written(c: string, u: string): Op {
    Upsert(c, u, "", ObjectFields("VEVENT", None, None, None), UpsertIds("r", "e", "l", "b"))
  }

  /** A trace with these events leads to this world. */
  ghost predicate LeadsTo(ctx: HrefContext, c: string, es: seq<Event>, w: World) {
    exists ws :: Trace(ctx, c, ws, es) && ws[|es|] == w
  }

  lemma {:induction false} OneStepMore(ctx: HrefContext, c: string, es: seq<Event>, w: World, e: Event, w': World)
    requires LeadsTo(ctx, c, es, w) && Step(ctx, c, w, e, w')
    ensures LeadsTo(ctx, c, es + [e], w')
  {
    var ws :| Trace(ctx, c, ws, es) && ws[|es|] == w;
    LongerTrace(ctx, c, ws, es, e, w');
    assert (ws + [w'])[|es + [e]|] == w';
  }

  lemma {:induction false} LongerTrace(ctx: HrefContext, c: string, ws: seq<World>, es: seq<Event>, e: Event, w: World)
    requires Trace(ctx, c, ws, es) && Step(ctx, c, ws[|es|], e, w)
    ensures Trace(ctx, c, ws + [w], es + [e])
  {
    var longer := ws + [w];
    forall i | 0 <= i < |es + [e]|
      ensures Step(ctx, c, longer[i], (es + [e])[i], longer[i + 1])
    {
      if i < |es| { TraceStep(ctx, c, ws, es, i); }
    }
    assert longer[0] == ws[0];
  }

  lemma {:induction false} ServerStep(ctx: HrefContext, c: string, es: seq<Event>, db: Db, client: Client, op: Op)
    requires LeadsTo(ctx, c, es, World(db, client)) && Fresh(db, op)
    ensures LeadsTo(ctx, c, es + [Server(op)], World(Apply(db, op), client))
  {
    OneStepMore(ctx, c, es, World(db, client), Server(op), World(Apply(db, op), client));
  }

  lemma {:induction false} SyncStep(ctx: HrefContext, c: string, es: seq<Event>, db: Db, before: Client, after: Client)
    requires LeadsTo(ctx, c, es, World(db, before)) && ClientSyncs(db, ctx, c, false, before, after)
    ensures LeadsTo(ctx, c, es + [Sync(false)], World(db, after))
  {
    OneStepMore(ctx, c, es, World(db, before), Sync(false), World(db, after));
  }

  /** A new calendar. */
  lemma {:induction false} FirstCalendar(users: set<string>, ctx: HrefContext, c: string,
      owner: string) returns (db: Db)
    requires owner in users
    ensures LeadsTo(ctx, c, [Server(Created(c, owner, "1"))], World(db, NEW_CLIENT))
    ensures db.users == users && db.used == {"1"} && c in db.calendars && db.objects == map[] && db.log == []
  {
    var start := EmptyDb(users);
    assert Trace(ctx, c, [World(start, NEW_CLIENT)], []);
    ServerStep(ctx, c, [], start, NEW_CLIENT, Created(c, owner, "1"));
    db := Apply(start, Created(c, owner, "1"));
    assert [] + [Server(Created(c, owner, "1"))] == [Server(Created(c, owner, "1"))];
  }

  /** An object in it. */
  lemma {:induction false} FirstObject(ctx: HrefContext, c: string, es: seq<Event>, before: Db,
      u: string) returns (db: Db)
    requires LeadsTo(ctx, c, es, World(before, NEW_CLIENT))
    requires before.used == {"1"} && c in before.calendars && before.objects == map[] && before.log == []
    ensures LeadsTo(ctx, c, es + [Server(Written(c, u))], World(db, NEW_CLIENT))
    ensures db.users == before.users && db.used == {"1", "r", "e", "l", "b"}
    ensures c in db.calendars && db.calendars[c].syncToken == SyncToken("b")
    ensures db.objects.Keys == {(c, u)} && db.objects[(c, u)].calendarId == c && db.objects[(c, u)].uid == u
    ensures |db.log| == 1 && db.log[0].syncToken == SyncToken("l")
  {
    assert DrawnBy(Written(c, u)) == ["r", "e", "l", "b"];
    ServerStep(ctx, c, es, before, NEW_CLIENT, Written(c, u));
    db := Apply(before, Written(c, u));
  }

  /** The first sync gets the object. */
  lemma {:induction false} FirstSync(db: Db, ctx: HrefContext, c: string, u: string) returns (after: Client)
    requires c in db.calendars && db.objects.Keys == {(c, u)}
    requires db.objects[(c, u)].calendarId == c && db.objects[(c, u)].uid == u
    ensures ClientSyncs(db, ctx, c, false, NEW_CLIENT, after)
    ensures ObjectHref(ctx, c, u) in after.replica && after.token == EnsureSyncTokenUri(db.calendars[c].syncToken)
  {
    var o := db.objects[(c, u)];
    var rows := [o];
    assert ObjectsOf(db, c) == {o} by { assert (c, u) in db.objects && (c, u).0 == c; }
    assert Listing(rows, ObjectsOf(db, c), StartOf);
    var entries := ListingParts(rows, ctx, c, false);
    assert rows[1..] == [] && ListingParts(rows[1..], ctx, c, false) == [];
    assert entries == [ListingPart(o, ctx, c, false)] && entries[1..] == [];
    ListingHasNoTokens(rows, ctx, c, false);
    assert ReportEntries(db, ctx, c, false, "", entries);
    after := SyncHappens(db, ctx, c, false, NEW_CLIENT, entries);
    BodyIsNotEmpty(o, false);
    assert SeenParts(entries) == [SeenPart(entries[0])] && SeenParts(entries)[1..] == [];
    assert Replay(map[], SeenParts(entries)) == Absorb(map[], SeenPart(entries[0]));
  }

  /** The calendar is deleted and made again; the report for an old token is empty. */
  lemma {:induction false} SecondCalendar(ctx: HrefContext, c: string, es: seq<Event>, before: Db, client: Client,
      owner: string)
    returns (db: Db, after: Client)
    requires LeadsTo(ctx, c, es, World(before, client))
    requires owner in before.users && "2" !in before.used && client.token != "" && !LoggedToken(before, client.token)
    ensures LeadsTo(ctx, c, es + [Server(DeleteCalendar(c))] + [Server(Created(c, owner, "2"))] + [Sync(false)],
        World(db, after))
    ensures c in db.calendars && after.replica == client.replica && View(db, ctx, c, false) == map[]
  {
    var create := Created(c, owner, "2");
    var dropped := DeleteCalendarRow(before, c);
    db := Apply(dropped, create);
    ServerStep(ctx, c, es, before, client, DeleteCalendar(c));
    ServerStep(ctx, c, es + [Server(DeleteCalendar(c))], dropped, client, create);
    var rows := ChangesSince(db.log, c, client.token);
    StaleAfterRecreation(before, ctx, c, false, create, client.token, client.replica,
        DeltaParts(db, ctx, c, false, rows));
    DeltaHasNoTokens(db, ctx, c, false, rows);
    after := SyncHappens(db, ctx, c, false, client, DeltaParts(db, ctx, c, false, rows));
    SyncStep(ctx, c, es + [Server(DeleteCalendar(c))] + [Server(create)], db, client, after);
  }

  /** Create a calendar, write an object, sync, delete the calendar, create it again under its id, sync. */
  function RecreationEvents(c: string, owner: string, u: string): seq<Event> {
    FirstEvents(c, owner, u) + [Server(DeleteCalendar(c))] + [Server(Created(c, owner, "2"))] + [Sync(false)]
  }

  function FirstEvents(c: string, owner: string, u: string): seq<Event> {
    [Server(Created(c, owner, "1"))] + [Server(Written(c, u))] + [Sync(false)]
  }

  lemma {:induction false} WrittenObject(users: set<string>, ctx: HrefContext, c: string, owner: string, u: string)
    returns (db: Db)
    requires owner in users
    ensures LeadsTo(ctx, c, [Server(Created(c, owner, "1"))] + [Server(Written(c, u))], World(db, NEW_CLIENT))
    ensures db.users == users && "2" !in db.used
    ensures db.objects.Keys == {(c, u)} && db.objects[(c, u)].calendarId == c && db.objects[(c, u)].uid == u
    ensures c in db.calendars
    ensures var t := EnsureSyncTokenUri(db.calendars[c].syncToken); t != "" && !LoggedToken(db, t)
  {
    db := FirstCalendar(users, ctx, c, owner);
    db := FirstObject(ctx, c, [Server(Created(c, owner, "1"))], db, u);
    UsableToken(db, c);
  }

  lemma {:induction false} SyncedObject(users: set<string>, ctx: HrefContext, c: string, owner: string, u: string)
    returns (w: World)
    requires owner in users
    ensures LeadsTo(ctx, c, FirstEvents(c, owner, u), w) && owner in w.db.users && "2" !in w.db.used
    ensures ObjectHref(ctx, c, u) in w.client.replica && w.client.token != "" && !LoggedToken(w.db, w.client.token)
  {
    var es := [Server(Created(c, owner, "1"))] + [Server(Written(c, u))];
    var db := WrittenObject(users, ctx, c, owner, u);
    var first := FirstSync(db, ctx, c, u);
    SyncStep(ctx, c, es, db, NEW_CLIENT, first);
    w := World(db, first);
  }

  /**
   So the proviso of `EverySyncConverges` is needed: after these events the client still holds the object,
   and the calendar is empty.
   */
  lemma {:induction false} DeletedCalendarLeavesClientBehind(
    users: set<string>, ctx: HrefContext, c: string, owner: string, u: string) returns (w: World)
    requires owner in users
    ensures LeadsTo(ctx, c, RecreationEvents(c, owner, u), w)
    ensures c in w.db.calendars && w.client.replica != View(w.db, ctx, c, false)
  {
    var before := SyncedObject(users, ctx, c, owner, u);
    var db, after := SecondCalendar(ctx, c, FirstEvents(c, owner, u), before.db, before.client, owner);
    w := World(db, after);
    assert ObjectHref(ctx, c, u) in w.client.replica;
  }

  lemma {:induction false} UsableToken(db: Db, c: string)
    requires c in db.calendars && db.calendars[c].syncToken == SyncToken("b")
    requires |db.log| == 1 && db.log[0].syncToken == SyncToken("l")
    ensures var t := EnsureSyncTokenUri(db.calendars[c].syncToken); t != "" && !LoggedToken(db, t)
  {
    assert SyncToken("b")[4] == ':';
    DistinctTokens("b", "l");
  }
}
