/**
 The request handlers and MCP tools as they run on the store.

 Each write handler ends in the state that `Requests.Perform` gives; each report answers with a document
 whose entries `SyncReport` describes.
 */
module Handlers {
  import opened Wrappers
  import opened Schema
  import opened Operations
  import opened Ordering
  import opened Sequences
  import opened Store
  import opened Multistatus
  import opened Properties
  import opened Hrefs
  import opened SyncReport
  import opened ICalParser
  import opened ICalBuilder
  import opened Requests
  import opened ClientReader
  import opened ReportContent

  datatype PutStatus =
    | Created(etag: string) | NoContent(etag: string) | PreconditionFailed | BadRequest | InternalError

  // Writes -------------------------------------------------------------------------------------------------

  /** PUT of a calendar object, with an optional If-Match header. */
  method HandlePut(store: CalendarStore, c: string, filename: string, ifMatch: Option<string>, body: RequestBody,
      ids: UpsertIds)
    returns (status: PutStatus)
    requires store.Valid()
    modifies store
    ensures store.Valid()
    ensures store.State() == Perform(old(store.State()), Put(c, filename, ifMatch, body, ids))
    ensures !status.Created? && !status.NoContent? ==>
              && store.calendars == old(store.calendars) && store.objects == old(store.objects)
              && store.shares == old(store.shares) && store.log == old(store.log)
    ensures !body.Content? ==> status == BadRequest
    ensures body.Content? ==>
              var u := PutUid(filename, body.data);
              if !PreconditionHolds(old(store.State()), c, u, ifMatch) then status == PreconditionFailed
              else if c !in old(store.calendars) then status == InternalError
              else
                && (c, u) in store.objects && store.objects[(c, u)].icalData == body.data
                && status == if (c, u) in old(store.objects) then NoContent(store.objects[(c, u)].etag)
                             else PutStatus.Created(store.objects[(c, u)].etag)
    ensures body.Content? ==>
              var u := PutUid(filename, body.data);
              status == PreconditionFailed <==>
              ifMatch.Some? && ifMatch.value != "*"
              && ((c, u) !in old(store.objects) || old(store.objects)[(c, u)].etag != ifMatch.value)
    ensures body.Content? && FieldsOf(body.data).uid.None? ==>
              forall u :: filename == u + ".ics" && !EndsInIcs(u) ==> PutUid(filename, body.data) == u
    ensures status.Created? || status.NoContent? ==>
              var u := PutUid(filename, body.data);
              && (c, u) in store.objects && store.objects == old(store.objects)[(c, u) := store.objects[(c, u)]]
              && store.objects[(c, u)].etag == "\"" + ids.etag + "\"" && store.objects[(c, u)].uid == u
              && RowFields(body.data, store.objects[(c, u)].fields)
  {
    PutNames(filename, body);
    if !body.Content? { return BadRequest; }
    var data := body.data;
    var fields := ExtractFields(data);
    var uid := match fields.uid case Some(u) => u case None => TrimIcs(filename);
    var admitted := CheckIfMatch(store, c, uid, ifMatch);
    if !admitted { return PreconditionFailed; }
    var columns := ObjectFields(fields.componentType, fields.dtstart, fields.dtend, fields.summary);
    var r := store.UpsertObject(c, uid, data, columns, ids);
    match r
    case Failure(_) => return InternalError;
    case Success((obj, isNew)) => return if isNew then PutStatus.Created(obj.etag) else NoContent(obj.etag);
  }

  /** The columns are the fields that the declarative description finds in the text. */
  ghost predicate RowFields(data: string, columns: ObjectFields) {
    exists fields :: FoundIn(Unfolded(data), fields)
                     && columns.componentType == fields.componentType && columns.dtstart == fields.dtstart
                     && columns.dtend == fields.dtend && columns.summary == fields.summary
  }

  lemma {:induction false} PutNames(filename: string, body: RequestBody)
    ensures body.Content? && FieldsOf(body.data).uid.None? ==>
              forall u :: filename == u + ".ics" && !EndsInIcs(u) ==> PutUid(filename, body.data) == u
  {
    if body.Content? {
      forall u | filename == u + ".ics" && !EndsInIcs(u) && FieldsOf(body.data).uid.None?
        ensures PutUid(filename, body.data) == u
      {
        PutUidIs(u, body.data);
      }
    }
  }

  method CheckIfMatch(store: CalendarStore, c: string, u: string, ifMatch: Option<string>) returns (admitted: bool)
    ensures admitted <==> PreconditionHolds(store.State(), c, u, ifMatch)
  {
    if ifMatch.Some? && ifMatch.value != "*" {
      var existing := store.GetObjectByUid(c, u);
      if existing.None? { return false; }
      if existing.value.etag != ifMatch.value { return false; }
    }
    return true;
  }

  /** DELETE of a calendar object by its file name. */
  method HandleDeleteObject(store: CalendarStore, c: string, filename: string, log: Uuid, bump: Uuid)
    returns (r: Result<(), AppError>)
    requires store.Valid()
    modifies store
    ensures store.Valid()
    ensures store.State() == Perform(old(store.State()), Request.DeleteEvent(c, TrimIcs(filename), log, bump))
    ensures r == if (c, TrimIcs(filename)) in old(store.objects) then Success(()) else Failure(NotFound)
    ensures forall u :: filename == u + ".ics" && !EndsInIcs(u) ==>
                          && (r.Success? <==> (c, u) in old(store.objects))
                          && store.objects == old(store.objects) - {(c, u)}
  {
    forall u | filename == u + ".ics" && !EndsInIcs(u)
      ensures TrimIcs(filename) == u
    {
      TrimFileName(u);
    }
    r := store.DeleteObject(c, TrimIcs(filename), log, bump);
  }

  /** The string arguments of a tool call; a missing or non-string one is None. */
  datatype ToolArgs = ToolArgs(
    calendarId: Option<string>, eventUid: Option<string>, title: Option<string>, start: Option<string>,
    end: Option<string>, description: Option<string>, location: Option<string>, timezone: Option<string>)

  function GeneratedUid(u: Uuid): string { u + "@caldav-server" }

  function ArgsFor(args: ToolArgs, uid: string): EventArgs
    requires args.title.Some? && args.start.Some? && args.end.Some?
  {
    EventArgs(uid, args.title.value, args.start.value, args.end.value, args.description, args.location, args.timezone)
  }

  /** The first required argument that is missing. */
  function MissingArg(args: ToolArgs, needsUid: bool): Option<string> {
    if args.calendarId.None? then Some("Missing calendar_id")
    else if needsUid && args.eventUid.None? then Some("Missing event_uid")
    else if args.title.None? then Some("Missing title")
    else if args.start.None? then Some("Missing start")
    else if args.end.None? then Some("Missing end")
    else None
  }

  /** The message names the first required argument that is missing, in the order in which they are read. */
  predicate MissingIs(args: ToolArgs, needsUid: bool, message: string) {
    || (message == "Missing calendar_id" && args.calendarId.None?)
    || (message == "Missing event_uid" && args.calendarId.Some? && needsUid && args.eventUid.None?)
    || (args.calendarId.Some? && (needsUid ==> args.eventUid.Some?)
        && (|| (message == "Missing title" && args.title.None?)
            || (message == "Missing start" && args.title.Some? && args.start.None?)
            || (message == "Missing end" && args.title.Some? && args.start.Some? && args.end.None?)))
  }

  lemma {:induction false} MissingIsNamed(args: ToolArgs, needsUid: bool)
    ensures MissingArg(args, needsUid).Some? ==> MissingIs(args, needsUid, MissingArg(args, needsUid).value)
    ensures MissingArg(args, needsUid).None? ==> args.title.Some? && args.start.Some? && args.end.Some?
  {
  }

  /** The row of an event: its text is built from the arguments, and its columns are they. */
  predicate StoredEvent(args: ToolArgs, uid: string, now: string, o: CalendarObject) {
    && args.calendarId.Some? && args.title.Some? && args.start.Some? && args.end.Some?
    && o.calendarId == args.calendarId.value && o.uid == uid
    && o.fields == ObjectFields("VEVENT", args.start, args.end, args.title)
    && o.icalData == EventText(uid, args.title.value, args.start.value, args.end.value, args.description, args.location,
                               args.timezone, now)
  }

  lemma {:induction false} StoredIs(args: ToolArgs, uid: string, now: string, o: CalendarObject)
    requires args.calendarId.Some? && args.title.Some? && args.start.Some? && args.end.Some?
    requires o.calendarId == args.calendarId.value && o.uid == uid
    requires o.fields == ObjectFields("VEVENT", args.start, args.end, args.title)
    requires o.icalData == VeventText(ArgsFor(args, uid), now)
    ensures StoredEvent(args, uid, now, o)
  {
    TextIsWrittenOut(ArgsFor(args, uid), now);
  }

  method CreateEventTool(store: CalendarStore, args: ToolArgs, uidUuid: Uuid, now: string, ids: UpsertIds)
    returns (r: Result<CalendarObject, string>)
    requires store.Valid()
    modifies store
    ensures store.Valid()
    ensures MissingArg(args, false).Some? ==>
              r == Failure(MissingArg(args, false).value) && store.State() == old(store.State())
    ensures MissingArg(args, false).None? ==>
              var c, uid := args.calendarId.value, GeneratedUid(uidUuid);
              && store.State() == Perform(old(store.State()), CreateEvent(c, ArgsFor(args, uid), now, ids))
              && if c in old(store.calendars) then (c, uid) in store.objects && r == Success(store.objects[(c, uid)])
                 else r == Failure("Failed to create event")
    ensures r.Success? ==> StoredEvent(args, uidUuid + "@caldav-server", now, r.value)
    ensures store.objects == if r.Failure? then old(store.objects)
                             else old(store.objects)[(r.value.calendarId, r.value.uid) := r.value]
    ensures r.Failure? ==>
              store.calendars == old(store.calendars) && store.shares == old(store.shares)
              && store.log == old(store.log)
    ensures r.Failure? ==> MissingIs(args, false, r.error) || r.error == "Failed to create event"
  {
    MissingIsNamed(args, false);
    if args.calendarId.None? { return Failure("Missing calendar_id"); }
    if args.title.None? { return Failure("Missing title"); }
    if args.start.None? { return Failure("Missing start"); }
    if args.end.None? { return Failure("Missing end"); }
    var uid := GeneratedUid(uidUuid);
    var saved := SaveEvent(store, args, uid, now, ids);
    match saved
    case Failure(_) => return Failure("Failed to create event");
    case Success(obj) => return Success(obj);
  }

  /** Build the text of an event and store it under its uid. */
  method SaveEvent(store: CalendarStore, args: ToolArgs, uid: string, now: string, ids: UpsertIds)
    returns (r: Result<CalendarObject, AppError>)
    requires args.calendarId.Some? && args.title.Some? && args.start.Some? && args.end.Some?
    requires store.Valid()
    modifies store
    ensures store.Valid()
    ensures store.State() == Apply(old(store.State()), EventOp(args.calendarId.value, ArgsFor(args, uid), now, ids))
    ensures r.Success? <==> args.calendarId.value in old(store.calendars)
    ensures r.Success? ==>
              && StoredEvent(args, uid, now, r.value)
              && store.objects == old(store.objects)[(args.calendarId.value, uid) := r.value]
    ensures r.Failure? ==>
              store.calendars == old(store.calendars) && store.objects == old(store.objects)
              && store.shares == old(store.shares) && store.log == old(store.log)
  {
    var text := BuildVevent(ArgsFor(args, uid), now);
    var saved := store.UpsertObject(args.calendarId.value, uid, text,
                                    ObjectFields("VEVENT", args.start, args.end, args.title), ids);
    match saved
    case Failure(error) => return Failure(error);
    case Success((obj, _)) =>
      StoredIs(args, uid, now, obj);
      return Success(obj);
  }

  method UpdateEventTool(store: CalendarStore, args: ToolArgs, now: string, ids: UpsertIds)
    returns (r: Result<CalendarObject, string>)
    requires store.Valid()
    modifies store
    ensures store.Valid()
    ensures MissingArg(args, true).Some? ==>
              r == Failure(MissingArg(args, true).value) && store.State() == old(store.State())
    ensures MissingArg(args, true).None? ==>
              var c, uid := args.calendarId.value, args.eventUid.value;
              && store.State() == Perform(old(store.State()), UpdateEvent(c, ArgsFor(args, uid), now, ids))
              && if (c, uid) in old(store.objects) then (c, uid) in store.objects
                  && r == Success(store.objects[(c, uid)])
                 else r == Failure("Event not found")
    ensures r.Success? ==> args.eventUid.Some? && StoredEvent(args, args.eventUid.value, now, r.value)
    ensures store.objects == if r.Failure? then old(store.objects)
                             else old(store.objects)[(r.value.calendarId, r.value.uid) := r.value]
    ensures r.Failure? ==>
              store.calendars == old(store.calendars) && store.shares == old(store.shares)
              && store.log == old(store.log)
    ensures r.Failure? ==> MissingIs(args, true, r.error) || r.error == "Event not found"
  {
    MissingIsNamed(args, true);
    if args.calendarId.None? { return Failure("Missing calendar_id"); }
    if args.eventUid.None? { return Failure("Missing event_uid"); }
    if args.title.None? { return Failure("Missing title"); }
    if args.start.None? { return Failure("Missing start"); }
    if args.end.None? { return Failure("Missing end"); }
    var existing := store.GetObjectByUid(args.calendarId.value, args.eventUid.value);
    if existing.None? { return Failure("Event not found"); }
    var saved := SaveEvent(store, args, args.eventUid.value, now, ids);
    match saved
    case Failure(_) => return Failure("Failed to update event");
    case Success(obj) => return Success(obj);
  }

  // Reports ------------------------------------------------------------------------------------------------

  lemma {:induction false} ListingPartsAppend(rows: seq<CalendarObject>, o: CalendarObject, ctx: HrefContext,
      c: string, includeData: bool)
    ensures ListingParts(rows + [o], ctx, c, includeData) ==
            ListingParts(rows, ctx, c, includeData) + [ListingPart(o, ctx, c, includeData)]
  {
    if rows == [] {
      NothingBefore([o]);
      TailOfCons(o, []);
    } else {
      TailOfAppend(rows, [o]);
      ListingPartsAppend(rows[1..], o, ctx, c, includeData);
      Associative([ListingPart(rows[0], ctx, c, includeData)], ListingParts(rows[1..], ctx, c, includeData),
                  [ListingPart(o, ctx, c, includeData)]);
    }
  }

  lemma {:induction false} DeltaPartsAppend(db: Db, ctx: HrefContext, c: string, includeData: bool,
      rows: seq<SyncChange>, row: SyncChange)
    ensures DeltaParts(db, ctx, c, includeData, rows + [row]) ==
            DeltaParts(db, ctx, c, includeData, rows) + EntryFor(db, ctx, c, includeData, row)
  {
    if rows == [] {
      NothingBefore([row]);
      TailOfCons(row, []);
      NothingBefore(EntryFor(db, ctx, c, includeData, row));
    } else {
      TailOfAppend(rows, [row]);
      DeltaPartsAppend(db, ctx, c, includeData, rows[1..], row);
      Associative(EntryFor(db, ctx, c, includeData, rows[0]), DeltaParts(db, ctx, c, includeData, rows[1..]),
                  EntryFor(db, ctx, c, includeData, row));
    }
  }

  /** One response for each listed object. */
  method AddListing(builder: MultistatusBuilder, rows: seq<CalendarObject>, ctx: HrefContext, c: string,
      includeData: bool)
    requires builder.Valid()
    modifies builder
    ensures builder.Valid() && builder.parts == old(builder.parts) + ListingParts(rows, ctx, c, includeData)
  {
    ghost var before := builder.parts;
    TakeAll(rows);
    for i := 0 to |rows|
      invariant builder.Valid() && builder.parts == before + ListingParts(rows[..i], ctx, c, includeData)
    {
      TakeOneMore(rows, i);
      ListingPartsAppend(rows[..i], rows[i], ctx, c, includeData);
      AddObject(builder, rows[i], ctx, c, includeData);
      Associative(before, ListingParts(rows[..i], ctx, c, includeData), [ListingPart(rows[i], ctx, c, includeData)]);
    }
  }

  method AddObject(builder: MultistatusBuilder, o: CalendarObject, ctx: HrefContext, c: string, includeData: bool)
    requires builder.Valid()
    modifies builder
    ensures builder.Valid() && builder.parts == old(builder.parts) + [ListingPart(o, ctx, c, includeData)]
  {
    builder.AddResponse(ObjectHref(ctx, c, o.uid), ObjectProps(o, includeData), []);
  }

  /** One entry for each log row: a bare href for a deletion, else the object as it is now, if it is. */
  method AddChanges(builder: MultistatusBuilder, store: CalendarStore, changes: seq<SyncChange>, ctx: HrefContext,
                    c: string, includeData: bool)
    requires builder.Valid()
    modifies builder
    ensures builder.Valid()
    ensures builder.parts == old(builder.parts) + DeltaParts(store.State(), ctx, c, includeData, changes)
  {
    ghost var before, db := builder.parts, store.State();
    TakeAll(changes);
    for i := 0 to |changes|
      invariant builder.Valid() && builder.parts == before + DeltaParts(db, ctx, c, includeData, changes[..i])
    {
      TakeOneMore(changes, i);
      DeltaPartsAppend(db, ctx, c, includeData, changes[..i], changes[i]);
      AddChange(builder, store, changes[i], ctx, c, includeData);
      Associative(before, DeltaParts(db, ctx, c, includeData, changes[..i]),
          EntryFor(db, ctx, c, includeData, changes[i]));
    }
  }

  method AddChange(builder: MultistatusBuilder, store: CalendarStore, change: SyncChange, ctx: HrefContext, c: string,
                   includeData: bool)
    requires builder.Valid()
    modifies builder
    ensures builder.Valid()
    ensures builder.parts == old(builder.parts) + EntryFor(store.State(), ctx, c, includeData, change)
  {
    var href := ObjectHref(ctx, c, change.objectUid);
    if change.changeType == Deleted {
      builder.AddResponse(href, [], []);
    } else {
      var obj := store.GetObjectByUid(c, change.objectUid);
      if obj.Some? { builder.AddResponse(href, ObjectProps(obj.value, includeData), []); }
    }
  }

  /** The sync-collection report of RFC 6578 for one calendar; None stands for 404. */
  method HandleSync(store: CalendarStore, ctx: HrefContext, c: string, props: seq<PropRequest>, syncToken: string)
    returns (document: Option<seq<XmlToken>>)
    requires store.Valid()
    ensures document.None? <==> c !in store.calendars
    ensures document.Some? ==> Answers(store.State(), ctx, c, WantsData(props), syncToken, document.value)
    ensures document.Some? ==>
              var withData := exists i :: 0 <= i < |props| && props[i].localName == "calendar-data";
              SyncShows(store.State(), ctx, c, withData, syncToken, document.value)
  {
    var calendar := store.GetCalendarById(c);
    if calendar.None? { return None; }
    var includeData := WantsData(props);
    var builder := new MultistatusBuilder();
    if syncToken == "" {
      var rows := store.ListObjects(c);
      AddListing(builder, rows, ctx, c, includeData);
    } else {
      var changes := store.GetSyncChangesSince(c, syncToken);
      AddChanges(builder, store, changes, ctx, c, includeData);
    }
    ghost var entries := builder.parts;
    assert ReportEntries(store.State(), ctx, c, includeData, syncToken, entries);
    builder.AddSyncToken(EnsureSyncTokenUri(calendar.value.syncToken));
    var built := builder.Build();
    AnswersShow(store.State(), ctx, c, includeData, syncToken, built);
    return Some(built);
  }

  /** Whether the client asks for the text of the objects. */
  predicate WantsData(props: seq<PropRequest>) {
    exists i :: 0 <= i < |props| && props[i].localName == "calendar-data"
  }

  /** A client reads one response, text included, for each row, in their order. */
  ghost predicate ShowsListing(document: seq<XmlToken>, rows: seq<CalendarObject>, ctx: HrefContext, c: string) {
    ReadDocument(document).Some? && ShowsRows(ReadDocument(document).value, rows, ctx, c, true)
  }

  /** An object of the calendar. */
  ghost predicate Held(objects: map<Key, CalendarObject>, c: string, o: CalendarObject) {
    exists u :: (c, u) in objects && objects[(c, u)] == o
  }

  ghost predicate InStartOrder(rows: seq<CalendarObject>) {
    forall i, j :: 0 <= i < j < |rows| ==> rows[i] != rows[j] && StartsNoLater(rows[i], rows[j])
  }

  /** Without a range every object; with one, those that start before its end and end after its start. */
  predicate InWindow(o: CalendarObject, range: Option<(string, string)>) {
    range.Some? ==>
      && o.fields.dtstart.Some? && o.fields.dtend.Some?
      && Less(o.fields.dtstart.value, range.value.1) && Less(range.value.0, o.fields.dtend.value)
  }

  /** The rows a calendar query selects. */
  function Queried(db: Db, c: string, range: Option<(string, string)>): set<CalendarObject> {
    match range
    case None => ObjectsOf(db, c)
    case Some((start, end)) => set o | o in ObjectsOf(db, c) && InRange(o, start, end) :: o
  }

  /** The calendar-query report: the objects of a time range, or all of them. */
  method HandleQuery(store: CalendarStore, ctx: HrefContext, c: string, range: Option<(string, string)>)
    returns (document: seq<XmlToken>)
    requires store.Valid()
    ensures exists rows :: Listing(rows, Queried(store.State(), c, range), StartOf)
                           && document == Document(ListingParts(rows, ctx, c, true))
    ensures exists rows :: ShowsListing(document, rows, ctx, c) && InStartOrder(rows)
                           && forall o :: o in rows <==> Held(store.objects, c, o) && InWindow(o, range)
  {
    var rows := SelectQueried(store, c, range);
    document := ListingDocument(rows, ctx, c);
    assert ShowsListing(document, rows, ctx, c);
  }

  method SelectQueried(store: CalendarStore, c: string, range: Option<(string,
      string)>) returns (rows: seq<CalendarObject>)
    requires store.Valid()
    ensures Listing(rows, Queried(store.State(), c, range), StartOf)
    ensures InStartOrder(rows) && forall o :: o in rows <==> Held(store.objects, c, o) && InWindow(o, range)
  {
    match range
    case Some((start, end)) => rows := store.ListObjectsInRange(c, start, end);
    case None => rows := store.ListObjects(c);
  }

  /** A document with one response, text included, for each row. */
  method ListingDocument(rows: seq<CalendarObject>, ctx: HrefContext, c: string) returns (document: seq<XmlToken>)
    ensures document == Document(ListingParts(rows, ctx, c, true)) && ShowsListing(document, rows, ctx, c)
  {
    ListingReads(rows, ctx, c);
    var builder := new MultistatusBuilder();
    AddListing(builder, rows, ctx, c, true);
    assert [] + ListingParts(rows, ctx, c, true) == ListingParts(rows, ctx, c, true);
    document := builder.Build();
  }

  /** The uids a multiget reads out of its hrefs. */
  function UidsOf(hrefs: seq<string>): seq<string> {
    if hrefs == [] then [] else OneOrNone(UidOf(hrefs[0])) + UidsOf(hrefs[1..])
  }

  function OneOrNone<T>(o: Option<T>): seq<T> {
    match o case Some(x) => [x] case None => []
  }

  /** Some href names the uid: its last segment is `name.ics`, and the name decodes to the uid. */
  ghost predicate Listed(hrefs: seq<string>, u: string) {
    exists href, name :: href in hrefs && FileName(href, name) && u == Decoded(name)
  }

  lemma {:induction false} ListedIff(hrefs: seq<string>)
    ensures forall u :: u in UidsOf(hrefs) <==> Listed(hrefs, u)
  {
    if hrefs != [] {
      ListedIff(hrefs[1..]);
      assert hrefs == [hrefs[0]] + hrefs[1..];
      forall u
        ensures u in UidsOf(hrefs) <==> Listed(hrefs, u)
      {
        UidOfIff(hrefs[0], u);
        if href, name :| href in hrefs && FileName(href, name) && u == Decoded(name) {
          assert href == hrefs[0] || href in hrefs[1..];
        }
        assert forall href :: href in hrefs[1..] ==> href in hrefs;
      }
    }
  }

  lemma {:induction false} UidsOfAppend(hrefs: seq<string>, href: string)
    ensures UidsOf(hrefs + [href]) == UidsOf(hrefs) + OneOrNone(UidOf(href))
  {
    if hrefs == [] {
      NothingBefore([href]);
      TailOfCons(href, []);
      NothingBefore(OneOrNone(UidOf(href)));
    } else {
      TailOfAppend(hrefs, [href]);
      UidsOfAppend(hrefs[1..], href);
      Associative(OneOrNone(UidOf(hrefs[0])), UidsOf(hrefs[1..]), OneOrNone(UidOf(href)));
    }
  }

  method HandleMultiget(store: CalendarStore, ctx: HrefContext, c: string, hrefs: seq<string>)
    returns (document: seq<XmlToken>)
    requires store.Valid()
    ensures exists rows :: Listing(rows, Selected(store.State(), c, hrefs), StartOf)
                           && document == Document(ListingParts(rows, ctx, c, true))
    ensures exists rows :: ShowsListing(document, rows, ctx, c) && InStartOrder(rows)
                           && forall o :: o in rows <==> Held(store.objects, c, o) && Listed(hrefs, o.uid)
  {
    var rows := SelectListed(store, c, hrefs);
    document := ListingDocument(rows, ctx, c);
    assert ShowsListing(document, rows, ctx, c);
  }

  method SelectListed(store: CalendarStore, c: string, hrefs: seq<string>) returns (rows: seq<CalendarObject>)
    requires store.Valid()
    ensures Listing(rows, Selected(store.State(), c, hrefs), StartOf)
    ensures InStartOrder(rows) && forall o :: o in rows <==> Held(store.objects, c, o) && Listed(hrefs, o.uid)
  {
    var uids := ReadUids(hrefs);
    rows := store.GetObjectsByUids(c, uids);
    ListedIff(hrefs);
  }

  /** Decode the file name of each href that is an `.ics` name. */
  method ReadUids(hrefs: seq<string>) returns (uids: seq<string>)
    ensures uids == UidsOf(hrefs)
  {
    uids := [];
    TakeAll(hrefs);
    for i := 0 to |hrefs|
      invariant uids == UidsOf(hrefs[..i])
    {
      TakeOneMore(hrefs, i);
      UidsOfAppend(hrefs[..i], hrefs[i]);
      var uid := ReadUid(hrefs[i]);
      if uid.Some? { uids := uids + [uid.value]; }
    }
  }

  method ReadUid(href: string) returns (uid: Option<string>)
    ensures uid == UidOf(href)
  {
    var name := StripSuffix(LastSegment(href), SUFFIX);
    if name.None? { return None; }
    var decoded := PercentDecode(name.value);
    return Some(decoded);
  }

  /** The objects a multiget answers with. */
  function Selected(db: Db, c: string, hrefs: seq<string>): set<CalendarObject> {
    set o | o in ObjectsOf(db, c) && o.uid in UidsOf(hrefs) :: o
  }

  // Report to multiget ---------------------------------------------------------------------------------------

  /** An href of an object of the calendar whose uid reads back, in the username or the email form. */
  ghost predicate EmittedFor(ctx: HrefContext, c: string, u: string, href: string) {
    href == ObjectHref(ctx, c, u) && '/' !in u && PlainPercent(u)
  }

  lemma {:induction false} UidsOfEmitted(ctx: HrefContext, c: string, hrefs: seq<string>, u: string)
    requires forall href :: href in hrefs ==> exists v :: EmittedFor(ctx, c, v, href)
    ensures u in UidsOf(hrefs) <==> ObjectHref(ctx, c, u) in hrefs && '/' !in u && PlainPercent(u)
  {
    if hrefs != [] {
      assert hrefs[0] in hrefs;
      FirstEmitted(ctx, c, hrefs[0], u);
      forall href | href in hrefs[1..]
        ensures exists w :: EmittedFor(ctx, c, w, href)
      {
        assert href in hrefs;
      }
      UidsOfEmitted(ctx, c, hrefs[1..], u);
      InTail(hrefs, ObjectHref(ctx, c, u));
      MoreUids(hrefs, u);
    }
  }

  lemma {:induction false} InTail(hrefs: seq<string>, href: string)
    requires hrefs != []
    ensures href in hrefs <==> href == hrefs[0] || href in hrefs[1..]
  {
  }

  lemma {:induction false} MoreUids(hrefs: seq<string>, u: string)
    requires hrefs != []
    ensures u in UidsOf(hrefs) <==> UidOf(hrefs[0]) == Some(u) || u in UidsOf(hrefs[1..])
  {
  }

  lemma {:induction false} FirstEmitted(ctx: HrefContext, c: string, href: string, u: string)
    requires exists v :: EmittedFor(ctx, c, v, href)
    ensures UidOf(href).Some?
    ensures UidOf(href) == Some(u) <==> href == ObjectHref(ctx, c, u) && '/' !in u && PlainPercent(u)
  {
    var v :| EmittedFor(ctx, c, v, href);
    HrefRoundTrip(ctx, c, v);
    if href == ObjectHref(ctx, c, u) { HrefInjective(ctx, c, u, v); }
  }

  /** Every response of a sync or query report carries the href of an object uid of the calendar. */
  lemma {:induction false} ReportHrefs(db: Db, ctx: HrefContext, c: string, includeData: bool, rows: seq<SyncChange>,
      part: Part)
    requires part in DeltaParts(db, ctx, c, includeData, rows)
    ensures part.Response? && exists r :: r in rows && part.href == ObjectHref(ctx, c, r.objectUid)
    decreases |rows|
  {
    if part !in EntryFor(db, ctx, c, includeData, rows[0]) {
      ReportHrefs(db, ctx, c, includeData, rows[1..], part);
      var r :| r in rows[1..] && part.href == ObjectHref(ctx, c, r.objectUid);
      assert r in rows;
    } else {
      assert rows[0] in rows;
    }
  }

  /**
   A multiget of any emitted hrefs, with repetitions and in any order, selects exactly the live objects
   with those hrefs; `HandleMultiget` lists each once.
   */
  lemma {:induction false} MultigetRoundTrip(db: Db, ctx: HrefContext, c: string, hrefs: seq<string>)
    requires Integrity(db)
    requires forall href :: href in hrefs ==> exists v :: EmittedFor(ctx, c, v, href)
    ensures Selected(db, c, hrefs) == set o | o in ObjectsOf(db, c) && ObjectHref(ctx, c, o.uid) in hrefs :: o
  {
    forall o | o in ObjectsOf(db, c)
      ensures o.uid in UidsOf(hrefs) <==> ObjectHref(ctx, c, o.uid) in hrefs
    {
      UidsOfEmitted(ctx, c, hrefs, o.uid);
      if ObjectHref(ctx, c, o.uid) in hrefs {
        var v :| EmittedFor(ctx, c, v, ObjectHref(ctx, c, o.uid));
        HrefInjective(ctx, c, o.uid, v);
      }
    }
  }

  /** Every response of a full listing carries the href of a listed object. */
  lemma {:induction false} ListingHrefs(rows: seq<CalendarObject>, ctx: HrefContext, c: string, includeData: bool,
      part: Part)
    requires part in ListingParts(rows, ctx, c, includeData)
    ensures part.Response? && exists u :: part.href == ObjectHref(ctx, c, u)
  {
    if part == ListingParts(rows, ctx, c, includeData)[0] {
      assert part.href == ObjectHref(ctx, c, rows[0].uid);
    } else {
      ListingHrefs(rows[1..], ctx, c, includeData, part);
    }
  }

  /** The entries of any report: a listing, log rows, or a calendar query with or without a range. */
  ghost predicate Reported(db: Db, ctx: HrefContext, c: string, entries: seq<Part>) {
    || (exists includeData, token :: ReportEntries(db, ctx, c, includeData, token, entries))
    || (exists range, rows :: Listing(rows, Queried(db, c, range), StartOf)
                              && entries == ListingParts(rows, ctx, c, true))
  }

  lemma {:induction false} ReportedHrefs(db: Db, ctx: HrefContext, c: string, entries: seq<Part>, p: Part)
    requires Reported(db, ctx, c, entries) && p in entries
    ensures p.Response? && exists u :: p.href == ObjectHref(ctx, c, u)
  {
    if range, rows :| Listing(rows, Queried(db, c, range), StartOf) && entries == ListingParts(rows, ctx, c, true) {
      ListingHrefs(rows, ctx, c, true, p);
    } else {
      var includeData, token :| ReportEntries(db, ctx, c, includeData, token, entries);
      if token == "" {
        var rows :| Listing(rows, ObjectsOf(db, c), StartOf) && entries == ListingParts(rows, ctx, c, includeData);
        ListingHrefs(rows, ctx, c, includeData, p);
      } else {
        ReportHrefs(db, ctx, c, includeData, ChangesSince(db.log, c, token), p);
      }
    }
  }

  /**
   A client that sends hrefs of a report to a multiget, at any later time, with repetitions and in any
   order, gets exactly the objects with those hrefs that are live then, provided no href stands for a
   uid with a slash or an inner percent sign.
   */
  lemma {:induction false} ReportThenMultiget(
    db: Db, later: Db, ctx: HrefContext, c: string, entries: seq<Part>, hrefs: seq<string>)
    requires Integrity(later) && Reported(db, ctx, c, entries)
    requires forall href :: href in hrefs ==> exists p :: p in entries && p.Response? && p.href == href
    requires forall u :: ObjectHref(ctx, c, u) in hrefs ==> '/' !in u && PlainPercent(u)
    ensures Selected(later, c, hrefs) == set o | o in ObjectsOf(later, c) && ObjectHref(ctx, c, o.uid) in hrefs :: o
  {
    forall href | href in hrefs
      ensures exists v :: EmittedFor(ctx, c, v, href)
    {
      var p :| p in entries && p.Response? && p.href == href;
      ReportedHrefs(db, ctx, c, entries, p);
      var u :| p.href == ObjectHref(ctx, c, u);
      assert EmittedFor(ctx, c, u, href);
    }
    MultigetRoundTrip(later, ctx, c, hrefs);
  }

  // Query tool ---------------------------------------------------------------------------------------------------

  /** The first `limit` events of a listing; 50 without a limit. */
  method QueryEvents(store: CalendarStore, c: string, start: Option<string>, end: Option<string>, limit: Option<nat>)
    returns (events: seq<CalendarObject>)
    requires store.Valid()
    ensures var range := if start.Some? && end.Some? then Some((start.value, end.value)) else None;
            exists rows :: Listing(rows, Queried(store.State(), c, range), StartOf)
                           && events <= rows
                           && |events| == if |rows| < GetOr(limit, 50) then |rows| else GetOr(limit, 50)
    ensures var range := if start.Some? && end.Some? then Some((start.value, end.value)) else None;
            var n := if limit.Some? then limit.value else 50;
            exists rows :: InStartOrder(rows)
                           && (forall o :: o in rows <==> Held(store.objects, c, o) && InWindow(o, range))
                           && events <= rows && |events| == if |rows| < n then |rows| else n
  {
    var rows;
    if start.Some? && end.Some? {
      rows := store.ListObjectsInRange(c, start.value, end.value);
    } else {
      rows := store.ListObjects(c);
    }
    var n := match limit case Some(n) => n case None => 50;
    events := if |rows| < n then rows else rows[..n];
  }
}
