# A Dafny model of the calendar store, its synchronisation and its text formats

The server keeps calendars, their objects, their shares and a change log in SQLite, and answers CalDAV and MCP
requests from them. This project models that state and the code around it and proves what clients rely on.

* **The store** (`Schema`, `Operations`, `Store`). The tables are fields of the class `CalendarStore`; its methods
  change them statement by statement, with the UNIQUE, CHECK, foreign key and CASCADE rules of the schema. `Db` is
  the whole database as a value, `Apply` the effect of one whole operation, `Run` and `Reachable` runs of them. Every
  operation receives the UUIDs it would draw; `Fresh` says that they are new, and `used` collects them.
* **Synchronisation** (`History`, `Validators`, `SyncReport`, `Convergence`, `SyncClient`). Log rows become report
  entries that show each object as it is *now*; a client replays them in order. `ReplaySettles` computes the outcome
  for every href, `ConvergesIff` says exactly when the client ends up with the calendar, and the later modules derive
  delta, whole-log and initial convergence along all runs, and of a client that syncs again and again in any trace.
* **Interleaving** (`Interleaving`, `Provenance`, `ConditionalWrites`, `OrderlySchedules`, `SettledSchedules`,
  `ScheduleWitnesses`, `TornSync`). Requests as state machines that advance one awaited statement at a time. Under every
  schedule tokens and etags keep their promises. It is said exactly which schedules keep the protection of If-Match;
  for schedules that drop a calendar only while no write is under way in it, exactly which leave a log that can be
  replayed; rules that suffice for that, and for the life cycle; and exactly when a client whose syncs were torn apart
  by writes recovers.
* **Requests and handlers** (`Requests`, `Handlers`, `ReportContent`). Conditional PUT, DELETE, the MCP event tools, the
  reports; and, column by column, what a client reads in the documents of the reports.
* **Text** (`ICalParser`, `ICalBuilder`, `EventRoundTrip`, `RangeQuery`, `Hrefs`). Unfolding, field extraction, event
  building, stamps compared as text, hrefs and percent decoding.
* **XML** (`XmlRequest`, `TokenSigns`, `ReportToken`, `ReportRange`, `BodyMeaning`, `Properties`, `Multistatus`,
  `ClientReader`). Request readers over a stream of events, with a description of what any body asks for that does not
  mention the readers; property selection, the response builder, and a reader of its documents written from the
  client's side.
* **Support** (`Wrappers`, `Sequences`, `Ordering`, `Strings`, `Namespaces`).

`dafny verify dfyconfig.toml` checks everything.

## Assumptions

* UUIDs do not collide: those of one operation are distinct and were never drawn before (`Operations.Fresh`).
* A client that reads a response with an href and no propstat removes that href, and it replays responses in document
  order (`SyncReport.Absorb`). Without a token it starts from nothing (`SyncClient.ClientSyncs`).
* Statements of one request may be separated by statements of others; a single statement is atomic.

## What the code does where its documentation says otherwise

* docs/database.md:111 says that log rows carry the calendar's current token. `upsert_object` and `delete_object` log
  one fresh token (src/db/events.rs:38, 183) and `bump_ctag` stores another (src/db/calendars.rs:147), so a token the
  server hands out is in no log row, now or later (`Validators.ReachableStamped`, `Validators.IssuedTokenNeverLogged`),
  and each incremental sync of a client replays the whole log. `Convergence.FallbackConvergesIff` says exactly for
  which replicas this works; `SyncClient.EverySyncConverges` that it works for every client of a calendar that is not
  deleted; `SyncClient.StaleAfterRecreation` that it fails after a calendar was deleted and made again under its id.
* docs/database.md:124 gives the delta query as `sync_token > ?`. The code looks the token up and compares row ids
  (src/db/events.rs:218-234).
* docs/database.md:125, docs/caldav-api.md:576 and the comment at src/caldav/report.rs:211 promise a 404 status for
  deletions, as does section 3.5.2 of RFC 6578. The code emits a bare response (src/caldav/report.rs:212).
* docs/caldav-api.md:549 shows an initial sync with a self-closing token element and no sync level; that is read as no
  token. With the sync level that section 6.1 of RFC 6578 asks for, the flag set by the token element is still up
  (src/caldav/xml/parse.rs:199, 235-236) and the text of the level becomes the token. `ReportToken.SelfClosingIff` says
  exactly when a self-closing element reads as no token, `XmlRequest.SelfClosingTokenTakesLevel` covers both bodies.
  The client gets everything either way: `SyncClient.BodyWithoutTokenConverges`.
* `filter_props` returns prefixed names, and every unknown namespace gets the prefix of `DAV:`
  (src/caldav/xml/properties.rs:24, 76-77), so one name can be answered as found and as missing
  (`Properties.SameNameTwice`). `Properties.AnsweredOnceIff` says exactly when that happens.
* `create_event` and `update_event` put description and location into the text as they are, so a line feed in them can
  bring a line that the extractor reads: `EventRoundTrip.DescriptionOverridesSummary`, `Requests.DescriptionBreaksRow`.
* `percent_decode` swallows the two characters behind a percent sign that starts no byte, and accepts `+` as the first
  of the two (src/caldav/report.rs:12-22). `Hrefs.DecodedSame` says which texts it leaves alone.
* An If-Match check and the write behind it are separate statements, so what section 13.1.1 of RFC 9110 asks for holds
  between whole requests (`Requests.AtMostOnePutPerEtag`) and can fail under interleaving
  (`Interleaving.InterleavingLosesUpdate`, `ConditionalWrites.CheckedUpsertMayInsert`).
  `ConditionalWrites.CheckedWriteIff` says for every schedule exactly when it holds.
* A row and its log entry are separate statements too. A deletion and a re-creation can log in the wrong order
  (`Interleaving.InterleavingMisordersLog`, `Interleaving.MisorderedLogMissesObject`), and an update whose calendar is
  dropped and made again meanwhile logs an object that is not there (`ScheduleWitnesses.DropUnderUpdate`).
  `SettledSchedules.SettlesIff` says which schedules leave a log good enough to replay, `OrderlySchedules` gives rules
  that suffice. A log good enough to replay need not spell the life cycle (`ScheduleWitnesses.UpdateBehindDeletion`).

## Model

| member | source | states |
|---|---|---|
| `Store.CalendarStore.constructor` | migrations/001_initial.sql:11-58 | an empty database satisfies the integrity of keys, foreign keys and log ids |
| `Store.CalendarStore.LogSyncChange` | src/db/events.rs:191-209 | appends one row under the next id, and is refused exactly when the calendar is gone |
| `Store.CalendarStore.BumpCtag` | src/db/calendars.rs:146-160 | gives ctag and sync_token one new token, and touches nothing when the calendar is gone |
| `Store.CalendarStore.UpsertObject` | src/db/events.rs:21-90 | the statements together are one whole upsert: the row, one log row of the right kind, a new calendar token; on a missing calendar no table changes and the call fails; integrity is kept |
| `Store.CalendarStore.DeleteObject` | src/db/events.rs:170-188 | the statements together are one whole deletion; NotFound exactly when the object is missing, and then no table changes; integrity is kept |
| `Store.CalendarStore.GetSyncChangesSince` | src/db/events.rs:212-248 | the rows behind the row that carries the token, or the whole history of the calendar when no row does |
| `Store.ChangesAre` | src/db/events.rs:218-244 | the rows returned are those of the calendar whose ids are greater than that of the first row with the token, or all of them without such a row |
| `Store.CalendarStore.ListObjects` | src/db/events.rs:109-117 | each object of the calendar once, NULL starts first, then by start |
| `Ordering.LessIff` | src/db/events.rs:109-141 | text order: the first differing character decides, and a proper prefix comes first |
| `Store.CalendarStore.ListObjectsInRange` | src/db/events.rs:120-141 | each object with both stamps that starts before the end and ends after the start of the range, once, in start order |
| `Store.CalendarStore.GetObjectsByUids` | src/db/events.rs:144-167 | each object whose uid is asked for, once however often it is asked for, in start order |
| `Store.CalendarStore.CreateCalendarWithId` | src/db/calendars.rs:26-55 | a new calendar whose ctag is its sync_token; refused exactly when the id is taken or the owner is unknown |
| `Store.CalendarStore.UpdateCalendar` | src/db/calendars.rs:98-130 | changes only the given properties, and neither ctag nor sync_token |
| `Store.CalendarStore.DeleteCalendar` | src/db/calendars.rs:133-143 | takes the objects, shares and log rows of the calendar with it, and nothing else |
| `Store.CalendarStore.ListCalendarsForUser` | src/db/calendars.rs:81-95 | each calendar the user owns or has a share of, once, by name |
| `Store.CalendarStore.VerifyCalendarAccess` | src/caldav/mod.rs:161-170 | access is granted exactly when the permission lookup returns a permission |
| `Store.CalendarStore.ShareCalendar` | src/db/shares.rs:8-37 | one share per user and calendar; sharing again keeps the row id and takes the new permission |
| `Store.CalendarStore.UnshareCalendar` | src/db/shares.rs:40-55 | removes that share only; NotFound exactly when there is none |
| `Store.CalendarStore.ListSharedCalendars` | src/db/shares.rs:72-95 | each calendar shared with the user once with its permission, sorted by name |
| `Store.CalendarStore.GetUserPermission` | src/db/shares.rs:99-126 | read-write for the owner, else the stored share, else nothing |
| `Store.ReachableAccessAgrees` | src/db/shares.rs:99-126 | in every reachable state the access check and the permission lookup agree, a share always gives a permission, and a permission always comes from ownership or a share of an existing calendar |
| `Operations.ApplyKeepsIntegrity` | migrations/001_initial.sql:11-58 | every operation keeps all foreign keys, key columns, permissions and the order of log ids intact |
| `Operations.ReachableHasIntegrity` | migrations/001_initial.sql:11-58 | in every reachable state no object, share or log row names a missing calendar |
| `History.HistoryLogged` | src/db/events.rs:191-209 | a log row lengthens the history of its own object and of no other |
| `History.ApplyKeepsLifeCycle` | src/db/events.rs:34-80 | every operation keeps each history spelled created, modified*, deleted, repeated, and ending live exactly for live objects |
| `History.ReachableLifeCycle` | src/db/events.rs:170-187 | in every reachable state the histories are so spelled, and the last row of an object with rows is a deletion exactly when the object is gone |
| `Validators.ApplyKeepsStamps` | src/db/calendars.rs:146-160 | every operation keeps ctag equal to sync_token, calendar tokens out of the log, and log tokens and etags unique |
| `Validators.ReachableStamped` | src/db/calendars.rs:35-50 | all of that holds in every reachable state |
| `Validators.IssuedTokenNeverLogged` | src/db/events.rs:38 | a token once drawn and not in the log is in the log of no later state |
| `Validators.CtagSoundness` | src/db/events.rs:82-83 | the same ctag at two points of any run means the same objects at both |
| `Validators.EtagSoundness` | src/db/events.rs:16-18 | the same etag at two points of any run means the same row, key and text included |
| `Validators.RetiredEtagNeverReturns` | src/db/events.rs:37 | an etag that no object carries any more is carried by none in any later state |
| `SyncReport.LastEntryWins` | src/caldav/report.rs:206-230 | replaying responses in order leaves, for each href, what its last response says |
| `SyncReport.ReplaySettles` | src/caldav/report.rs:200-231 | for any rows, state and replica: what the client holds for each uid after replaying entries that show current objects |
| `SyncReport.ReplayElsewhere` | src/caldav/report.rs:206-230 | hrefs of no logged uid are left alone |
| `SyncReport.ConvergesIff` | src/caldav/report.rs:200-231 | for any rows, state and replica: exactly when replay turns the replica into the calendar |
| `Convergence.InitialSyncConverges` | src/caldav/report.rs:186-199 | a client without a token ends up with exactly the calendar, in whatever order equal starts come |
| `Convergence.UnloggedTokenGetsAll` | src/db/events.rs:236-244 | a token in no log row is answered with the whole history of the calendar |
| `Convergence.FallbackConvergesIff` | src/db/events.rs:236-244 | replaying the whole history converges exactly for replicas that hold no href unknown to the log |
| `Convergence.SettlesIffReplayable` | src/caldav/report.rs:200-231 | for any state: the rows of a calendar settle its objects exactly when replaying them converges for every replica whose hrefs the log knows |
| `Convergence.FallbackConverges` | src/caldav/report.rs:200-231 | in every reachable state the calendar's own token is in no log row, and its report brings the empty and every known replica to the calendar |
| `Convergence.AfterIsSuffix` | src/db/events.rs:227-234 | the rows behind a row of the calendar are a suffix of its rows |
| `Convergence.GrownOrLost` | src/db/events.rs:226-248 | along any run a calendar with a logged token has only grown, each object without a new row unchanged, or the token is gone from the log |
| `Convergence.DeltaConverges` | src/caldav/report.rs:200-231 | for every run and every token still in the log: a replica as of just after that row becomes the present calendar |
| `SyncClient.SyncReads` | src/caldav/report.rs:233-237 | from the document a client reads exactly the report's entries and the calendar's token |
| `SyncClient.TraceInv` | src/caldav/report.rs:167-238 | at every moment of every trace the token a client holds is in no log row, and the database is sound |
| `SyncClient.SyncConvergesIff` | src/caldav/report.rs:167-238 | each sync of each trace converges exactly when every href held before belongs to a uid of the present log |
| `SyncClient.EverySyncConverges` | src/caldav/report.rs:167-238 | every sync of every trace leaves the client with exactly the calendar, as long as the calendar was not deleted before that sync |
| `SyncClient.StaleAfterRecreation` | src/db/calendars.rs:133-143 | after deletion and re-creation under one id the calendar is empty, yet an old client's replica stays as it was |
| `SyncClient.ForeignTokenConverges` | src/db/events.rs:236-244 | in every reachable state a report for a token of another shape brings a client that starts empty to the calendar |
| `SyncClient.BodyWithoutTokenConverges` | src/caldav/xml/parse.rs:231-238 | whatever body is read as a sync request, if none of its texts is a token of the server, a client that starts empty ends with exactly the calendar |
| `SyncClient.DeletedCalendarLeavesClientBehind` | src/db/calendars.rs:133-143 | a trace of create, write, sync, delete, create again and sync ends with a client that holds an object of the empty calendar |
| `Interleaving.SoloRunIsWholeOperation` | src/db/events.rs:21-90 | the statements of any request, run without interruption, amount to its whole operation, and succeed exactly when that does; a request refused by If-Match changes nothing |
| `Interleaving.PlayKeepsInv` | src/db/events.rs:34-85 | under every interleaving each live uid is in the log or owed a log row by an open request, and each row sits under its own unique key |
| `Interleaving.QuiescentReportNamesLiveUids` | src/caldav/report.rs:206-230 | once all requests of any interleaving have finished, the whole-log report names every live uid |
| `Interleaving.QuiescentCtagSoundness` | src/db/events.rs:82-83 | between two moments without open requests the same ctag means the same objects, under every interleaving |
| `Interleaving.InterleavingMisordersLog` | src/db/events.rs:171-184 | a deletion and a re-creation can interleave so that the object is live and its last log row is the deletion |
| `Interleaving.MisorderedLogMissesObject` | src/caldav/report.rs:210-212 | in such a state the whole-log replay leaves the live object out, for every replica |
| `Interleaving.InterleavingLosesUpdate` | src/caldav/put.rs:45-77 | two PUTs with the same etag can interleave so that both succeed and the second text stays |
| `Provenance.ScheduledIsStamped` | src/db/events.rs:34-85 | at every moment of every schedule all keys and foreign keys are intact, ctag is the sync token, no log row carries a calendar token, and log tokens and etags are unique |
| `Provenance.ShownTokenNeverLogged` | src/db/calendars.rs:146-160 | a token a calendar shows at one moment of a schedule is in no log row then or later |
| `Provenance.OwnTokenReportNamesLiveUids` | src/caldav/report.rs:200-231 | once all requests of any schedule have finished, the report for the calendar token is the whole history and names every live uid |
| `ConditionalWrites.ScheduledEtagSoundness` | src/db/events.rs:16-18 | the same etag at two moments of any schedule means the same row, key and text included |
| `ConditionalWrites.CheckedWriteIff` | src/caldav/put.rs:45-77 | in every schedule a conditional upsert replaces exactly the version it checked if and only if no update, deletion, accepted insert or calendar drop hits that row between its check and its own row statement; one that ends in an insert was hit |
| `ConditionalWrites.SecondCheckFails` | src/caldav/put.rs:45-57 | once a conditional upsert has executed its row statement, every later check with the same etag fails, so two succeed only if both checks precede both row statements |
| `ConditionalWrites.ReplacedOnce` | src/caldav/put.rs:45-77 | under every schedule at most one conditional upsert replaces the version with a given etag |
| `ConditionalWrites.CheckedUpsertMayInsert` | src/db/events.rs:34-57 | a conditional PUT whose object is deleted behind its check succeeds by creating the object again |
| `OrderlySchedules.OrderlyLogSettles` | src/db/events.rs:59-79 | if no write changes or logs a row while another owes a log row for the object, and no calendar is dropped under a write that found its row, then in every quiet state the log settles every object |
| `OrderlySchedules.OrderlyReportConvergesIff` | src/caldav/report.rs:200-231 | in the quiet states of such schedules the report for the calendar token converges exactly for replicas whose hrefs the log knows |
| `OrderlySchedules.OrderlyLifeCycle` | src/db/events.rs:59-79 | if moreover no object is deleted under an update that found it, the log of every quiet state spells the life cycle of whole operations |
| `SettledSchedules.SettlesIff` | src/db/events.rs:170-187 | in every quiet state of every schedule that drops the calendar only while no write has found or owes a row in it: the log settles the calendar if and only if no live object had its deletion logged last |
| `SettledSchedules.OwnTokenReportsConvergeIff` | src/caldav/report.rs:200-231 | that is also exactly when the report for the calendar token brings every replica whose hrefs the log knows to the calendar |
| `ScheduleWitnesses.UpdateBehindDeletion` | src/db/events.rs:62-79 | from the empty system, without the last rule: an update that found its row can log a modification behind a deletion, and the life cycle fails |
| `ScheduleWitnesses.DropUnderUpdate` | src/db/calendars.rs:133-143 | from the empty system, without the rule on drops: an update in a calendar that is dropped and made again logs a modification of a dead object, and the log settles no longer |
| `TornSync.QuietSyncRepairsIff` | src/caldav/report.rs:174-231 | in any trace of writes and of syncs, both advancing by single statements (anchor lookup and row select included), on a calendar that is not dropped: a sync that meets a quiet server leaves exactly the calendar if and only if the client had no token or no live object has a deletion as its last log row |
| `TornSync.QuietSyncRepairs` | src/caldav/report.rs:174-231 | if the writes follow the rules, it always does |
| `Requests.RequestsAreOps` | src/caldav/put.rs:44-77 | a run of requests is a run of store operations, so the results on runs hold of it |
| `Requests.PreconditionIsAdmitted` | src/caldav/put.rs:45-57 | the If-Match decision of a whole request is the one that the check statement takes in a schedule |
| `Requests.TrimIcsIs` | src/caldav/put.rs:17 | trimming takes repetitions of `.ics` off the end, nothing else, and leaves none |
| `Requests.PutUidIs` | src/caldav/put.rs:41-42 | the uid of a PUT is the one in the text, and without one a file name `u.ics` names `u` |
| `Requests.AcceptedPutReplaces` | src/caldav/put.rs:45-77 | an accepted conditional PUT replaces exactly the version with its etag, touches no other object, and retires the etag |
| `Requests.AtMostOnePutPerEtag` | src/caldav/put.rs:45-77 | among the PUTs of a run with the same specific etag, at most one is accepted |
| `Requests.IndexAgreement` | src/caldav/put.rs:41-77 | in every state reached by any PUTs and by MCP calls that are clean and plain, the columns and the uid of each row are those of its text |
| `Requests.EventRowAgreesIff` | src/mcp/tools/events.rs:106-120 | for every accepted MCP call: the written row agrees with its text exactly when the lines of the text, each unfolded by itself, leave the fields the caller means; never with a line feed in uid, stamps or summary; with one-line uid, summary, stamps and zone, exactly when the lines that description and location unfold to leave them; and if those bring no marker or property line, exactly when the arguments are clean |
| `Requests.DescriptionBreaksRow` | src/mcp/tools/events.rs:102-120 | with clean arguments and a SUMMARY line behind a line feed in the description, the row agrees only if that line gives the summary meant |
| `Handlers.HandlePut` | src/caldav/put.rs:12-96 | ends in the state of the whole request. For a readable body 412 exactly when If-Match is given, is not `*`, and no object of that uid carries it; then 500 for a missing calendar, else 201 or 204 with the new quoted etag, the text stored under the uid of the text or else under `u` for a file name `u.ics`, the columns being the fields found in the text, and no other object touched. 400 for an unreadable body. With 400, 412 or 500 no table changes |
| `Handlers.HandleDeleteObject` | src/caldav/delete.rs:9-25 | 404 exactly when there is no object of the file name; for a file name `u.ics` it succeeds exactly when `u` is live in that calendar, and removes that object and no other |
| `Handlers.CreateEventTool` | src/mcp/tools/events.rs:93-132 | names the first missing argument and writes nothing, or ends in the state of the whole request: a row under `<uuid>@caldav-server` whose columns are the arguments and whose text is the event written out |
| `Handlers.UpdateEventTool` | src/mcp/tools/events.rs:156-208 | names the first missing argument or the missing event and writes nothing, or ends in the state of the whole request: the row of that uid with the arguments as columns and the event written out as text |
| `Handlers.HandleSync` | src/caldav/report.rs:167-238 | 404 exactly without the calendar; else a client reads, for the empty token, one response per object in start order, and otherwise one per log row since the token, a bare href for a deletion and the object as it is now else, and last the token of the calendar as a URI. A response holds the etag, the content type and, exactly when a requested local name is calendar-data, the text of the object, under their own names |
| `ReportContent.AnswersShow` | src/caldav/report.rs:186-231 | any document that answers a sync report shows etags, content type and texts of the objects to a client, under the prefixed names that the root declares |
| `ReportContent.ListingReads` | src/caldav/xml/properties.rs:347-375 | a document with a listing reads back as one response per row, with the etag, the content type and the text of the row |
| `ReportContent.SameViewSameTexts` | src/caldav/xml/properties.rs:347-375 | two states that look the same to a client have the same objects with the same etags and texts |
| `Properties.TokenUriIs` | src/caldav/xml/properties.rs:9-15 | the token shown has a scheme: it is the stored one exactly when that has a colon, and `data:,` in front of it otherwise |
| `Handlers.HandleQuery` | src/caldav/report.rs:136-164 | a client reads one response, etag and text included, for each object of the calendar, in start order; with a range, for those with both stamps that start before its end and end after its start |
| `Handlers.HandleMultiget` | src/caldav/report.rs:99-133 | a client reads one response, etag and text included, for each live object whose uid is the decoded file name, without `.ics`, of some href, once each |
| `Handlers.MultigetRoundTrip` | src/caldav/report.rs:109-121 | a multiget of emitted hrefs, duplicates allowed, selects exactly the live objects with those hrefs |
| `Handlers.ReportThenMultiget` | src/caldav/report.rs:99-133 | any hrefs of any sync report, calendar query or time-range query, sent to a multiget at any later time, select exactly the objects with those hrefs that are live then |
| `Handlers.QueryEvents` | src/mcp/tools/events.rs:227-258 | the first `limit` objects of the calendar in start order, 50 without a limit; with both bounds, of those that start before the end and end after the start |
| `ICalParser.UnfoldLines` | src/ical/parser.rs:75-98 | for every text the loop returns the logical lines that the next three are about |
| `ICalParser.UnfoldedIs` | src/ical/parser.rs:75-98 | for every text: its lines stand in groups, each with the lines behind it that begin with a blank; the joined groups without those blanks, empty ones left out, are the logical lines |
| `Strings.LinesAre` | src/ical/parser.rs:79 | the lines of a text hold no line feed, and with one behind each they are the text again |
| `Strings.TrimReturnsIs` | src/ical/parser.rs:81 | stripping a line takes every carriage return off its end and nothing else |
| `ICalParser.UnfoldInvertsFold` | src/ical/parser.rs:75-98 | unfolding returns the original lines for any fold points, blanks and line ends |
| `ICalParser.FoldingIsIrrelevant` | src/ical/parser.rs:14-56 | extracted fields do not depend on how the text was folded |
| `ICalParser.ExtractFields` | src/ical/parser.rs:14-56 | finds what the declarative description of the fields says, for every text |
| `ICalParser.ExtractedFields` | src/ical/parser.rs:20-55 | for every list of lines: the last UID anywhere, the last DTSTART and SUMMARY in a component, the last DTEND there or else the first DUE, and the last component begun |
| `ICalParser.ExtractPropertyIff` | src/ical/parser.rs:59-72 | a line gives a property a value exactly when it is `name:value` or `name;parameters:value` with no colon in the parameters |
| `ICalParser.MarkerIff` | src/ical/parser.rs:25-33 | the prefixes that begin and end components |
| `Strings.TrimIs` | src/ical/parser.rs:23 | trimming takes white space off both ends, all of it and nothing else |
| `ICalBuilder.BuildVevent` | src/ical/builder.rs:10-73 | the pushes, whichever optional arguments are present, yield the text that `RoundTripIff` is about |
| `ICalBuilder.TextIsWrittenOut` | src/ical/builder.rs:21-72 | the joined lines are the event of section 3.6.1 of RFC 5545, written out: zone component, stamps, summary, description and location in their places |
| `ICalBuilder.OffsetsAre` | src/ical/builder.rs:76-106 | the offset lines name the offsets of a table of thirteen zones, and zero for any other zone |
| `ICalBuilder.ScanTimezone` | src/ical/builder.rs:27-46 | no line of the VTIMEZONE block, its DTSTART lines included, reaches the fields |
| `ICalBuilder.BuiltFields` | src/ical/parser.rs:14-56 | what the extractor finds in a built text: for any arguments, what its lines leave, each unfolded by itself; with one-line uid, summary, stamps and zone, the fields of the event lines, as the lines that description and location unfold to leave them |
| `ICalBuilder.UidIsRead` | src/ical/parser.rs:39-40 | however many line feeds the arguments hold, a built text yields a uid |
| `EventRoundTrip.FieldsAreOneLine` | src/ical/parser.rs:75-98 | no text ever yields a uid, start, end or summary with a line feed |
| `EventRoundTrip.RoundTripIff` | src/ical/builder.rs:10-73 | with a one-line zone and a description and location that bring no marker or property line, the extractor gives the arguments back exactly when none of the four ends in white space or holds a line feed and the zone has no colon |
| `EventRoundTrip.OneLineIsPlain` | src/ical/builder.rs:62-67 | a description and a location without line feeds never bring such a line |
| `EventRoundTrip.DescriptionOverridesSummary` | src/ical/parser.rs:50-52 | a description that brings a SUMMARY line behind a line feed decides the summary, and nothing else |
| `RangeQuery.TextOrderIsTimeOrder` | src/db/events.rs:131-132 | comparing fixed-form UTC stamps as text compares the instants they name in the Gregorian calendar |
| `RangeQuery.InRangeIsMeets` | src/db/events.rs:127-133 | on such stamps the WHERE clause is the overlap condition, and for proper intervals it means a common instant |
| `RangeQuery.RangeQueryIsExact` | src/db/events.rs:120-141 | the rows of the full listing that overlap the range in time are an admissible answer of the range query, as an ordered sublist |
| `RangeQuery.RangeRowsAreListed` | src/db/events.rs:120-141 | the rows returned are exactly the objects of the full listing that overlap in time, and in its order when no two of them start at the same time |
| `Hrefs.PercentDecode` | src/caldav/report.rs:8-25 | for every text, bad and short escapes included, the iterator loop returns the decoding that the round trips are about |
| `Hrefs.HrefInjective` | src/caldav/xml/properties.rs:397-402 | two uids of one calendar never share an href |
| `Hrefs.DecodedSame` | src/caldav/report.rs:8-25 | decoding leaves a text alone exactly when no percent sign stands before another character |
| `Hrefs.DecodedMeans` | src/caldav/report.rs:8-25 | decoding undoes any percent encoding: however the characters of a text are written, as they are or by two hexadecimal digits of either case, the text comes back |
| `Hrefs.HexDigitIff` | src/caldav/report.rs:14-16 | what counts as a hexadecimal digit, and its value |
| `Hrefs.HexByteIff` | src/caldav/report.rs:16 | two characters are taken for a byte exactly when they are two hexadecimal digits, or a plus sign and one |
| `Hrefs.UidOfIff` | src/caldav/report.rs:109-117 | the uid of an href is the decoding of its last segment less `.ics`; there is none exactly when the segment does not end so |
| `Hrefs.HrefSegments` | src/caldav/xml/properties.rs:378-402 | an emitted href is a path of the object routes of the server, segment by segment, and its file name is the uid with `.ics` behind it, which is what PUT and DELETE take |
| `Hrefs.DecodeEncoded` | src/caldav/mod.rs:33-35 | decoding undoes the email encoding on text without percent signs |
| `Hrefs.HrefRoundTrip` | src/caldav/report.rs:109-117 | an emitted href reads back to its uid exactly when the uid has no slash and no percent sign before another character |
| `Properties.FilterProps` | src/caldav/xml/properties.rs:35-84 | allprop gives the offer and propname the offer without values, nothing missing; else the found list holds exactly the offered properties whose name and namespace are asked for, and the missing list exactly the prefixed names of the requests that no offer matches |
| `Properties.PropertyPartition` | src/caldav/xml/properties.rs:56-82 | an offered request is found, any other has its prefixed name in the missing list; found properties keep the order of the offer and missing names the order of the request |
| `Properties.AnsweredOnceIff` | src/caldav/xml/properties.rs:69-82 | a client reads the name of every request on exactly one side if and only if no missing request has the prefix and the local name of a found property |
| `Properties.KnownNamespacesNeverClash` | src/caldav/xml/properties.rs:18-26 | requests in the four known namespaces never do |
| `Properties.PrefixesAreDeclared` | src/caldav/xml/properties.rs:18-26 | the root of every document declares the prefix of each known namespace for it and for nothing else; any other namespace gets the prefix of `DAV:` |
| `Properties.SameNameTwice` | src/caldav/xml/properties.rs:24 | getetag asked for in DAV: and in an unknown namespace is answered as found and as missing under one name |
| `Multistatus.MultistatusBuilder.constructor` | src/caldav/xml/multistatus.rs:26-43 | a new document holds the preamble and no part |
| `Multistatus.MultistatusBuilder.AddResponse` | src/caldav/xml/multistatus.rs:46-168 | appends one response with this href and these two property lists behind all earlier parts |
| `Multistatus.MultistatusBuilder.AddSyncToken` | src/caldav/xml/multistatus.rs:171-181 | appends one sync token behind all earlier parts |
| `Multistatus.MultistatusBuilder.Build` | src/caldav/xml/multistatus.rs:184-191 | the document of exactly the parts added, in call order |
| `Multistatus.WellNestedDocument` | src/caldav/xml/multistatus.rs:26-191 | whatever was added, with balanced fragments, a stack checker accepts the document and finds one root |
| `ClientReader.ReadBack` | src/caldav/xml/multistatus.rs:26-191 | a client that reads the document gets back every call in call order, with its href, properties, statuses and token |
| `XmlRequest.NsContext.RegisterFromEvent` | src/caldav/xml/parse.rs:40-50 | the last declaration of each prefix gives its binding, and a prefix that is not declared keeps the one it had |
| `XmlRequest.LastDeclarationWins` | src/caldav/xml/parse.rs:41-49 | the same for the bindings after any list of attributes |
| `XmlRequest.NsContext.Resolve` | src/caldav/xml/parse.rs:53-86 | the namespace that `BodyMeaning.ResolvedIff` describes, whatever the attributes and bindings |
| `BodyMeaning.ResolvedIff` | src/caldav/xml/parse.rs:53-86 | for any declarations read so far, the namespace found is the first own `xmlns` of the element; without one the last declaration of its prefix, the empty one included; without one the conventional namespace of the prefix, or `DAV:` |
| `BodyMeaning.LocalNameIff` | src/caldav/xml/parse.rs:108 | the local name is what stands behind the first colon, or the whole name |
| `XmlRequest.ParsePropfind` | src/caldav/xml/parse.rs:90-145 | for every event sequence the flag-driven loop returns the request that `BodyMeaning.PropfindIs` describes |
| `BodyMeaning.PropfindIs` | src/caldav/xml/parse.rs:90-145 | for every event sequence: the first malformed event, allprop or propname element decides; without one the request is for each element inside a prop element, by namespace and local name in document order, and for all properties if there is none |
| `BodyMeaning.AsksOneList` | src/caldav/xml/parse.rs:117-123 | no two lists of requested properties fit that description of one body |
| `BodyMeaning.ChildNamespaces` | src/caldav/xml/parse.rs:53-86 | each child of a flat prop element has the namespace that its own attributes and the declarations on the root and the prop element give it |
| `XmlRequest.PrefixesAreIrrelevant` | src/caldav/xml/parse.rs:53-86 | any injective renaming of the prefixes declared on the root leaves the requested properties as they are |
| `XmlRequest.FlatPropsInOrder` | src/caldav/xml/parse.rs:103-144 | the elements inside the prop element, closed at once or not, are the requested properties in document order; without any the request is for all |
| `XmlRequest.RequestsAreChildren` | src/caldav/xml/parse.rs:117-123 | there is one requested property per child, with the child's resolved namespace and local name |
| `XmlRequest.ParseReport` | src/caldav/xml/parse.rs:165-259 | for every event sequence the flag-driven loop returns the request that `BodyMeaning.ReportIs`, `ReportToken.SyncTokenIs` and `ReportRange.QueryRangeIs` describe |
| `BodyMeaning.ReportIs` | src/caldav/xml/parse.rs:165-259 | for every event sequence: there is a request exactly when no event is malformed and some element is named calendar-multiget, calendar-query or sync-collection, and the last such element decides which; it asks for the elements inside prop elements that the reader does not know, in document order, and a multiget for the texts inside href elements |
| `XmlRequest.SentTokenIsRead` | src/caldav/xml/parse.rs:231-238 | a token sent as text is read as it is, with or without a sync level and whatever the prefixes |
| `XmlRequest.SelfClosingTokenTakesLevel` | src/caldav/xml/parse.rs:199 | behind a self-closing token element the text of the sync level becomes the token, and without a level there is none |
| `XmlRequest.MultigetHrefsInOrder` | src/caldav/xml/parse.rs:231-234 | a multiget asks for exactly the hrefs it lists, in their order |
| `ReportToken.SyncTokenIs` | src/caldav/xml/parse.rs:186-238 | for every event sequence read as a sync request, the token is the last text outside hrefs behind a sync-token opening, self-closing or not, with no sync-token closing in between |
| `ReportToken.SelfClosingIff` | src/caldav/xml/parse.rs:199 | with one self-closing token element anywhere, the token is empty exactly when no text follows outside hrefs and before a closing of sync-token, or the last such text is empty |
| `ReportToken.TextTokenIsRead` | src/caldav/xml/parse.rs:231-238 | with one token element that holds a text, that text is the token, whatever stands around it |
| `ReportRange.QueryRangeIs` | src/caldav/xml/parse.rs:200-211 | for every event sequence read as a calendar query: the range is the last start and the last end of all elements with the local name time-range, and there is none exactly when one of them is absent or its last value is empty |
| `ReportRange.SentQueryIsRead` | src/caldav/xml/parse.rs:186-252 | a calendar query with any properties and one time range is read as it was sent, whatever the prefixes |

## Left out

- Interleaving.PlayKeepsInv: covers object writes, calendar creation and deletion; sharing and renaming are single statements on other columns and tables and are not interleaved, and of the reports the sync report is (`TornSync`).
- Handlers.QueryEvents: takes its arguments as read; the check for a missing calendar id is not repeated.
- Routing, authentication, sessions, MCP tokens, JSON-RPC, tool schemas, simple-mode tools, configuration, CLI and logging: wiring and lookups.
- XML lexing, escaping, text trimming and encodings: readers start from events, the builder writes tokens.
- Attributes that the XML library reports as malformed: attribute lists are taken as read.
- UUID generation: values are parameters, and collisions are assumed away.
- Wall-clock columns: not modelled; the DTSTAMP of a built event is an arbitrary line.
- I/O failures and crashes between statements: only constraint failures are modelled, so the branches that turn a failed read into an empty list do not occur.
- The users table: a fixed set, so cascades from deleted users do not occur.
- Row ids: a clash of a fresh row id with an old one is excluded with UUID collisions; the AUTOINCREMENT counter is unbounded.
- The body size limit and the UTF-8 check of PUT: reduced to three kinds of body; the limit on SQL parameters is not modelled.
- The truth of the time zone offset tables, and second 60 in stamps.
- The property lists of the root, principal, home and calendar resources, PROPPATCH and MKCALENDAR bodies: long lists without further logic.
