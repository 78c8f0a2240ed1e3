/**
 The tables of the calendar database, and the effect of each SQL statement on them.

 A `Db` value is the whole database at one moment. Primary keys and UNIQUE constraints are map keys,
 so an INSERT checks that its key is absent; foreign keys are checked where a row is inserted, and
 ON DELETE CASCADE is part of deleting a calendar row.
 */
module Schema {
  import opened Wrappers

  /** The text of a UUID. The program draws them at random; here every operation receives its own. */
  type Uuid = string

  /** A row key made of a calendar id and an object uid (or a user id). */
  type Key = (string, string)

  datatype ChangeType = Created | Modified | Deleted

  datatype Calendar = Calendar(
    id: string, ownerId: string, name: string, description: string, color: string, timezone: string,
    ctag: string, syncToken: string)

  /** The columns extracted from the stored text. */
  datatype ObjectFields = ObjectFields(
    componentType: string, dtstart: Option<string>, dtend: Option<string>, summary: Option<string>)

  datatype CalendarObject = CalendarObject(
    id: Uuid, calendarId: string, uid: string, etag: string, icalData: string, fields: ObjectFields)

  datatype SyncChange = SyncChange(
    id: nat, calendarId: string, objectUid: string, changeType: ChangeType, syncToken: string)

  datatype Share = Share(id: Uuid, calendarId: string, userId: string, permission: string)

  /** `used` is every UUID drawn so far; no column stores it. */
  datatype Db = Db(
    users: set<string>,
    calendars: map<string, Calendar>,
    objects: map<Key, CalendarObject>,
    shares: map<Key, Share>,
    log: seq<SyncChange>,
    nextLogId: nat,
    used: set<Uuid>)

  function EmptyDb(users: set<string>): Db {
    Db(users, map[], map[], map[], [], 1, {})
  }

  // Tokens and etags --------------------------------------------------------------------------

  const TOKEN_PREFIX := "data:,sync-"

  function SyncToken(u: Uuid): string { TOKEN_PREFIX + u }

  function Etag(u: Uuid): string { "\"" + u + "\"" }

  lemma {:induction false} SyncTokenInjective(u: Uuid, v: Uuid)
    requires SyncToken(u) == SyncToken(v)
    ensures u == v
  {
    assert u == SyncToken(u)[|TOKEN_PREFIX|..] && v == SyncToken(v)[|TOKEN_PREFIX|..];
  }

  lemma {:induction false} EtagInjective(u: Uuid, v: Uuid)
    requires Etag(u) == Etag(v)
    ensures u == v
  {
    assert u == Etag(u)[1..|Etag(u)| - 1] && v == Etag(v)[1..|Etag(v)| - 1];
  }

  // SQL statements ----------------------------------------------------------------------------

  /** SELECT of one object by its unique (calendar, uid). */
  function SelectObject(db: Db, c: string, u: string): Option<CalendarObject> {
    if (c, u) in db.objects then Some(db.objects[(c, u)]) else None
  }

  /** INSERT of an object row; None when UNIQUE(calendar_id, uid) or the foreign key refuses it. */
  function InsertObject(db: Db, row: CalendarObject): Option<Db> {
    if row.calendarId in db.calendars && (row.calendarId, row.uid) !in db.objects then
      Some(db.(objects := db.objects[(row.calendarId, row.uid) := row]))
    else
      None
  }

  /** UPDATE of an object row by key; it matches no row when the object is gone. */
  function UpdateObject(db: Db, c: string, u: string, etag: string, data: string, fields: ObjectFields): Db {
    if (c, u) in db.objects then
      db.(objects := db.objects[(c, u) := db.objects[(c, u)].(etag := etag, icalData := data, fields := fields)])
    else
      db
  }

  /** DELETE of an object row by key. */
  function DeleteObjectRow(db: Db, c: string, u: string): Db {
    db.(objects := db.objects - {(c, u)})
  }

  /** INSERT into sync_changes; None when the calendar is gone. */
  function InsertChange(db: Db, c: string, u: string, kind: ChangeType, token: string): Option<Db> {
    if c in db.calendars then
      Some(db.(log := db.log + [SyncChange(db.nextLogId, c, u, kind, token)], nextLogId := db.nextLogId + 1))
    else
      None
  }

  /** UPDATE of ctag and sync_token; it matches no row when the calendar is gone. */
  function SetTokens(db: Db, c: string, token: string): Db {
    if c in db.calendars then
      db.(calendars := db.calendars[c := db.calendars[c].(ctag := token, syncToken := token)])
    else
      db
  }

  /** INSERT of a calendar; None when the id is taken or the owner does not exist. */
  function InsertCalendar(db: Db, cal: Calendar): Option<Db> {
    if cal.id !in db.calendars && cal.ownerId in db.users then
      Some(db.(calendars := db.calendars[cal.id := cal]))
    else
      None
  }

  /** The log without the rows of one calendar. */
  function DropRows(log: seq<SyncChange>, c: string): seq<SyncChange> {
    if log == [] then []
    else
      var last := log[|log| - 1];
      DropRows(log[..|log| - 1], c) + if last.calendarId == c then [] else [last]
  }

  /** DELETE of a calendar row with its cascade to objects, shares and log rows. */
  function DeleteCalendarRow(db: Db, c: string): Db {
    db.(calendars := db.calendars - {c},
        objects := map k | k in db.objects && k.0 != c :: db.objects[k],
        shares := map k | k in db.shares && k.0 != c :: db.shares[k],
        log := DropRows(db.log, c))
  }
}
