/**
 Whole store operations in closed form, and runs of them.

 `Apply` says what each operation leaves behind when nothing else runs in between. An operation that
 a constraint refuses changes no table; it still uses up the UUIDs it drew.
 */
module Operations {
  import opened Wrappers
  import opened Schema

  /** The UUIDs of one upsert: row id, etag, log token, calendar token. */
  datatype UpsertIds = UpsertIds(row: Uuid, etag: Uuid, log: Uuid, bump: Uuid)

  datatype Op =
    | Upsert(c: string, u: string, data: string, fields: ObjectFields, ids: UpsertIds)
    | Delete(c: string, u: string, log: Uuid, bump: Uuid)
    | CreateCalendar(c: string, owner: string, name: string, description: string, color: string,
                     timezone: string, token: Uuid)
    | UpdateCalendar(c: string, newName: Option<string>, newDescription: Option<string>,
                     newColor: Option<string>, newTimezone: Option<string>)
    | DeleteCalendar(c: string)
    | ShareCalendar(c: string, user: string, permission: string, id: Uuid)
    | UnshareCalendar(c: string, user: string)

  function GetOr<T>(o: Option<T>, default: T): T {
    match o case Some(v) => v case None => default
  }

  function WithToken(cal: Calendar, token: string): Calendar {
    cal.(ctag := token, syncToken := token)
  }

  /** The log after one more row. */
  function Logged(db: Db, c: string, u: string, kind: ChangeType, token: string): seq<SyncChange> {
    db.log + [SyncChange(db.nextLogId, c, u, kind, token)]
  }

  function UpsertDb(db: Db, c: string, u: string, data: string, fields: ObjectFields, ids: UpsertIds): Db {
    var used := db.used + {ids.row, ids.etag, ids.log, ids.bump};
    if c !in db.calendars then db.(used := used)
    else
      var known := (c, u) in db.objects;
      var id := if known then db.objects[(c, u)].id else ids.row;
      db.(objects := db.objects[(c, u) := CalendarObject(id, c, u, Etag(ids.etag), data, fields)],
          log := Logged(db, c, u, if known then Modified else Created, SyncToken(ids.log)),
          nextLogId := db.nextLogId + 1,
          calendars := db.calendars[c := WithToken(db.calendars[c], SyncToken(ids.bump))],
          used := used)
  }

  function DeleteDb(db: Db, c: string, u: string, log: Uuid, bump: Uuid): Db {
    var used := db.used + {log, bump};
    if (c, u) !in db.objects || c !in db.calendars then db.(used := used)
    else
      db.(objects := db.objects - {(c, u)},
          log := Logged(db, c, u, Deleted, SyncToken(log)),
          nextLogId := db.nextLogId + 1,
          calendars := db.calendars[c := WithToken(db.calendars[c], SyncToken(bump))],
          used := used)
  }

  function CreateCalendarDb(db: Db, cal: Calendar, token: Uuid): Db {
    GetOr(InsertCalendar(db, cal), db).(used := db.used + {token})
  }

  function Renamed(cal: Calendar, name: Option<string>, description: Option<string>,
                   color: Option<string>, timezone: Option<string>): Calendar {
    cal.(name := GetOr(name, cal.name), description := GetOr(description, cal.description),
         color := GetOr(color, cal.color), timezone := GetOr(timezone, cal.timezone))
  }

  predicate KnownPermission(p: string) { p == "read" || p == "read-write" }

  /** INSERT .. ON CONFLICT DO UPDATE: a second share keeps its row id and takes the new permission. */
  function ShareDb(db: Db, c: string, user: string, permission: string, id: Uuid): Db {
    var used := db.used + {id};
    if c !in db.calendars || user !in db.users || !KnownPermission(permission) then db.(used := used)
    else
      var rowId := if (c, user) in db.shares then db.shares[(c, user)].id else id;
      db.(shares := db.shares[(c, user) := Share(rowId, c, user, permission)], used := used)
  }

  function Apply(db: Db, op: Op): Db {
    match op
    case Upsert(c, u, data, fields, ids) => UpsertDb(db, c, u, data, fields, ids)
    case Delete(c, u, log, bump) => DeleteDb(db, c, u, log, bump)
    case CreateCalendar(c, owner, name, description, color, timezone, token) =>
      CreateCalendarDb(
        db, Calendar(c, owner, name, description, color, timezone, SyncToken(token), SyncToken(token)), token)
    case UpdateCalendar(c, name, description, color, timezone) =>
      if c !in db.calendars then db
      else db.(calendars := db.calendars[c := Renamed(db.calendars[c], name, description, color, timezone)])
    case DeleteCalendar(c) => DeleteCalendarRow(db, c)
    case ShareCalendar(c, user, permission, id) => ShareDb(db, c, user, permission, id)
    case UnshareCalendar(c, user) => db.(shares := db.shares - {(c, user)})
  }

  // Runs --------------------------------------------------------------------------------------

  function DrawnBy(op: Op): seq<Uuid> {
    match op
    case Upsert(_, _, _, _, ids) => [ids.row, ids.etag, ids.log, ids.bump]
    case Delete(_, _, log, bump) => [log, bump]
    case CreateCalendar(_, _, _, _, _, _, token) => [token]
    case ShareCalendar(_, _, _, id) => [id]
    case UpdateCalendar(_, _, _, _, _) => []
    case DeleteCalendar(_) => []
    case UnshareCalendar(_, _) => []
  }

  /** UUIDs do not collide: those of one operation are distinct and never drawn before. */
  ghost predicate Fresh(db: Db, op: Op) {
    var drawn := DrawnBy(op);
    && (forall i, j :: 0 <= i < j < |drawn| ==> drawn[i] != drawn[j])
    && (forall i :: 0 <= i < |drawn| ==> drawn[i] !in db.used)
  }

  function Run(db: Db, ops: seq<Op>): Db
    decreases |ops|
  {
    if ops == [] then db else Run(Apply(db, ops[0]), ops[1..])
  }

  ghost predicate ValidRun(db: Db, ops: seq<Op>)
    decreases |ops|
  {
    ops == [] || (Fresh(db, ops[0]) && ValidRun(Apply(db, ops[0]), ops[1..]))
  }

  /** A state that some run of whole operations reaches from an empty database. */
  ghost predicate Reachable(db: Db) {
    exists ops :: ValidRun(EmptyDb(db.users), ops) && Run(EmptyDb(db.users), ops) == db
  }

  // Structural integrity ----------------------------------------------------------------------

  ghost predicate CalendarIntegrity(db: Db) {
    forall c :: c in db.calendars ==> db.calendars[c].id == c && db.calendars[c].ownerId in db.users
  }

  ghost predicate ObjectIntegrity(db: Db) {
    forall c, u :: (c, u) in db.objects ==>
                     && c in db.calendars
                     && db.objects[(c, u)].calendarId == c && db.objects[(c, u)].uid == u
  }

  ghost predicate ShareIntegrity(db: Db) {
    forall c, user :: (c, user) in db.shares ==>
                        && c in db.calendars && user in db.users
                        && db.shares[(c, user)].calendarId == c && db.shares[(c, user)].userId == user
                        && KnownPermission(db.shares[(c, user)].permission)
  }

  /** Every foreign key points at a row, every key agrees with its row, and log ids increase. */
  ghost predicate Integrity(db: Db) {
    CalendarIntegrity(db) && ObjectIntegrity(db) && ShareIntegrity(db) && LogIntegrity(db)
  }

  ghost predicate IncreasingIds(log: seq<SyncChange>) {
    forall i, j :: 0 <= i < j < |log| ==> log[i].id < log[j].id
  }

  ghost predicate LogIntegrity(db: Db) {
    && (forall r :: r in db.log ==> r.calendarId in db.calendars && r.id < db.nextLogId)
    && IncreasingIds(db.log)
  }

  lemma {:induction false} DropRowsMembers(log: seq<SyncChange>, c: string)
    ensures forall r :: r in DropRows(log, c) <==> r in log && r.calendarId != c
    decreases |log|
  {
    if log != [] {
      var n := |log| - 1;
      DropRowsMembers(log[..n], c);
      assert log == log[..n] + [log[n]];
    }
  }

  lemma {:induction false} DropRowsKeepsOrder(log: seq<SyncChange>, c: string)
    requires IncreasingIds(log)
    ensures IncreasingIds(DropRows(log, c))
    decreases |log|
  {
    if log != [] {
      var n := |log| - 1;
      DropRowsKeepsOrder(log[..n], c);
      DropRowsMembers(log[..n], c);
      var kept := DropRows(log[..n], c);
      forall i | 0 <= i < |kept|
        ensures kept[i].id < log[n].id
      {
        assert kept[i] in log[..n];
      }
    }
  }

  lemma {:induction false} ApplyKeepsIntegrity(db: Db, op: Op)
    requires Integrity(db)
    ensures Integrity(Apply(db, op))
    ensures Apply(db, op).users == db.users
  {
    match op
    case Upsert(_, _, _, _, _) => UpsertKeepsIntegrity(db, op);
    case Delete(_, _, _, _) => DeleteKeepsIntegrity(db, op);
    case DeleteCalendar(_) => CascadeKeepsIntegrity(db, op);
    case _ => SettingKeepsIntegrity(db, op);
  }

  lemma {:induction false} UpsertKeepsIntegrity(db: Db, op: Op)
    requires Integrity(db) && op.Upsert?
    ensures Integrity(Apply(db, op)) && Apply(db, op).users == db.users
  {
    LoggingKeepsIntegrity(db, Apply(db, op));
  }

  lemma {:induction false} DeleteKeepsIntegrity(db: Db, op: Op)
    requires Integrity(db) && op.Delete?
    ensures Integrity(Apply(db, op)) && Apply(db, op).users == db.users
  {
    LoggingKeepsIntegrity(db, Apply(db, op));
  }

  lemma {:induction false} CascadeKeepsIntegrity(db: Db, op: Op)
    requires Integrity(db) && op.DeleteCalendar?
    ensures Integrity(Apply(db, op)) && Apply(db, op).users == db.users
  {
    DropRowsMembers(db.log, op.c);
    DropRowsKeepsOrder(db.log, op.c);
  }

  lemma {:induction false} SettingKeepsIntegrity(db: Db, op: Op)
    requires Integrity(db)
    requires op.CreateCalendar? || op.UpdateCalendar? || op.ShareCalendar? || op.UnshareCalendar?
    ensures Integrity(Apply(db, op)) && Apply(db, op).users == db.users
  {
    LoggingKeepsIntegrity(db, Apply(db, op));
    SettingKeepsCalendars(db, op);
    SettingKeepsShares(db, op);
  }

  lemma {:induction false} SettingKeepsCalendars(db: Db, op: Op)
    requires CalendarIntegrity(db) && ObjectIntegrity(db)
    requires op.CreateCalendar? || op.UpdateCalendar? || op.ShareCalendar? || op.UnshareCalendar?
    ensures CalendarIntegrity(Apply(db, op)) && ObjectIntegrity(Apply(db, op))
  {
  }

  lemma {:induction false} SettingKeepsShares(db: Db, op: Op)
    requires ShareIntegrity(db)
    requires op.CreateCalendar? || op.UpdateCalendar? || op.ShareCalendar? || op.UnshareCalendar?
    ensures ShareIntegrity(Apply(db, op))
  {
  }

  ghost predicate AppendsOneRow(db: Db, db': Db) {
    && |db'.log| == |db.log| + 1 && db'.log[..|db.log|] == db.log && db'.nextLogId == db.nextLogId + 1
    && db'.log[|db.log|].id == db.nextLogId && db'.log[|db.log|].calendarId in db'.calendars
  }

  /** Appending one row of a live calendar, without losing a calendar, keeps the log sound. */
  lemma {:induction false} LoggingKeepsIntegrity(db: Db, db': Db)
    requires LogIntegrity(db) && db.calendars.Keys <= db'.calendars.Keys
    requires (db'.log == db.log && db'.nextLogId == db.nextLogId) || AppendsOneRow(db, db')
    ensures LogIntegrity(db')
  {
  }

  lemma {:induction false} RunKeepsIntegrity(db: Db, ops: seq<Op>)
    requires Integrity(db)
    ensures Integrity(Run(db, ops)) && Run(db, ops).users == db.users
    decreases |ops|
  {
    if ops != [] {
      ApplyKeepsIntegrity(db, ops[0]);
      RunKeepsIntegrity(Apply(db, ops[0]), ops[1..]);
    }
  }

  lemma {:induction false} ReachableHasIntegrity(db: Db)
    requires Reachable(db)
    ensures Integrity(db)
  {
    var ops :| ValidRun(EmptyDb(db.users), ops) && Run(EmptyDb(db.users), ops) == db;
    RunKeepsIntegrity(EmptyDb(db.users), ops);
  }
}
