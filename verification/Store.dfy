/**
 The calendar store: the tables as mutable fields, changed statement by statement.

 Each operation ends in the state that its closed form in `Operations` gives, so everything proved
 there about runs holds of this class.
 */
module Store {
  import opened Wrappers
  import opened Schema
  import opened Operations
  import opened Ordering

  datatype AppError = NotFound | Database | Internal

  function StartOf(o: CalendarObject): Option<string> { o.fields.dtstart }

  /** ORDER BY dtstart: a missing start comes first. */
  predicate StartsNoLater(o: CalendarObject, p: CalendarObject) {
    match (o.fields.dtstart, p.fields.dtstart)
    case (None, _) => true
    case (Some(_), None) => false
    case (Some(s), Some(t)) => !Less(t, s)
  }

  function NameOf(cal: Calendar): Option<string> { Some(cal.name) }

  function SharedNameOf(entry: (Calendar, Permission)): Option<string> { Some(entry.0.name) }

  /** The objects of one calendar. */
  function ObjectsOf(db: Db, c: string): set<CalendarObject> {
    set k | k in db.objects && k.0 == c :: db.objects[k]
  }

  /** The WHERE clause of a time-range query: both stamps present, start before `end`, end after `start`. */
  predicate InRange(o: CalendarObject, start: string, end: string) {
    && o.fields.dtstart.Some? && o.fields.dtend.Some?
    && Less(o.fields.dtstart.value, end) && Less(start, o.fields.dtend.value)
  }

  function OfCalendar(c: string): SyncChange -> bool { (r: SyncChange) => r.calendarId == c }

  function OfCalendarAfter(c: string, id: nat): SyncChange -> bool {
    (r: SyncChange) => r.calendarId == c && r.id > id
  }

  /** The rows a calendar appended after the row that carries `token`, or all of them without such a row. */
  function ChangesSince(log: seq<SyncChange>, c: string, token: string): seq<SyncChange> {
    RowsBehind(log, c, Anchor(log, c, token))
  }

  /** The rows of a calendar behind the row with this id, or all of them. */
  function RowsBehind(log: seq<SyncChange>, c: string, anchor: Option<nat>): seq<SyncChange> {
    match anchor
    case Some(id) => Filter(log, OfCalendarAfter(c, id))
    case None => Filter(log, OfCalendar(c))
  }

  /** The id of the first row of `c` that carries `token`. */
  function Anchor(log: seq<SyncChange>, c: string, token: string): Option<nat> {
    if log == [] then None
    else if log[0].calendarId == c && log[0].syncToken == token then Some(log[0].id)
    else Anchor(log[1..], c, token)
  }

  /** The first row of the calendar that carries the token. */
  ghost predicate FirstWith(log: seq<SyncChange>, c: string, token: string, a: SyncChange) {
    exists i :: 0 <= i < |log| && log[i] == a && a.calendarId == c && a.syncToken == token
                && forall j :: 0 <= j < i ==> log[j].calendarId != c || log[j].syncToken != token
  }

  lemma {:induction false} AnchorIs(log: seq<SyncChange>, c: string, token: string)
    ensures forall a :: FirstWith(log, c, token, a) ==> Anchor(log, c, token) == Some(a.id)
    ensures Anchor(log, c, token).Some? ==>
              exists a :: FirstWith(log, c, token, a) && a.id == Anchor(log, c, token).value
  {
    if log != [] {
      AnchorIs(log[1..], c, token);
      assert forall j :: 0 < j < |log| ==> log[j] == log[1..][j - 1];
      if log[0].calendarId == c && log[0].syncToken == token {
        assert FirstWith(log, c, token, log[0]);
      } else {
        forall a
          ensures FirstWith(log, c, token, a) <==> FirstWith(log[1..], c, token, a)
        {
          FirstWithTail(log, c, token, a);
        }
      }
    }
  }

  lemma {:induction false} FirstWithTail(log: seq<SyncChange>, c: string, token: string, a: SyncChange)
    requires log != [] && (log[0].calendarId != c || log[0].syncToken != token)
    ensures FirstWith(log, c, token, a) <==> FirstWith(log[1..], c, token, a)
  {
    var tail := log[1..];
    assert forall j :: 0 < j < |log| ==> log[j] == tail[j - 1];
    if i :| 0 <= i < |log| && log[i] == a && a.calendarId == c && a.syncToken == token
            && forall j :: 0 <= j < i ==> log[j].calendarId != c || log[j].syncToken != token {
      assert tail[i - 1] == a;
    }
    if i :| 0 <= i < |tail| && tail[i] == a && a.calendarId == c && a.syncToken == token
            && forall j :: 0 <= j < i ==> tail[j].calendarId != c || tail[j].syncToken != token {
      assert log[i + 1] == a;
    }
  }

  /** The rows behind the first one with the token, by their ids; all of the calendar without such a row. */
  lemma {:induction false} ChangesAre(log: seq<SyncChange>, c: string, token: string)
    ensures forall r :: r in ChangesSince(log, c, token) <==>
                          r in log && r.calendarId == c && forall a :: FirstWith(log, c, token, a) ==> r.id > a.id
  {
    AnchorIs(log, c, token);
    forall r
      ensures r in ChangesSince(log, c, token) <==>
              r in log && r.calendarId == c && forall a :: FirstWith(log, c, token, a) ==> r.id > a.id
    {
      match Anchor(log, c, token)
      case Some(id) => FilterMember(log, OfCalendarAfter(c, id), r);
      case None => FilterMember(log, OfCalendar(c), r);
    }
  }

  datatype Permission = Read | ReadWrite

  function PermissionText(p: Permission): string {
    match p case Read => "read" case ReadWrite => "read-write"
  }

  function ParsePermission(s: string): Option<Permission> {
    if s == "read" then Some(Read) else if s == "read-write" then Some(ReadWrite) else None
  }

  /** The calendars a user owns or has a share of. */
  function AccessibleTo(db: Db, user: string): set<Calendar> {
    set c | c in db.calendars && (db.calendars[c].ownerId == user || (c, user) in db.shares) :: db.calendars[c]
  }

  /** Owner first, then the stored share. */
  function PermissionOf(db: Db, c: string, user: string): Option<Permission> {
    if c in db.calendars && db.calendars[c].ownerId == user then Some(ReadWrite)
    else if (c, user) in db.shares then ParsePermission(db.shares[(c, user)].permission)
    else None
  }

  /** Each calendar shared with the user, with the permission of its share. */
  function SharedWith(db: Db, user: string): set<(Calendar, Permission)> {
    set c | c in db.calendars && (c, user) in db.shares && ParsePermission(db.shares[(c, user)].permission).Some? ::
      (db.calendars[c], ParsePermission(db.shares[(c, user)].permission).value)
  }

  /** On an existing calendar the row, the log row and the token together are the closed form of an upsert. */
  lemma {:induction false} UpsertInStatements(db: Db, c: string, u: string, data: string, fields: ObjectFields,
      ids: UpsertIds)
    requires ObjectIntegrity(db)
    ensures var drawn := db.(used := db.used + {ids.row, ids.etag, ids.log, ids.bump});
            var known := (c, u) in db.objects;
            var row := CalendarObject(ids.row, c, u, Etag(ids.etag), data, fields);
            var stored := if known then UpdateObject(drawn, c, u, Etag(ids.etag), data, fields)
                          else GetOr(InsertObject(drawn, row), drawn);
            var kind := if known then Modified else Created;
            var logged := GetOr(InsertChange(stored, c, u, kind, SyncToken(ids.log)), stored);
            SetTokens(logged, c, SyncToken(ids.bump)) == UpsertDb(db, c, u, data, fields, ids)
  {
  }

  class CalendarStore {
    const users: set<string>
    var calendars: map<string, Calendar>
    var objects: map<Key, CalendarObject>
    var shares: map<Key, Share>
    var log: seq<SyncChange>
    var nextLogId: nat
    ghost var used: set<Uuid>

    ghost function State(): Db
      reads this
    {
      Db(users, calendars, objects, shares, log, nextLogId, used)
    }

    /** What the schema's keys and constraints keep true. */
    ghost predicate Valid()
      reads this
    {
      Integrity(State())
    }

    constructor (users: set<string>)
      ensures Valid() && State() == EmptyDb(users)
    {
      this.users := users;
      calendars, objects, shares := map[], map[], map[];
      log, nextLogId, used := [], 1, {};
    }

    // Single statements -----------------------------------------------------------------------

    method InsertObjectRow(row: CalendarObject) returns (ok: bool)
      modifies this`objects
      ensures ok == InsertObject(old(State()), row).Some?
      ensures State() == GetOr(InsertObject(old(State()), row), old(State()))
      ensures ok <==> row.calendarId in calendars && (row.calendarId, row.uid) !in old(objects)
      ensures objects == if ok then old(objects)[(row.calendarId, row.uid) := row] else old(objects)
    {
      ok := row.calendarId in calendars && (row.calendarId, row.uid) !in objects;
      if ok { objects := objects[(row.calendarId, row.uid) := row]; }
    }

    method UpdateObjectRow(c: string, u: string, etag: string, data: string, fields: ObjectFields)
      modifies this`objects
      ensures State() == UpdateObject(old(State()), c, u, etag, data, fields)
      ensures objects ==
              if (c, u) !in old(objects) then old(objects)
              else old(objects)[(c, u) := old(objects)[(c, u)].(etag := etag, icalData := data, fields := fields)]
    {
      if (c, u) in objects {
        objects := objects[(c, u) := objects[(c, u)].(etag := etag, icalData := data, fields := fields)];
      }
    }

    method RemoveObjectRow(c: string, u: string) returns (affected: nat)
      modifies this`objects
      ensures affected == if (c, u) in old(objects) then 1 else 0
      ensures State() == DeleteObjectRow(old(State()), c, u)
      ensures objects == old(objects) - {(c, u)}
    {
      affected := if (c, u) in objects then 1 else 0;
      objects := objects - {(c, u)};
    }

    method LogSyncChange(c: string, u: string, kind: ChangeType, token: string) returns (ok: bool)
      modifies this`log, this`nextLogId
      ensures ok == InsertChange(old(State()), c, u, kind, token).Some?
      ensures State() == GetOr(InsertChange(old(State()), c, u, kind, token), old(State()))
      ensures ok <==> c in calendars
      ensures ok ==>
                log == old(log) + [SyncChange(old(nextLogId), c, u, kind, token)] && nextLogId == old(nextLogId) + 1
      ensures !ok ==> log == old(log) && nextLogId == old(nextLogId)
    {
      ok := c in calendars;
      if ok {
        log := log + [SyncChange(nextLogId, c, u, kind, token)];
        nextLogId := nextLogId + 1;
      }
    }

    method BumpCtag(c: string, token: Uuid)
      modifies this`calendars
      ensures State() == SetTokens(old(State()), c, SyncToken(token))
      ensures calendars ==
              if c !in old(calendars) then old(calendars)
              else old(calendars)[c := old(calendars)[c].(ctag := "data:,sync-" + token,
                                                          syncToken := "data:,sync-" + token)]
    {
      if c in calendars {
        calendars := calendars[c := calendars[c].(ctag := SyncToken(token), syncToken := SyncToken(token))];
      }
    }

    /** DELETE of a calendar row, with what ON DELETE CASCADE takes along. */
    method RemoveCalendarRow(c: string) returns (affected: nat)
      modifies this`calendars, this`objects, this`shares, this`log
      ensures affected == if c in old(calendars) then 1 else 0
      ensures State() == DeleteCalendarRow(old(State()), c)
      ensures calendars == old(calendars) - {c}
      ensures objects == map k | k in old(objects) && k.0 != c :: old(objects)[k]
      ensures shares == map k | k in old(shares) && k.0 != c :: old(shares)[k]
      ensures forall r :: r in log <==> r in old(log) && r.calendarId != c
    {
      affected := if c in calendars then 1 else 0;
      calendars := calendars - {c};
      objects := map k | k in objects && k.0 != c :: objects[k];
      shares := map k | k in shares && k.0 != c :: shares[k];
      DropRowsMembers(log, c);
      log := DropRows(log, c);
    }

    method GetObjectByUid(c: string, u: string) returns (r: Option<CalendarObject>)
      ensures r == SelectObject(State(), c, u)
      ensures r == if (c, u) in objects then Some(objects[(c, u)]) else None
    {
      r := if (c, u) in objects then Some(objects[(c, u)]) else None;
    }

    method GetCalendarById(c: string) returns (r: Option<Calendar>)
      ensures r == if c in calendars then Some(calendars[c]) else None
    {
      r := if c in calendars then Some(calendars[c]) else None;
    }

    // Objects and their change log --------------------------------------------------------------

    /** Create or replace an object; the flag tells whether it is new. */
    method UpsertObject(c: string, u: string, data: string, fields: ObjectFields, ids: UpsertIds)
      returns (r: Result<(CalendarObject, bool), AppError>)
      requires Valid()
      modifies this
      ensures Valid()
      ensures State() == UpsertDb(old(State()), c, u, data, fields, ids)
      ensures c !in old(calendars) ==>
                && r == Failure(Database)
                && objects == old(objects) && log == old(log) && calendars == old(calendars)
                && nextLogId == old(nextLogId)
      ensures shares == old(shares)
      ensures c in old(calendars) ==> r == Success((objects[(c, u)], (c, u) !in old(objects)))
      ensures c in old(calendars) ==>
                var known := (c, u) in old(objects);
                var id := if known then old(objects)[(c, u)].id else ids.row;
                && objects == old(objects)[(c, u) := CalendarObject(id, c, u, "\"" + ids.etag + "\"", data, fields)]
                && log == old(log) + [SyncChange(old(nextLogId), c, u, if known then Modified else Created,
                                                 "data:,sync-" + ids.log)]
                && nextLogId == old(nextLogId) + 1
                && calendars == old(calendars)[c := old(calendars)[c].(ctag := "data:,sync-" + ids.bump,
                                                                       syncToken := "data:,sync-" + ids.bump)]
    {
      ApplyKeepsIntegrity(State(), Op.Upsert(c, u, data, fields, ids));
      UpsertInStatements(State(), c, u, data, fields, ids);
      used := used + {ids.row, ids.etag, ids.log, ids.bump};
      var existing := GetObjectByUid(c, u);
      var etag, logToken := Etag(ids.etag), SyncToken(ids.log);
      if existing.None? {
        var inserted := InsertObjectRow(CalendarObject(ids.row, c, u, etag, data, fields));
        if !inserted { return Failure(Database); }
        var logged := LogSyncChange(c, u, Created, logToken);
        if !logged { return Failure(Database); }
      } else {
        UpdateObjectRow(c, u, etag, data, fields);
        var logged := LogSyncChange(c, u, Modified, logToken);
        if !logged { return Failure(Database); }
      }
      BumpCtag(c, ids.bump);
      var obj := GetObjectByUid(c, u);
      if obj.None? { return Failure(Internal); }
      r := Success((obj.value, existing.None?));
    }

    method DeleteObject(c: string, u: string, logId: Uuid, bumpId: Uuid) returns (r: Result<(), AppError>)
      requires Valid()
      modifies this
      ensures Valid()
      ensures State() == DeleteDb(old(State()), c, u, logId, bumpId)
      ensures r == if (c, u) in old(objects) then Success(()) else Failure(NotFound)
      ensures objects == old(objects) - {(c, u)} && shares == old(shares)
      ensures (c, u) !in old(objects) ==>
                log == old(log) && calendars == old(calendars) && nextLogId == old(nextLogId)
      ensures (c, u) in old(objects) ==>
                && log == old(log) + [SyncChange(old(nextLogId), c, u, Deleted, "data:,sync-" + logId)]
                && nextLogId == old(nextLogId) + 1
                && calendars == old(calendars)[c := old(calendars)[c].(ctag := "data:,sync-" + bumpId,
                                                                       syncToken := "data:,sync-" + bumpId)]
    {
      ApplyKeepsIntegrity(State(), Op.Delete(c, u, logId, bumpId));
      used := used + {logId, bumpId};
      var affected := RemoveObjectRow(c, u);
      if affected == 0 { return Failure(NotFound); }
      var logged := LogSyncChange(c, u, Deleted, SyncToken(logId));
      if !logged { return Failure(Database); }
      BumpCtag(c, bumpId);
      r := Success(());
    }

    /** The sync changes after the row that carries `token`; the whole history when no row does. */
    method GetSyncChangesSince(c: string, token: string) returns (changes: seq<SyncChange>)
      ensures changes == ChangesSince(log, c, token)
      ensures forall r :: r in changes <==>
                            r in log && r.calendarId == c
                            && forall a :: FirstWith(log, c, token, a) ==> r.id > a.id
    {
      ChangesAre(log, c, token);
      var anchor: Option<nat> := None;
      var i := 0;
      while i < |log| && anchor.None?
        invariant 0 <= i <= |log|
        invariant Anchor(log, c, token) == if anchor.Some? then anchor else Anchor(log[i..], c, token)
        decreases |log| - i, if anchor.None? then 1 else 0
      {
        if log[i].calendarId == c && log[i].syncToken == token { anchor := Some(log[i].id); }
        i := i + 1;
      }
      match anchor
      case Some(id) => changes := SelectRows(OfCalendarAfter(c, id));
      case None => changes := SelectRows(OfCalendar(c));
    }

    /** SELECT over sync_changes in id order. */
    method SelectRows(keep: SyncChange -> bool) returns (rows: seq<SyncChange>)
      ensures rows == Filter(log, keep)
    {
      rows := [];
      for i := 0 to |log|
        invariant rows + Filter(log[i..], keep) == Filter(log, keep)
      {
        assert log[i..][1..] == log[i + 1..];
        if keep(log[i]) { rows := rows + [log[i]]; }
      }
      assert log[|log|..] == [];
    }

    // Listings ----------------------------------------------------------------------------------

    /** SELECT .. WHERE calendar_id = c AND keep ORDER BY dtstart. */
    method SelectObjects(c: string, keep: CalendarObject -> bool) returns (rows: seq<CalendarObject>)
      ensures Listing(rows, set o | o in ObjectsOf(State(), c) && keep(o) :: o, StartOf)
    {
      var found := set k | k in objects && k.0 == c && keep(objects[k]) :: objects[k];
      rows := OrderBy(found, StartOf);
      assert found == set o | o in ObjectsOf(State(), c) && keep(o) :: o;
    }

    method ListObjects(c: string) returns (rows: seq<CalendarObject>)
      ensures Listing(rows, ObjectsOf(State(), c), StartOf)
      ensures forall o :: o in rows <==> exists u :: (c, u) in objects && objects[(c, u)] == o
      ensures forall i, j :: 0 <= i < j < |rows| ==> rows[i] != rows[j] && StartsNoLater(rows[i], rows[j])
    {
      rows := SelectObjects(c, (o: CalendarObject) => true);
      assert ObjectsOf(State(), c) == set o | o in ObjectsOf(State(), c) && true :: o;
    }

    method ListObjectsInRange(c: string, start: string, end: string) returns (rows: seq<CalendarObject>)
      ensures Listing(rows, set o | o in ObjectsOf(State(), c) && InRange(o, start, end) :: o, StartOf)
      ensures forall o :: o in rows <==>
                && (exists u :: (c, u) in objects && objects[(c, u)] == o)
                && o.fields.dtstart.Some? && o.fields.dtend.Some?
                && Less(o.fields.dtstart.value, end) && Less(start, o.fields.dtend.value)
      ensures forall i, j :: 0 <= i < j < |rows| ==> rows[i] != rows[j] && StartsNoLater(rows[i], rows[j])
    {
      rows := SelectObjects(c, (o: CalendarObject) => InRange(o, start, end));
      assert forall o :: o in rows <==> o in ObjectsOf(State(), c) && InRange(o, start, end);
    }

    method GetObjectsByUids(c: string, uids: seq<string>) returns (rows: seq<CalendarObject>)
      ensures Listing(rows, set o | o in ObjectsOf(State(), c) && o.uid in uids :: o, StartOf)
      ensures forall o :: o in rows <==> (exists u :: (c, u) in objects && objects[(c, u)] == o) && o.uid in uids
      ensures forall i, j :: 0 <= i < j < |rows| ==> rows[i] != rows[j] && StartsNoLater(rows[i], rows[j])
    {
      if uids == [] { return []; }
      rows := SelectObjects(c, (o: CalendarObject) => o.uid in uids);
    }

    // Calendars ---------------------------------------------------------------------------------

    method CreateCalendarWithId(c: string, owner: string, name: string, description: string, color: string,
                                timezone: string, token: Uuid)
      returns (r: Result<Calendar, AppError>)
      requires Valid()
      modifies this
      ensures Valid()
      ensures State() == Apply(old(State()), Op.CreateCalendar(c, owner, name, description, color, timezone, token))
      ensures if c !in old(calendars) && owner in users then c in calendars && r == Success(calendars[c])
              else r == Failure(Database)
      ensures r.Success? ==>
                var cal := r.value;
                && cal.id == c && cal.ownerId == owner && cal.name == name && cal.description == description
                && cal.color == color && cal.timezone == timezone
                && cal.ctag == cal.syncToken == "data:,sync-" + token
                && calendars == old(calendars)[c := cal]
      ensures r.Failure? ==> calendars == old(calendars)
      ensures objects == old(objects) && shares == old(shares) && log == old(log) && nextLogId == old(nextLogId)
    {
      ApplyKeepsIntegrity(State(), Op.CreateCalendar(c, owner, name, description, color, timezone, token));
      used := used + {token};
      if c in calendars || owner !in users { return Failure(Database); }
      calendars := calendars[c := Calendar(c, owner, name, description, color, timezone,
                                           SyncToken(token), SyncToken(token))];
      var cal := GetCalendarById(c);
      if cal.None? { return Failure(Internal); }
      r := Success(cal.value);
    }

    method UpdateCalendar(c: string, name: Option<string>, description: Option<string>, color: Option<string>,
                          timezone: Option<string>)
      returns (r: Result<Calendar, AppError>)
      requires Valid()
      modifies this
      ensures Valid()
      ensures State() == Apply(old(State()), Op.UpdateCalendar(c, name, description, color, timezone))
      ensures if c in old(calendars) then r == Success(calendars[c]) else r == Failure(NotFound)
      ensures c in old(calendars) ==>
                var before, cal := old(calendars)[c], calendars[c];
                && cal.name == (if name.Some? then name.value else before.name)
                && cal.description == (if description.Some? then description.value else before.description)
                && cal.color == (if color.Some? then color.value else before.color)
                && cal.timezone == (if timezone.Some? then timezone.value else before.timezone)
                && cal.id == before.id && cal.ownerId == before.ownerId
                && cal.ctag == before.ctag && cal.syncToken == before.syncToken
                && calendars == old(calendars)[c := cal]
      ensures r.Failure? ==> calendars == old(calendars)
      ensures objects == old(objects) && shares == old(shares) && log == old(log) && nextLogId == old(nextLogId)
    {
      ApplyKeepsIntegrity(State(), Op.UpdateCalendar(c, name, description, color, timezone));
      var cal := GetCalendarById(c);
      if cal.None? { return Failure(NotFound); }
      calendars := calendars[c := Renamed(cal.value, name, description, color, timezone)];
      r := Success(calendars[c]);
    }

    method DeleteCalendar(c: string) returns (r: Result<(), AppError>)
      requires Valid()
      modifies this
      ensures Valid()
      ensures State() == DeleteCalendarRow(old(State()), c)
      ensures r == if c in old(calendars) then Success(()) else Failure(NotFound)
      ensures calendars == old(calendars) - {c}
      ensures objects == map k | k in old(objects) && k.0 != c :: old(objects)[k]
      ensures shares == map k | k in old(shares) && k.0 != c :: old(shares)[k]
      ensures forall row :: row in log <==> row in old(log) && row.calendarId != c
    {
      DropRowsMembers(log, c);
      ApplyKeepsIntegrity(State(), Op.DeleteCalendar(c));
      var affected := RemoveCalendarRow(c);
      if affected == 0 { return Failure(NotFound); }
      r := Success(());
    }

    /** The owned and the shared calendars of a user, each once, by name. */
    method ListCalendarsForUser(user: string) returns (rows: seq<Calendar>)
      requires Valid()
      ensures Listing(rows, AccessibleTo(State(), user), NameOf)
      ensures forall cal :: cal in rows <==>
                exists c :: c in calendars && calendars[c] == cal && (cal.ownerId == user || (c, user) in shares)
      ensures forall i, j :: 0 <= i < j < |rows| ==> rows[i] != rows[j] && !Less(rows[j].name, rows[i].name)
    {
      var owned := set c | c in calendars && calendars[c].ownerId == user :: calendars[c];
      var shared := set k | k in shares && k.1 == user && k.0 in calendars :: calendars[k.0];
      rows := OrderBy(owned + shared, NameOf);
      UnionIsAccessible(State(), user);
    }

    /** Whether the user can open the calendar: it is among the listed ones. */
    method VerifyCalendarAccess(user: string, c: string) returns (allowed: bool)
      requires Valid()
      ensures allowed <==> PermissionOf(State(), c, user).Some?
    {
      var accessible := ListCalendarsForUser(user);
      allowed := exists i :: 0 <= i < |accessible| && accessible[i].id == c;
      AccessibleIffPermitted(State(), c, user);
      assert forall cal :: cal in accessible <==> cal in AccessibleTo(State(), user);
    }

    // Shares ------------------------------------------------------------------------------------

    method ShareCalendar(c: string, user: string, permission: Permission, id: Uuid)
      returns (r: Result<Share, AppError>)
      requires Valid()
      modifies this
      ensures Valid()
      ensures State() == Apply(old(State()), Op.ShareCalendar(c, user, PermissionText(permission), id))
      ensures if c in old(calendars) && user in users then (c, user) in shares && r == Success(shares[(c, user)])
              else r == Failure(Database)
      ensures r.Success? ==>
                var rowId := if (c, user) in old(shares) then old(shares)[(c, user)].id else id;
                var text := if permission == Read then "read" else "read-write";
                && r.value == Share(rowId, c, user, text) && shares == old(shares)[(c, user) := r.value]
                && PermissionOf(State(), c, user) ==
                   Some(if calendars[c].ownerId == user then ReadWrite else permission)
      ensures r.Failure? ==> shares == old(shares)
      ensures calendars == old(calendars) && objects == old(objects) && log == old(log)
    {
      ApplyKeepsIntegrity(State(), Op.ShareCalendar(c, user, PermissionText(permission), id));
      used := used + {id};
      if c !in calendars || user !in users { return Failure(Database); }
      if (c, user) in shares {
        shares := shares[(c, user) := shares[(c, user)].(permission := PermissionText(permission))];
      } else {
        shares := shares[(c, user) := Share(id, c, user, PermissionText(permission))];
      }
      r := Success(shares[(c, user)]);
    }

    method UnshareCalendar(c: string, user: string) returns (r: Result<(), AppError>)
      requires Valid()
      modifies this
      ensures Valid()
      ensures State() == Apply(old(State()), Op.UnshareCalendar(c, user))
      ensures r == if (c, user) in old(shares) then Success(()) else Failure(NotFound)
      ensures shares == old(shares) - {(c, user)}
      ensures calendars == old(calendars) && objects == old(objects) && log == old(log)
    {
      ApplyKeepsIntegrity(State(), Op.UnshareCalendar(c, user));
      var affected := if (c, user) in shares then 1 else 0;
      shares := shares - {(c, user)};
      if affected == 0 { return Failure(NotFound); }
      r := Success(());
    }

    /** The calendars shared with a user and their permissions, sorted by name. */
    method ListSharedCalendars(user: string) returns (results: seq<(Calendar, Permission)>)
      requires Valid()
      ensures Listing(results, SharedWith(State(), user), SharedNameOf)
      ensures forall e :: e in results <==>
                exists c :: c in calendars && calendars[c] == e.0 && (c, user) in shares
                            && shares[(c, user)].permission == if e.1 == Read then "read" else "read-write"
      ensures forall i, j :: 0 <= i < j < |results| ==> !Less(results[j].0.name, results[i].0.name)
    {
      SharedWithIs(State(), user);
      var collected := CollectShared(user);
      results := SortBy(collected, SharedNameOf);
    }

    /** The loop over the shares of a user. */
    method CollectShared(user: string) returns (collected: seq<(Calendar, Permission)>)
      requires Valid()
      ensures Distinct(collected) && forall e :: e in collected <==> e in SharedWith(State(), user)
    {
      var pending := set k | k in shares && k.1 == user;
      collected := [];
      ghost var done: set<Key> := {};
      while pending != {}
        invariant forall k :: k in shares && k.1 == user <==> k in pending || k in done
        invariant pending !! done
        invariant Distinct(collected)
        invariant forall e :: e in collected <==>
                                exists k :: k in done && k.0 in calendars
                                            && ParsePermission(shares[k].permission).Some?
                                            && e == (calendars[k.0], ParsePermission(shares[k].permission).value)
        decreases |pending|
      {
        var k :| k in pending;
        assert k == (k.0, user) && k in shares;
        var cal := GetCalendarById(k.0);
        var permission := ParsePermission(shares[k].permission);
        if cal.Some? && permission.Some? {
          assert (cal.value, permission.value) !in collected;
          collected := collected + [(cal.value, permission.value)];
        }
        pending, done := pending - {k}, done + {k};
      }
      assert forall e :: e in collected <==> e in SharedWith(State(), user) by {
        assert forall k :: k in done ==> k == (k.0, user) && k in shares;
      }
    }

    method GetUserPermission(c: string, user: string) returns (r: Option<Permission>)
      ensures r == PermissionOf(State(), c, user)
      ensures c in calendars && calendars[c].ownerId == user ==> r == Some(ReadWrite)
      ensures !(c in calendars && calendars[c].ownerId == user) ==>
                && (r == Some(Read) <==> (c, user) in shares && shares[(c, user)].permission == "read")
                && (r == Some(ReadWrite) <==> (c, user) in shares && shares[(c, user)].permission == "read-write")
    {
      if c in calendars && calendars[c].ownerId == user { return Some(ReadWrite); }
      if (c, user) !in shares { return None; }
      r := ParsePermission(shares[(c, user)].permission);
    }
  }

  lemma {:induction false} SharedWithIs(db: Db, user: string)
    ensures forall e :: e in SharedWith(db, user) <==>
                          exists c :: c in db.calendars && db.calendars[c] == e.0 && (c, user) in db.shares
                                      && db.shares[(c, user)].permission == if e.1 == Read then "read" else "read-write"
  {
    forall c | c in db.calendars && (c, user) in db.shares
      ensures forall p :: ParsePermission(db.shares[(c, user)].permission) == Some(p) <==>
                            db.shares[(c, user)].permission == if p == Read then "read" else "read-write"
    {
    }
  }

  lemma {:induction false} UnionIsAccessible(db: Db, user: string)
    ensures AccessibleTo(db, user) ==
            (set c | c in db.calendars && db.calendars[c].ownerId == user :: db.calendars[c])
            + (set k | k in db.shares && k.1 == user && k.0 in db.calendars :: db.calendars[k.0])
  {
  }

  /** Being listed and having a permission are the same thing. */
  lemma {:induction false} AccessibleIffPermitted(db: Db, c: string, user: string)
    requires Integrity(db)
    ensures PermissionOf(db, c, user).Some? <==> exists cal :: cal in AccessibleTo(db, user) && cal.id == c
    ensures PermissionOf(db, c, user).Some? ==> c in db.calendars && db.calendars[c] in AccessibleTo(db, user)
  {
  }

  /** In every reachable state a user can open exactly the calendars some permission covers, and each is there. */
  lemma {:induction false} ReachableAccessAgrees(db: Db, c: string, user: string)
    requires Reachable(db)
    ensures (exists cal :: cal in AccessibleTo(db, user) && cal.id == c) <==> PermissionOf(db, c, user).Some?
    ensures (c, user) in db.shares ==> c in db.calendars && PermissionOf(db, c, user).Some?
    ensures PermissionOf(db, c, user).Some? ==>
              c in db.calendars && (db.calendars[c].ownerId == user || (c, user) in db.shares)
  {
    ReachableHasIntegrity(db);
    AccessibleIffPermitted(db, c, user);
  }
}
