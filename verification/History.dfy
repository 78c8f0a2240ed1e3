/**
 The life cycle that the change log records for each object.

 Along any run of whole operations the rows of one (calendar, uid) spell: created, then modified any
 number of times, then deleted, over and over; and the object is live exactly when the last row is not
 a deletion.
 */
module History {
  import opened Schema
  import opened Sequences
  import opened Operations
  import opened Ordering
  import opened Store

  /** The rows of one calendar, oldest first. */
  function RowsOf(log: seq<SyncChange>, c: string): seq<SyncChange> {
    Filter(log, OfCalendar(c))
  }

  /** The kinds of change the rows record for one uid, oldest first. */
  function Kinds(rows: seq<SyncChange>, u: string): seq<ChangeType> {
    if rows == [] then [] else KindOf(rows[0], u) + Kinds(rows[1..], u)
  }

  function KindOf(row: SyncChange, u: string): seq<ChangeType> {
    if row.objectUid == u then [row.changeType] else []
  }

  function ObjectHistory(db: Db, c: string, u: string): seq<ChangeType> {
    Kinds(RowsOf(db.log, c), u)
  }

  predicate MayFollow(before: ChangeType, after: ChangeType) {
    if before == Deleted then after == Created else after != Created
  }

  /** created modified* deleted, repeated; the last round may still be open. */
  ghost predicate WellSpelled(kinds: seq<ChangeType>) {
    && (kinds != [] ==> kinds[0] == Created)
    && forall i :: 0 < i < |kinds| ==> MayFollow(kinds[i - 1], kinds[i])
  }

  predicate EndsLive(kinds: seq<ChangeType>) {
    kinds != [] && kinds[|kinds| - 1] != Deleted
  }

  ghost predicate LifeCycle(db: Db) {
    forall c, u :: WellSpelled(ObjectHistory(db, c, u)) && (EndsLive(ObjectHistory(db, c, u)) <==> (c, u) in db.objects)
  }

  // How the log grows and shrinks -----------------------------------------------------------------

  lemma {:induction false} KindsAppend(rows: seq<SyncChange>, more: seq<SyncChange>, u: string)
    ensures Kinds(rows + more, u) == Kinds(rows, u) + Kinds(more, u)
  {
    if rows == [] {
      NothingBefore(more);
      NothingBefore(Kinds(more, u));
    } else {
      TailOfAppend(rows, more);
      KindsAppend(rows[1..], more, u);
      Associative(KindOf(rows[0], u), Kinds(rows[1..], u), Kinds(more, u));
    }
  }

  lemma {:induction false} KindsNonempty(rows: seq<SyncChange>, u: string)
    ensures Kinds(rows, u) != [] <==> exists r :: r in rows && r.objectUid == u
  {
    if rows != [] {
      assert rows == [rows[0]] + rows[1..];
      KindsNonempty(rows[1..], u);
    }
  }

  lemma {:induction false} RowsOfLogged(db: Db, c: string, u: string, kind: ChangeType, token: string, c': string)
    ensures RowsOf(Logged(db, c, u, kind, token), c') ==
            if c' == c then RowsOf(db.log, c) + [SyncChange(db.nextLogId, c, u, kind, token)] else RowsOf(db.log, c')
  {
    FilterAppend(db.log, [SyncChange(db.nextLogId, c, u, kind, token)], OfCalendar(c'));
  }

  lemma {:induction false} RowsOfDropped(log: seq<SyncChange>, c: string, c': string)
    ensures RowsOf(DropRows(log, c), c') == if c' == c then [] else RowsOf(log, c')
    decreases |log|
  {
    if log != [] {
      var n := |log| - 1;
      var last := [log[n]];
      assert log == log[..n] + last;
      RowsOfDropped(log[..n], c, c');
      FilterAppend(log[..n], last, OfCalendar(c'));
      FilterAppend(DropRows(log[..n], c), if log[n].calendarId == c then [] else last, OfCalendar(c'));
    }
  }

  lemma {:induction false} HistoryLogged(db: Db, db': Db, c: string, u: string, kind: ChangeType, token: string,
      c': string, u': string)
    requires db'.log == Logged(db, c, u, kind, token)
    ensures ObjectHistory(db', c', u') ==
            if c' == c && u' == u then ObjectHistory(db, c, u) + [kind] else ObjectHistory(db, c', u')
  {
    RowsOfLogged(db, c, u, kind, token, c');
    if c' == c {
      var row := [SyncChange(db.nextLogId, c, u, kind, token)];
      KindsAppend(RowsOf(db.log, c), row, u');
      assert row[1..] == [];
    }
  }

  // The life cycle along runs ---------------------------------------------------------------------

  lemma {:induction false} LoggedKeepsLifeCycle(db: Db, db': Db, c: string, u: string, kind: ChangeType, token: string)
    requires LifeCycle(db) && db'.log == Logged(db, c, u, kind, token)
    requires kind == Created <==> (c, u) !in db.objects
    requires forall k :: k != (c, u) ==> (k in db'.objects <==> k in db.objects)
    requires (c, u) in db'.objects <==> kind != Deleted
    ensures LifeCycle(db')
  {
    forall c', u'
      ensures WellSpelled(ObjectHistory(db', c', u'))
      ensures EndsLive(ObjectHistory(db', c', u')) <==> (c', u') in db'.objects
    {
      HistoryLogged(db, db', c, u, kind, token, c', u');
      assert WellSpelled(ObjectHistory(db, c', u'));
      assert EndsLive(ObjectHistory(db, c', u')) <==> (c', u') in db.objects;
    }
  }

  lemma {:induction false} DroppingKeepsLifeCycle(db: Db, c: string)
    requires LifeCycle(db)
    ensures LifeCycle(DeleteCalendarRow(db, c))
  {
    var db' := DeleteCalendarRow(db, c);
    forall c', u
      ensures WellSpelled(ObjectHistory(db', c', u))
      ensures EndsLive(ObjectHistory(db', c', u)) <==> (c', u) in db'.objects
    {
      RowsOfDropped(db.log, c, c');
      assert WellSpelled(ObjectHistory(db, c', u)) && (EndsLive(ObjectHistory(db, c', u)) <==> (c', u) in db.objects);
    }
  }

  lemma {:induction false} UpsertKeepsLifeCycle(db: Db, op: Op)
    requires LifeCycle(db) && op.Upsert? && op.c in db.calendars
    ensures LifeCycle(Apply(db, op))
  {
    var kind := if (op.c, op.u) in db.objects then Modified else Created;
    LoggedKeepsLifeCycle(db, Apply(db, op), op.c, op.u, kind, SyncToken(op.ids.log));
  }

  lemma {:induction false} DeleteKeepsLifeCycle(db: Db, op: Op)
    requires LifeCycle(db) && op.Delete? && (op.c, op.u) in db.objects && op.c in db.calendars
    ensures LifeCycle(Apply(db, op))
  {
    LoggedKeepsLifeCycle(db, Apply(db, op), op.c, op.u, Deleted, SyncToken(op.log));
  }

  lemma {:induction false} ApplyKeepsLifeCycle(db: Db, op: Op)
    requires Integrity(db) && LifeCycle(db)
    ensures LifeCycle(Apply(db, op))
  {
    var db' := Apply(db, op);
    if op.Upsert? && op.c in db.calendars {
      UpsertKeepsLifeCycle(db, op);
    } else if op.Delete? && (op.c, op.u) in db.objects {
      DeleteKeepsLifeCycle(db, op);
    } else if op.DeleteCalendar? {
      DroppingKeepsLifeCycle(db, op.c);
    } else {
      assert db'.log == db.log && db'.objects == db.objects;
      assert forall c, u :: ObjectHistory(db', c, u) == ObjectHistory(db, c, u);
    }
  }

  lemma {:induction false} RunKeepsLifeCycle(db: Db, ops: seq<Op>)
    requires Integrity(db) && LifeCycle(db)
    ensures LifeCycle(Run(db, ops))
    decreases |ops|
  {
    if ops != [] {
      ApplyKeepsIntegrity(db, ops[0]);
      ApplyKeepsLifeCycle(db, ops[0]);
      RunKeepsLifeCycle(Apply(db, ops[0]), ops[1..]);
    }
  }

  /** The life cycle holds in every reachable state. */
  lemma {:induction false} ReachableLifeCycle(db: Db)
    requires Reachable(db)
    ensures LifeCycle(db)
    ensures forall c, u | ObjectHistory(db, c, u) != [] ::
              ObjectHistory(db, c, u)[|ObjectHistory(db, c, u)| - 1] == Deleted <==> (c, u) !in db.objects
  {
    var ops :| ValidRun(EmptyDb(db.users), ops) && Run(EmptyDb(db.users), ops) == db;
    RunKeepsLifeCycle(EmptyDb(db.users), ops);
    assert forall c, u :: EndsLive(ObjectHistory(db, c, u)) <==> (c, u) in db.objects;
  }
}
