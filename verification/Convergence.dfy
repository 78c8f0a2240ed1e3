/**
 Replica convergence over runs of whole operations: the initial listing, the delta after a logged
 token, the whole-log fallback, and a client that syncs again and again while the server works on.
 */
module Convergence {
  import opened Wrappers
  import opened Schema
  import opened Operations
  import opened Ordering
  import opened Store
  import opened Multistatus
  import opened ClientReader
  import opened Properties
  import opened Hrefs
  import opened History
  import opened Validators
  import opened SyncReport

  // Initial sync ------------------------------------------------------------------------------------------

  lemma {:induction false} ReplayListing(
    replica: Replica, db: Db, ctx: HrefContext, c: string, includeData: bool, rows: seq<CalendarObject>, href: string)
    requires Integrity(db) && forall o :: o in rows ==> o in ObjectsOf(db, c)
    ensures Get(Replay(replica, SeenParts(ListingParts(rows, ctx, c, includeData))), href) ==
            if Lists(rows, ctx, c, href) then Get(View(db, ctx, c, includeData), href) else Get(replica, href)
    decreases |rows|
  {
    if rows != [] {
      var next := Absorb(replica, SeenPart(ListingPart(rows[0], ctx, c, includeData)));
      ReplayFirst(replica, ctx, c, includeData, rows);
      ListsFirst(rows, ctx, c, href);
      ReplayListing(next, db, ctx, c, includeData, rows[1..], href);
      assert rows[0] in rows;
      ReplayListed(replica, db, ctx, c, includeData, rows[0], href);
    }
  }

  /** The href of one of the rows. */
  ghost predicate Lists(rows: seq<CalendarObject>, ctx: HrefContext, c: string, href: string) {
    exists o :: o in rows && ObjectHref(ctx, c, o.uid) == href
  }

  lemma {:induction false} ListsFirst(rows: seq<CalendarObject>, ctx: HrefContext, c: string, href: string)
    requires rows != []
    ensures Lists(rows, ctx, c, href) <==> ObjectHref(ctx, c, rows[0].uid) == href || Lists(rows[1..], ctx, c, href)
  {
  }

  lemma {:induction false} ReplayFirst(replica: Replica, ctx: HrefContext, c: string, includeData: bool,
      rows: seq<CalendarObject>)
    requires rows != []
    ensures Replay(replica, SeenParts(ListingParts(rows, ctx, c, includeData))) ==
            Replay(Absorb(replica, SeenPart(ListingPart(rows[0], ctx, c, includeData))),
                   SeenParts(ListingParts(rows[1..], ctx, c, includeData)))
  {
  }

  /** The entry of one object brings what the calendar holds at its href. */
  lemma {:induction false} ReplayListed(
    replica: Replica, db: Db, ctx: HrefContext, c: string, includeData: bool, o: CalendarObject, href: string)
    requires Integrity(db) && o in ObjectsOf(db, c)
    ensures Get(Absorb(replica, SeenPart(ListingPart(o, ctx, c, includeData))), href) ==
            if ObjectHref(ctx, c, o.uid) == href then Get(View(db, ctx, c, includeData), href) else Get(replica, href)
  {
    BodyIsNotEmpty(o, includeData);
    ViewAt(db, ctx, c, includeData, o.uid);
    var k :| k in db.objects && k.0 == c && db.objects[k] == o;
    assert k == (c, k.1) && o.uid == k.1;
  }

  /** A client without a token ends up with exactly the calendar, in whatever order the rows come. */
  lemma {:induction false} InitialSyncConverges(db: Db, ctx: HrefContext, c: string, includeData: bool,
      entries: seq<Part>)
    requires Integrity(db) && ReportEntries(db, ctx, c, includeData, "", entries)
    ensures Replay(map[], SeenParts(entries)) == View(db, ctx, c, includeData)
  {
    var rows :| Listing(rows, ObjectsOf(db, c), StartOf) && entries == ListingParts(rows, ctx, c, includeData);
    var after, view := Replay(map[], SeenParts(entries)), View(db, ctx, c, includeData);
    forall href
      ensures Get(after, href) == Get(view, href)
    {
      ReplayListing(map[], db, ctx, c, includeData, rows, href);
      if href in view {
        var k :| k in db.objects && k.0 == c && ObjectHref(ctx, c, k.1) == href;
        assert k == (c, k.1);
        var o := db.objects[k];
        assert o in ObjectsOf(db, c);
        assert o in rows && ObjectHref(ctx, c, o.uid) == href;
      }
    }
    SameReplica(after, view);
  }

  // The whole-log fallback --------------------------------------------------------------------------------

  /** Every href the client holds belongs to a uid that the log of the calendar knows. */
  ghost predicate Known(db: Db, ctx: HrefContext, c: string, replica: Replica) {
    forall href :: href in replica ==> exists u :: ObjectHref(ctx, c, u) == href && ObjectHistory(db, c, u) != []
  }

  lemma {:induction false} AnchorFinds(log: seq<SyncChange>, c: string, t: string)
    ensures Anchor(log, c, t).None? <==> forall r :: r in log ==> !(r.calendarId == c && r.syncToken == t)
    ensures Anchor(log, c, t).Some? ==>
              exists r :: r in log && r.calendarId == c && r.syncToken == t && r.id == Anchor(log, c, t).value
  {
    if log != [] {
      assert log == [log[0]] + log[1..];
      AnchorFinds(log[1..], c, t);
    }
  }

  /** A token that is in no log row gets the whole history. */
  lemma {:induction false} UnloggedTokenGetsAll(db: Db, c: string, t: string)
    requires !LoggedToken(db, t)
    ensures ChangesSince(db.log, c, t) == RowsOf(db.log, c)
  {
    AnchorFinds(db.log, c, t);
  }

  lemma {:induction false} LastIsIn(kinds: seq<ChangeType>)
    requires kinds != [] && !EndsLive(kinds)
    ensures Deleted in kinds
  {
  }

  /** The last row of a live object is no deletion, and a dead object with rows has a deletion among them. */
  ghost predicate Settles(db: Db, c: string, u: string) {
    if (c, u) in db.objects then EndsLive(ObjectHistory(db, c, u))
    else ObjectHistory(db, c, u) != [] ==> Deleted in ObjectHistory(db, c, u)
  }

  ghost predicate CalendarSettles(db: Db, c: string) { forall u :: Settles(db, c, u) }

  ghost predicate LogSettles(db: Db) { forall c :: CalendarSettles(db, c) }

  lemma {:induction false} LifeCycleSettles(db: Db)
    requires LifeCycle(db)
    ensures LogSettles(db)
  {
  }

  /** Replaying the whole log converges exactly for replicas that hold no href the log does not know. */
  lemma {:induction false} FallbackConvergesIff(replica: Replica, db: Db, ctx: HrefContext, c: string,
      includeData: bool)
    requires CalendarSettles(db, c)
    ensures ReplayRows(replica, db, ctx, c, includeData, RowsOf(db.log, c)) == View(db, ctx, c, includeData)
            <==> Known(db, ctx, c, replica)
  {
    var rows := RowsOf(db.log, c);
    ConvergesIff(replica, db, ctx, c, includeData, rows);
    forall u | (c, u) in db.objects
      ensures LiveSettles(replica, db, ctx, c, includeData, rows, u)
    {
      assert Settles(db, c, u);
    }
    forall href
      ensures HeldSettles(db, ctx, c, rows, href) <==>
              exists u :: ObjectHref(ctx, c, u) == href && ObjectHistory(db, c, u) != []
    {
      forall u
        ensures (c, u) in db.objects || Deleted in Kinds(rows, u) <==> ObjectHistory(db, c, u) != []
      {
        assert Settles(db, c, u);
      }
    }
  }

  /**
   A calendar's rows settle its objects exactly when replaying them works for every replica whose hrefs the
   log knows.
   */
  lemma {:induction false} SettlesIffReplayable(db: Db, ctx: HrefContext, c: string, includeData: bool)
    ensures CalendarSettles(db, c) <==>
            forall replica :: Known(db, ctx, c, replica) ==>
                                ReplayRows(replica, db, ctx, c, includeData, RowsOf(db.log, c))
                                == View(db, ctx, c, includeData)
  {
    if CalendarSettles(db, c) {
      forall replica | Known(db, ctx, c, replica)
        ensures ReplayRows(replica, db, ctx, c, includeData, RowsOf(db.log, c)) == View(db, ctx, c, includeData)
      {
        FallbackConvergesIff(replica, db, ctx, c, includeData);
      }
    } else {
      var u :| !Settles(db, c, u);
      var replica := UnsettledReplica(db, ctx, c, includeData, u);
    }
  }

  /** The replica that an unsettled object leaves behind: empty if it is live, else one that still holds it. */
  lemma {:induction false} UnsettledReplica(db: Db, ctx: HrefContext, c: string, includeData: bool, u: string)
    returns (replica: Replica)
    requires !Settles(db, c, u)
    ensures Known(db, ctx, c, replica)
    ensures ReplayRows(replica, db, ctx, c, includeData, RowsOf(db.log, c)) != View(db, ctx, c, includeData)
  {
    var href := ObjectHref(ctx, c, u);
    replica := if (c, u) in db.objects then map[] else map[href := []];
    UidConverges(replica, db, ctx, c, includeData, RowsOf(db.log, c), u);
  }

  /**
   In every reachable state the calendar's own token is in no log row, the report for it is the whole
   log, and that report brings the empty replica, like any known one, to what the initial sync lists.
   */
  lemma {:induction false} FallbackConverges(replica: Replica, db: Db, ctx: HrefContext, c: string, includeData: bool,
      entries: seq<Part>)
    requires Reachable(db) && c in db.calendars
    requires Known(db, ctx, c, replica)
    requires ReportEntries(db, ctx, c, includeData, db.calendars[c].syncToken, entries)
    ensures !LoggedToken(db, db.calendars[c].syncToken)
    ensures Replay(replica, SeenParts(entries)) == View(db, ctx, c, includeData)
    ensures Replay(map[], SeenParts(entries)) == View(db, ctx, c, includeData)
  {
    ReachableStamped(db);
    ReachableLifeCycle(db);
    TokenIsUri(db, c);
    UnloggedTokenGetsAll(db, c, db.calendars[c].syncToken);
    LifeCycleSettles(db);
    FallbackConvergesIff(replica, db, ctx, c, includeData);
    FallbackConvergesIff(map[], db, ctx, c, includeData);
  }

  lemma {:induction false} TokenIsUri(db: Db, c: string)
    requires CalendarTokens(db) && c in db.calendars
    ensures EnsureSyncTokenUri(db.calendars[c].syncToken) == db.calendars[c].syncToken
    ensures db.calendars[c].syncToken != ""
  {
  }

  // The delta after a logged token --------------------------------------------------------------------------

  lemma {:induction false} AllAfter(log: seq<SyncChange>, c: string, id: nat)
    requires forall r :: r in log ==> r.id > id
    ensures Filter(log, OfCalendarAfter(c, id)) == RowsOf(log, c)
  {
    if log != [] { AllAfter(log[1..], c, id); }
  }

  /** The rows behind a row of the calendar are a suffix of its rows. */
  lemma {:induction false} AfterIsSuffix(log: seq<SyncChange>, c: string, i: nat)
    requires IncreasingIds(log) && i < |RowsOf(log, c)|
    ensures Filter(log, OfCalendarAfter(c, RowsOf(log, c)[i].id)) == RowsOf(log, c)[i + 1..]
  {
    var rows, tail := RowsOf(log, c), log[1..];
    forall r | r in tail
      ensures r.id > log[0].id
    {
    }
    if log[0].calendarId != c {
      AfterIsSuffix(tail, c, i);
    } else if i == 0 {
      AllAfter(tail, c, log[0].id);
    } else {
      assert rows[i] == RowsOf(tail, c)[i - 1];
      FilterMember(tail, OfCalendar(c), rows[i]);
      AfterIsSuffix(tail, c, i - 1);
      assert rows[i + 1..] == RowsOf(tail, c)[i..];
    }
  }

  /**
   Since `db`, calendar `c` has only appended rows, and an object that no appended row names is as it
   was.
   */
  ghost predicate Grown(db: Db, later: Db, c: string) {
    var rows, now := RowsOf(db.log, c), RowsOf(later.log, c);
    && |rows| <= |now| && now[..|rows|] == rows
    && forall u :: Kinds(now[|rows|..], u) == [] ==> SelectObject(later, c, u) == SelectObject(db, c, u)
  }

  lemma {:induction false} LoggedGrows(db: Db, later: Db, after: Db, c: string, u: string, kind: ChangeType,
      token: string)
    requires Grown(db, later, c) && after.log == Logged(later, c, u, kind, token)
    requires forall v :: v != u ==> SelectObject(after, c, v) == SelectObject(later, c, v)
    ensures Grown(db, after, c)
  {
    var rows, now := RowsOf(db.log, c), RowsOf(later.log, c);
    var row := [SyncChange(later.nextLogId, c, u, kind, token)];
    RowsOfLogged(later, c, u, kind, token, c);
    assert RowsOf(after.log, c)[|rows|..] == now[|rows|..] + row;
    assert RowsOf(after.log, c)[..|rows|] == rows;
    forall v | Kinds(now[|rows|..] + row, v) == []
      ensures SelectObject(after, c, v) == SelectObject(db, c, v)
    {
      KindsAppend(now[|rows|..], row, v);
      assert row[1..] == [];
    }
  }

  lemma {:induction false} ApplyGrows(db: Db, later: Db, op: Op, c: string)
    requires Integrity(later) && Grown(db, later, c) && op != DeleteCalendar(c)
    ensures Grown(db, Apply(later, op), c)
  {
    if op.Upsert? && op.c in later.calendars {
      UpsertGrows(db, later, op, c);
    } else if op.Delete? && (op.c, op.u) in later.objects {
      DeleteGrows(db, later, op, c);
    } else {
      if op.DeleteCalendar? { RowsOfDropped(later.log, op.c, c); }
      OtherObjectsStay(later, op, c);
      StaysGrown(db, later, Apply(later, op), c);
    }
  }

  /** An operation that logs nothing leaves the objects of a calendar alone, unless it deletes the calendar. */
  lemma {:induction false} OtherObjectsStay(db: Db, op: Op, c: string)
    requires Integrity(db) && op != DeleteCalendar(c)
    requires op.Upsert? ==> op.c !in db.calendars
    requires op.Delete? ==> (op.c, op.u) !in db.objects
    ensures SameObjects(db, Apply(db, op), c)
  {
  }

  lemma {:induction false} StaysGrown(db: Db, later: Db, after: Db, c: string)
    requires Grown(db, later, c) && RowsOf(after.log, c) == RowsOf(later.log, c) && SameObjects(later, after, c)
    ensures Grown(db, after, c)
  {
  }

  lemma {:induction false} UpsertGrows(db: Db, later: Db, op: Op, c: string)
    requires Grown(db, later, c) && op.Upsert? && op.c in later.calendars
    ensures Grown(db, Apply(later, op), c)
  {
    var kind := if (op.c, op.u) in later.objects then Modified else Created;
    if op.c == c {
      LoggedGrows(db, later, Apply(later, op), c, op.u, kind, SyncToken(op.ids.log));
    } else {
      RowsOfLogged(later, op.c, op.u, kind, SyncToken(op.ids.log), c);
      StaysGrown(db, later, Apply(later, op), c);
    }
  }

  lemma {:induction false} DeleteGrows(db: Db, later: Db, op: Op, c: string)
    requires Grown(db, later, c) && Integrity(later) && op.Delete? && (op.c, op.u) in later.objects
    ensures Grown(db, Apply(later, op), c)
  {
    if op.c == c {
      LoggedGrows(db, later, Apply(later, op), c, op.u, Deleted, SyncToken(op.log));
    } else {
      RowsOfLogged(later, op.c, op.u, Deleted, SyncToken(op.log), c);
      StaysGrown(db, later, Apply(later, op), c);
    }
  }

  /** Deleting the calendar takes every row with one of its tokens, so such a token is never found again. */
  lemma {:induction false} DropLosesToken(db: Db, c: string, t: string, r: SyncChange)
    requires LogTokens(db) && r in db.log && r.calendarId == c && r.syncToken == t
    ensures !LoggedToken(DeleteCalendarRow(db, c), t)
  {
    DropRowsMembers(db.log, c);
    forall q | q in DropRows(db.log, c)
      ensures q.syncToken != t
    {
      OneRowPerToken(db.log, q, r);
    }
  }

  lemma {:induction false} OneRowPerToken(log: seq<SyncChange>, q: SyncChange, r: SyncChange)
    requires DistinctRowTokens(log) && q in log && r in log
    ensures q.syncToken == r.syncToken ==> q == r
  {
  }

  lemma {:induction false} GrownHasRow(db: Db, later: Db, c: string, r: SyncChange)
    requires Grown(db, later, c) && r in RowsOf(db.log, c)
    ensures r in later.log && r.calendarId == c
  {
    var i :| 0 <= i < |RowsOf(db.log, c)| && RowsOf(db.log, c)[i] == r;
    assert RowsOf(later.log, c)[i] == r;
    FilterMember(later.log, OfCalendar(c), r);
  }

  lemma {:induction false} GrownOrLost(db: Db, later: Db, ops: seq<Op>, c: string, t: string, r: SyncChange)
    requires Integrity(later) && Stamped(later) && ValidRun(later, ops)
    requires r in RowsOf(db.log, c) && r.syncToken == t && t in Tokens(later.used)
    requires Grown(db, later, c) || !LoggedToken(later, t)
    ensures Grown(db, Run(later, ops), c) || !LoggedToken(Run(later, ops), t)
    decreases |ops|
  {
    if ops != [] {
      var op := ops[0];
      var after := Apply(later, op);
      ApplyKeepsIntegrity(later, op);
      ApplyKeepsStamps(later, op);
      assert Tokens(later.used) <= Tokens(after.used);
      if !LoggedToken(later, t) {
        StampsAreFresh(later, op);
        RowsAfter(later, op);
        assert !LoggedToken(after, t);
      } else if op == DeleteCalendar(c) {
        GrownHasRow(db, later, c, r);
        DropLosesToken(later, c, t, r);
      } else {
        ApplyGrows(db, later, op, c);
      }
      GrownOrLost(db, after, ops[1..], c, t, r);
    }
  }

  /**
   Delta convergence. `db` is a state just after the log row that carries `t`. However the run went on
   (with any operations on any calendars), as long as `t` is still in the log, a client that held the
   calendar as of `db` holds it as of now after replaying the report for `t`.
   */
  lemma {:induction false} DeltaConverges(db: Db, ops: seq<Op>, ctx: HrefContext, c: string, includeData: bool,
      t: string, entries: seq<Part>)
    requires Reachable(db) && ValidRun(db, ops)
    requires var rows := RowsOf(db.log, c); rows != [] && rows[|rows| - 1].syncToken == t
    requires LoggedToken(Run(db, ops), t)
    requires ReportEntries(Run(db, ops), ctx, c, includeData, t, entries)
    ensures Replay(View(db, ctx, c, includeData), SeenParts(entries)) == View(Run(db, ops), ctx, c, includeData)
  {
    var now := Run(db, ops);
    var rows := RowsOf(db.log, c);
    var r := rows[|rows| - 1];
    ReachableHasIntegrity(db);
    ReachableStamped(db);
    ReachableLifeCycle(db);
    RunKeepsIntegrity(db, ops);
    RunKeepsStamps(db, ops);
    RunKeepsLifeCycle(db, ops);
    FilterMember(db.log, OfCalendar(c), r);
    assert Grown(db, db, c) by {
      assert rows[..|rows|] == rows;
    }
    GrownOrLost(db, db, ops, c, t, r);
    LoggedTokenIsNotEmpty(db, r);
    DeltaRows(db, now, c, r);
    DeltaSettles(db, now, ctx, c, includeData);
  }

  lemma {:induction false} LoggedTokenIsNotEmpty(db: Db, r: SyncChange)
    requires LogTokens(db) && r in db.log
    ensures r.syncToken != ""
  {
  }

  lemma {:induction false} DeltaRows(db: Db, now: Db, c: string, r: SyncChange)
    requires Integrity(now) && Stamped(now) && Grown(db, now, c)
    requires RowsOf(db.log, c) != [] && RowsOf(db.log, c)[|RowsOf(db.log, c)| - 1] == r
    ensures ChangesSince(now.log, c, r.syncToken) == RowsOf(now.log, c)[|RowsOf(db.log, c)|..]
  {
    var n := |RowsOf(db.log, c)|;
    assert RowsOf(now.log, c)[n - 1] == r;
    FilterMember(now.log, OfCalendar(c), r);
    AnchorFinds(now.log, c, r.syncToken);
    var q :| q in now.log && q.calendarId == c && q.syncToken == r.syncToken
        && q.id == Anchor(now.log, c, r.syncToken).value;
    OneRowPerToken(now.log, q, r);
    AfterIsSuffix(now.log, c, n - 1);
  }

  lemma {:induction false} DeltaSettles(db: Db, now: Db, ctx: HrefContext, c: string, includeData: bool)
    requires LifeCycle(now) && Grown(db, now, c)
    ensures ReplayRows(View(db, ctx, c, includeData), now, ctx, c, includeData,
        RowsOf(now.log, c)[|RowsOf(db.log, c)|..])
            == View(now, ctx, c, includeData)
  {
    var n := |RowsOf(db.log, c)|;
    var more := RowsOf(now.log, c)[n..];
    var replica := View(db, ctx, c, includeData);
    assert RowsOf(now.log, c) == RowsOf(now.log, c)[..n] + more;
    forall u
      ensures Kinds(more, u) != [] ==> (EndsLive(Kinds(more, u)) <==> (c, u) in now.objects)
      ensures Kinds(more, u) == [] ==> SelectObject(now, c, u) == SelectObject(db, c, u)
    {
      KindsAppend(RowsOf(now.log, c)[..n], more, u);
      assert EndsLive(ObjectHistory(now, c, u)) <==> (c, u) in now.objects;
    }
    ConvergesIff(replica, now, ctx, c, includeData, more);
    forall u | (c, u) in now.objects
      ensures LiveSettles(replica, now, ctx, c, includeData, more, u)
    {
      ViewAt(db, ctx, c, includeData, u);
    }
    forall href | href in replica
      ensures HeldSettles(now, ctx, c, more, href)
    {
      var k :| k in db.objects && k.0 == c && ObjectHref(ctx, c, k.1) == href;
      assert k == (c, k.1);
      if (c, k.1) !in now.objects { LastIsIn(Kinds(more, k.1)); }
    }
  }
}
