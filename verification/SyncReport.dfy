/**
 The sync-collection report and what a client makes of it.

 The report turns log rows into entries by joining each row with the object as it is now. A client
 replays the entries in order over its replica. `ReplaySettles` computes the outcome for every href,
 in every database state, and `ConvergesIff` says exactly when the replica ends up equal to the
 calendar.
 */
module SyncReport {
  import opened Wrappers
  import opened Schema
  import opened Ordering
  import opened Store
  import opened Multistatus
  import opened ClientReader
  import opened Properties
  import opened Hrefs
  import opened History

  // The report ------------------------------------------------------------------------------------------

  /** A deletion becomes a bare href; any other row shows the current object, or nothing without one. */
  function EntryFor(db: Db, ctx: HrefContext, c: string, includeData: bool, row: SyncChange): seq<Part> {
    var href := ObjectHref(ctx, c, row.objectUid);
    if row.changeType == Deleted then [Response(href, [], [])]
    else if (c, row.objectUid) in db.objects then
      [Response(href, ObjectProps(db.objects[(c, row.objectUid)], includeData), [])]
    else []
  }

  function DeltaParts(db: Db, ctx: HrefContext, c: string, includeData: bool, rows: seq<SyncChange>): seq<Part> {
    if rows == [] then []
    else EntryFor(db, ctx, c, includeData, rows[0]) + DeltaParts(db, ctx, c, includeData, rows[1..])
  }

  function ListingParts(rows: seq<CalendarObject>, ctx: HrefContext, c: string, includeData: bool): seq<Part> {
    if rows == [] then []
    else [ListingPart(rows[0], ctx, c, includeData)] + ListingParts(rows[1..], ctx, c, includeData)
  }

  function ListingPart(o: CalendarObject, ctx: HrefContext, c: string, includeData: bool): Part {
    Response(ObjectHref(ctx, c, o.uid), ObjectProps(o, includeData), [])
  }

  /** The entries of a report: a full listing for the empty token, log rows otherwise. */
  ghost predicate ReportEntries(db: Db, ctx: HrefContext, c: string, includeData: bool, token: string,
      entries: seq<Part>) {
    if token == "" then
      exists rows :: Listing(rows, ObjectsOf(db, c), StartOf) && entries == ListingParts(rows, ctx, c, includeData)
    else
      entries == DeltaParts(db, ctx, c, includeData, ChangesSince(db.log, c, token))
  }

  /** The document that answers a report on an existing calendar. */
  ghost predicate Answers(db: Db, ctx: HrefContext, c: string, includeData: bool, token: string,
      document: seq<XmlToken>)
    requires c in db.calendars
  {
    exists entries ::
      && ReportEntries(db, ctx, c, includeData, token, entries)
      && document == Document(entries + [SyncTokenPart(EnsureSyncTokenUri(db.calendars[c].syncToken))])
  }

  // The client ------------------------------------------------------------------------------------------

  type Body = seq<SeenProp>

  /** What the client holds for each href. */
  type Replica = map<string, Body>

  function Get(replica: Replica, href: string): Option<Body> {
    if href in replica then Some(replica[href]) else None
  }

  /** A response without any property removes its href; any other replaces what is held. */
  function Absorb(replica: Replica, seen: Seen): Replica {
    match seen
    case SeenToken(_) => replica
    case SeenResponse(href, found, missing) =>
      if found == [] && missing == [] then replica - {href} else replica[href := found]
  }

  function Replay(replica: Replica, seen: seq<Seen>): Replica
    decreases |seen|
  {
    if seen == [] then replica else Replay(Absorb(replica, seen[0]), seen[1..])
  }

  /** The token a client keeps: the last one it read. */
  function TokenIn(seen: seq<Seen>): Option<string> {
    if seen == [] then None
    else match TokenIn(seen[1..])
      case Some(t) => Some(t)
      case None => if seen[0].SeenToken? then Some(seen[0].token) else None
  }

  /** The last response for an href. */
  function LastFor(seen: seq<Seen>, href: string): Option<Seen> {
    if seen == [] then None
    else match LastFor(seen[1..], href)
      case Some(s) => Some(s)
      case None => if seen[0].SeenResponse? && seen[0].href == href then Some(seen[0]) else None
  }

  /** In-order replay is "the last entry of each href wins". */
  lemma {:induction false} LastEntryWins(replica: Replica, seen: seq<Seen>, href: string)
    ensures Get(Replay(replica, seen), href) ==
            match LastFor(seen, href)
            case None => Get(replica, href)
            case Some(s) => Get(Absorb(replica, s), href)
    decreases |seen|
  {
    if seen != [] {
      LastEntryWins(Absorb(replica, seen[0]), seen[1..], href);
      if LastFor(seen[1..], href).Some? { LastForIsAbout(seen[1..], href); }
    }
  }

  lemma {:induction false} LastForIsAbout(seen: seq<Seen>, href: string)
    ensures var s := LastFor(seen, href); s.Some? ==> s.value.SeenResponse? && s.value.href == href
  {
    if seen != [] { LastForIsAbout(seen[1..], href); }
  }

  lemma {:induction false} ReplayAppend(replica: Replica, seen: seq<Seen>, more: seq<Seen>)
    ensures Replay(replica, seen + more) == Replay(Replay(replica, seen), more)
    decreases |seen|
  {
    if seen == [] {
      assert seen + more == more;
    } else {
      assert (seen + more)[1..] == seen[1..] + more;
      ReplayAppend(Absorb(replica, seen[0]), seen[1..], more);
    }
  }

  lemma {:induction false} SeenPartsAppend(parts: seq<Part>, more: seq<Part>)
    ensures SeenParts(parts + more) == SeenParts(parts) + SeenParts(more)
  {
    if parts == [] {
      assert parts + more == more;
    } else {
      assert (parts + more)[1..] == parts[1..] + more;
      SeenPartsAppend(parts[1..], more);
    }
  }

  // The calendar as a replica --------------------------------------------------------------------------

  function BodyOf(o: CalendarObject, includeData: bool): Body {
    SeenPropsOf(ObjectProps(o, includeData))
  }

  lemma {:induction false} BodyIsNotEmpty(o: CalendarObject, includeData: bool)
    ensures BodyOf(o, includeData) != []
  {
  }

  /** The objects of a calendar as a client should hold them. */
  function View(db: Db, ctx: HrefContext, c: string, includeData: bool): Replica {
    assert forall u, v :: ObjectHref(ctx, c, u) == ObjectHref(ctx, c, v) ==> u == v by {
      forall u, v | ObjectHref(ctx, c, u) == ObjectHref(ctx, c, v)
        ensures u == v
      {
        HrefInjective(ctx, c, u, v);
      }
    }
    map k | k in db.objects && k.0 == c :: ObjectHref(ctx, c, k.1) := BodyOf(db.objects[k], includeData)
  }

  lemma {:induction false} ViewAt(db: Db, ctx: HrefContext, c: string, includeData: bool, u: string)
    ensures Get(View(db, ctx, c, includeData), ObjectHref(ctx, c, u)) ==
            if (c, u) in db.objects then Some(BodyOf(db.objects[(c, u)], includeData)) else None
  {
    var view, href := View(db, ctx, c, includeData), ObjectHref(ctx, c, u);
    if (c, u) in db.objects {
      assert (c, u).0 == c;
      assert href in view;
    }
    if href in view {
      var k :| k in db.objects && k.0 == c && ObjectHref(ctx, c, k.1) == href
          && view[href] == BodyOf(db.objects[k], includeData);
      HrefInjective(ctx, c, u, k.1);
      assert k == (c, u);
    }
  }

  // What replay leaves at each href -----------------------------------------------------------------------

  /**
   What a client holds for one uid after the rows with these kinds. A live object shows its current
   body unless its last row is a deletion; a dead one goes if any row is a deletion.
   */
  function Settled(live: Option<Body>, kinds: seq<ChangeType>, before: Option<Body>): Option<Body> {
    if live.None? then if Deleted in kinds then None else before
    else if kinds == [] then before
    else if kinds[|kinds| - 1] == Deleted then None
    else live
  }

  function LiveBody(db: Db, c: string, u: string, includeData: bool): Option<Body> {
    if (c, u) in db.objects then Some(BodyOf(db.objects[(c, u)], includeData)) else None
  }

  function ReplayRows(replica: Replica, db: Db, ctx: HrefContext, c: string, includeData: bool,
      rows: seq<SyncChange>): Replica {
    Replay(replica, SeenParts(DeltaParts(db, ctx, c, includeData, rows)))
  }

  lemma {:induction false} ReplayRow(replica: Replica, db: Db, ctx: HrefContext, c: string, includeData: bool,
      row: SyncChange, u: string)
    ensures var after := Replay(replica, SeenParts(EntryFor(db, ctx, c, includeData, row)));
            var href := ObjectHref(ctx, c, u);
            Get(after, href) ==
            if row.objectUid == u then Settled(LiveBody(db, c, u, includeData), [row.changeType], Get(replica, href))
            else Get(replica, href)
    ensures forall href | href != ObjectHref(ctx, c, row.objectUid) ::
              Get(Replay(replica, SeenParts(EntryFor(db, ctx, c, includeData, row))), href) == Get(replica, href)
  {
    var entry := EntryFor(db, ctx, c, includeData, row);
    if entry != [] {
      assert entry[1..] == [] && SeenParts(entry) == [SeenPart(entry[0])];
      assert SeenParts(entry)[1..] == [];
    }
    if (c, row.objectUid) in db.objects { BodyIsNotEmpty(db.objects[(c, row.objectUid)], includeData); }
    if ObjectHref(ctx, c, u) == ObjectHref(ctx, c, row.objectUid) { HrefInjective(ctx, c, u, row.objectUid); }
  }

  lemma {:induction false} SplitRows(replica: Replica, db: Db, ctx: HrefContext, c: string, includeData: bool,
      rows: seq<SyncChange>)
    requires rows != []
    ensures ReplayRows(replica, db, ctx, c, includeData, rows) ==
            ReplayRows(Replay(replica, SeenParts(EntryFor(db, ctx, c, includeData, rows[0]))), db, ctx, c,
                includeData, rows[1..])
  {
    var first, rest := EntryFor(db, ctx, c, includeData, rows[0]), DeltaParts(db, ctx, c, includeData, rows[1..]);
    SeenPartsAppend(first, rest);
    ReplayAppend(replica, SeenParts(first), SeenParts(rest));
  }

  lemma {:induction false} SettledInSteps(live: Option<Body>, kind: ChangeType, kinds: seq<ChangeType>,
      before: Option<Body>)
    ensures Settled(live, [kind] + kinds, before) == Settled(live, kinds, Settled(live, [kind], before))
  {
  }

  /** Replay of any rows, in any database state, over any replica, at the href of any uid. */
  lemma {:induction false} ReplaySettles(
    replica: Replica, db: Db, ctx: HrefContext, c: string, includeData: bool, rows: seq<SyncChange>, u: string)
    ensures Get(ReplayRows(replica, db, ctx, c, includeData, rows), ObjectHref(ctx, c, u)) ==
            Settled(LiveBody(db, c, u, includeData), Kinds(rows, u), Get(replica, ObjectHref(ctx, c, u)))
    decreases |rows|
  {
    if rows != [] {
      var next := Replay(replica, SeenParts(EntryFor(db, ctx, c, includeData, rows[0])));
      SplitRows(replica, db, ctx, c, includeData, rows);
      ReplayRow(replica, db, ctx, c, includeData, rows[0], u);
      ReplaySettles(next, db, ctx, c, includeData, rows[1..], u);
      SettledInSteps(LiveBody(db, c, u, includeData), rows[0].changeType, Kinds(rows[1..], u),
                     Get(replica, ObjectHref(ctx, c, u)));
    }
  }

  /** Replay leaves every href alone that names none of the logged uids. */
  lemma {:induction false} ReplayElsewhere(
    replica: Replica, db: Db, ctx: HrefContext, c: string, includeData: bool, rows: seq<SyncChange>, href: string)
    requires forall row :: row in rows ==> ObjectHref(ctx, c, row.objectUid) != href
    ensures Get(ReplayRows(replica, db, ctx, c, includeData, rows), href) == Get(replica, href)
    decreases |rows|
  {
    if rows != [] {
      var next := Replay(replica, SeenParts(EntryFor(db, ctx, c, includeData, rows[0])));
      SplitRows(replica, db, ctx, c, includeData, rows);
      ReplayRow(replica, db, ctx, c, includeData, rows[0], "");
      ReplayElsewhere(next, db, ctx, c, includeData, rows[1..], href);
    }
  }

  // When replay converges -----------------------------------------------------------------------------------

  /** A live uid ends right: its last row is no deletion, or it has no rows and the replica is current. */
  predicate LiveSettles(replica: Replica, db: Db, ctx: HrefContext, c: string, includeData: bool,
      rows: seq<SyncChange>, u: string)
    requires (c, u) in db.objects
  {
    if Kinds(rows, u) == [] then Get(replica, ObjectHref(ctx, c, u)) == Some(BodyOf(db.objects[(c, u)], includeData))
    else EndsLive(Kinds(rows, u))
  }

  /** An href held by the client is live, or its deletion is among the rows. */
  ghost predicate HeldSettles(db: Db, ctx: HrefContext, c: string, rows: seq<SyncChange>, href: string) {
    exists u :: ObjectHref(ctx, c, u) == href && ((c, u) in db.objects || Deleted in Kinds(rows, u))
  }

  /** What a converged replay says about one uid. */
  lemma {:induction false} UidConverges(replica: Replica, db: Db, ctx: HrefContext, c: string, includeData: bool,
                                        rows: seq<SyncChange>, u: string)
    ensures Get(ReplayRows(replica, db, ctx, c, includeData, rows), ObjectHref(ctx, c, u))
            == Get(View(db, ctx, c, includeData), ObjectHref(ctx, c, u)) <==>
              if (c, u) in db.objects then LiveSettles(replica, db, ctx, c, includeData, rows, u)
              else Deleted in Kinds(rows, u) || ObjectHref(ctx, c, u) !in replica
  {
    ReplaySettles(replica, db, ctx, c, includeData, rows, u);
    ViewAt(db, ctx, c, includeData, u);
  }

  lemma {:induction false} ConvergedSettles(
    replica: Replica, db: Db, ctx: HrefContext, c: string, includeData: bool, rows: seq<SyncChange>)
    requires ReplayRows(replica, db, ctx, c, includeData, rows) == View(db, ctx, c, includeData)
    ensures forall u :: (c, u) in db.objects ==> LiveSettles(replica, db, ctx, c, includeData, rows, u)
    ensures forall href :: href in replica ==> HeldSettles(db, ctx, c, rows, href)
  {
    forall u | (c, u) in db.objects
      ensures LiveSettles(replica, db, ctx, c, includeData, rows, u)
    {
      UidConverges(replica, db, ctx, c, includeData, rows, u);
    }
    forall href | href in replica
      ensures HeldSettles(db, ctx, c, rows, href)
    {
      if u :| ObjectHref(ctx, c, u) == href {
        UidConverges(replica, db, ctx, c, includeData, rows, u);
        assert (c, u) in db.objects || Deleted in Kinds(rows, u);
      } else {
        ReplayElsewhere(replica, db, ctx, c, includeData, rows, href);
        assert Get(View(db, ctx, c, includeData), href) == Get(replica, href);
        assert href in View(db, ctx, c, includeData);
      }
    }
  }

  lemma {:induction false} SettledConverges(
    replica: Replica, db: Db, ctx: HrefContext, c: string, includeData: bool, rows: seq<SyncChange>)
    requires forall u :: (c, u) in db.objects ==> LiveSettles(replica, db, ctx, c, includeData, rows, u)
    requires forall href :: href in replica ==> HeldSettles(db, ctx, c, rows, href)
    ensures ReplayRows(replica, db, ctx, c, includeData, rows) == View(db, ctx, c, includeData)
  {
    var after, view := ReplayRows(replica, db, ctx, c, includeData, rows), View(db, ctx, c, includeData);
    forall href
      ensures Get(after, href) == Get(view, href)
    {
      HrefSettles(replica, db, ctx, c, includeData, rows, href);
    }
    SameReplica(after, view);
  }

  lemma {:induction false} SameReplica(a: Replica, b: Replica)
    requires forall href :: Get(a, href) == Get(b, href)
    ensures a == b
  {
    assert forall href :: href in a <==> Get(a, href).Some?;
    assert forall href :: href in b <==> Get(b, href).Some?;
  }

  ghost predicate AllSettle(
    replica: Replica, db: Db, ctx: HrefContext, c: string, includeData: bool, rows: seq<SyncChange>)
  {
    && (forall u :: (c, u) in db.objects ==> LiveSettles(replica, db, ctx, c, includeData, rows, u))
    && (forall href :: href in replica ==> HeldSettles(db, ctx, c, rows, href))
  }

  /** Exactly when replaying rows turns a replica into the calendar, whatever the state, rows and replica. */
  lemma {:induction false} ConvergesIff(
    replica: Replica, db: Db, ctx: HrefContext, c: string, includeData: bool, rows: seq<SyncChange>)
    ensures ReplayRows(replica, db, ctx, c, includeData, rows) == View(db, ctx, c, includeData)
            <==> AllSettle(replica, db, ctx, c, includeData, rows)
  {
    if ReplayRows(replica, db, ctx, c, includeData, rows) == View(db, ctx, c, includeData) {
      ConvergedSettles(replica, db, ctx, c, includeData, rows);
    }
    if AllSettle(replica, db, ctx, c, includeData, rows) {
      SettledConverges(replica, db, ctx, c, includeData, rows);
    }
  }

  lemma {:induction false} HrefSettles(replica: Replica, db: Db, ctx: HrefContext, c: string, includeData: bool,
      rows: seq<SyncChange>, href: string)
    requires forall u :: (c, u) in db.objects ==> LiveSettles(replica, db, ctx, c, includeData, rows, u)
    requires href in replica ==> HeldSettles(db, ctx, c, rows, href)
    ensures Get(ReplayRows(replica, db, ctx, c, includeData, rows), href) == Get(View(db, ctx, c, includeData), href)
  {
    if exists u :: ObjectHref(ctx, c, u) == href {
      var u :| ObjectHref(ctx, c, u) == href;
      ReplaySettles(replica, db, ctx, c, includeData, rows, u);
      ViewAt(db, ctx, c, includeData, u);
      if href in replica && (c, u) !in db.objects {
        var v :| ObjectHref(ctx, c, v) == href && ((c, v) in db.objects || Deleted in Kinds(rows, v));
        HrefInjective(ctx, c, u, v);
      }
    } else {
      ReplayElsewhere(replica, db, ctx, c, includeData, rows, href);
    }
  }
}
