/**
 What a client reads in the documents of the reports, column by column.

 The builder's parts and the property lists of the server do not occur here: a response shows the href, the
 etag, the content type and, where asked for, the text of an object, under the names a client knows.
 */
module ReportContent {
  import opened Wrappers
  import opened Schema
  import opened Operations
  import opened Ordering
  import opened Store
  import opened Multistatus
  import opened ClientReader
  import opened Properties
  import opened Hrefs
  import opened SyncReport
  import SyncClient

  /** The properties a client reads of an object. */
  function Shown(o: CalendarObject, withData: bool): seq<SeenProp> {
    [SeenProp("D:getetag", Some([Chars(o.etag)])),
     SeenProp("D:getcontenttype", Some([Chars("text/calendar; charset=utf-8")]))]
    + if withData then [SeenProp("C:calendar-data", Some([Chars(o.icalData)]))] else []
  }

  lemma {:induction false} ShownProps(o: CalendarObject, withData: bool)
    ensures SeenPropsOf(ObjectProps(o, withData)) == Shown(o, withData)
  {
    var etag := PropValue("getetag", DAV, Text(o.etag));
    var kind := PropValue("getcontenttype", DAV, Text("text/calendar; charset=utf-8"));
    var data := PropValue("calendar-data", CALDAV, Text(o.icalData));
    SeenPropsAre(etag, kind, data);
    assert ObjectProps(o, withData) == if withData then [etag, kind, data] else [etag, kind];
    assert "D" + ":" + "getetag" == "D:getetag" && "D" + ":" + "getcontenttype" == "D:getcontenttype";
    assert "C" + ":" + "calendar-data" == "C:calendar-data";
  }

  const DAV := "DAV:"
  const CALDAV := "urn:ietf:params:xml:ns:caldav"

  lemma {:induction false} SeenPropsAre(a: PropValue, b: PropValue, c: PropValue)
    ensures SeenPropsOf([a, b]) == [SeenPropOf(a), SeenPropOf(b)]
    ensures SeenPropsOf([a, b, c]) == [SeenPropOf(a), SeenPropOf(b), SeenPropOf(c)]
  {
    assert [a, b][1..] == [b] && [b][1..] == [] && [a, b, c][1..] == [b, c] && [b, c][1..] == [c] && [c][1..] == [];
    assert SeenPropsOf([b]) == [SeenPropOf(b)] && SeenPropsOf([c]) == [SeenPropOf(c)];
    assert SeenPropsOf([b, c]) == [SeenPropOf(b), SeenPropOf(c)];
  }

  // Listings ----------------------------------------------------------------------------------------------------

  /** One response for each row, in their order. */
  ghost predicate ShowsRows(seen: seq<Seen>, rows: seq<CalendarObject>, ctx: HrefContext, c: string, withData: bool) {
    && |seen| == |rows|
    && forall i :: 0 <= i < |rows| ==>
                     seen[i] == SeenResponse(ObjectHref(ctx, c, rows[i].uid), Shown(rows[i], withData), [])
  }

  lemma {:induction false} ListingShows(rows: seq<CalendarObject>, ctx: HrefContext, c: string, withData: bool)
    ensures ShowsRows(SeenParts(ListingParts(rows, ctx, c, withData)), rows, ctx, c, withData)
    decreases |rows|
  {
    if rows != [] {
      var parts := ListingParts(rows, ctx, c, withData);
      ListingShows(rows[1..], ctx, c, withData);
      ShownProps(rows[0], withData);
      assert parts[0] == ListingPart(rows[0], ctx, c, withData);
      assert parts[1..] == ListingParts(rows[1..], ctx, c, withData);
    }
  }

  // Changes -----------------------------------------------------------------------------------------------------

  /** What the client is told of a log row: a bare href for a deletion, else the object as it is now, if it is. */
  function Told(db: Db, ctx: HrefContext, c: string, withData: bool, row: SyncChange): seq<Seen> {
    var href := ObjectHref(ctx, c, row.objectUid);
    match row.changeType
    case Deleted => [SeenResponse(href, [], [])]
    case _ =>
      if (c, row.objectUid) in db.objects then
        [SeenResponse(href, Shown(db.objects[(c, row.objectUid)], withData), [])]
      else []
  }

  function AllTold(db: Db, ctx: HrefContext, c: string, withData: bool, rows: seq<SyncChange>): seq<Seen> {
    if rows == [] then [] else Told(db, ctx, c, withData, rows[0]) + AllTold(db, ctx, c, withData, rows[1..])
  }

  lemma {:induction false} EntryTells(db: Db, ctx: HrefContext, c: string, withData: bool, row: SyncChange)
    ensures SeenParts(EntryFor(db, ctx, c, withData, row)) == Told(db, ctx, c, withData, row)
  {
    var entry := EntryFor(db, ctx, c, withData, row);
    if entry != [] { assert entry[1..] == [] && SeenParts(entry) == [SeenPart(entry[0])]; }
    if (c, row.objectUid) in db.objects { ShownProps(db.objects[(c, row.objectUid)], withData); }
  }

  lemma {:induction false} DeltaTells(db: Db, ctx: HrefContext, c: string, withData: bool, rows: seq<SyncChange>)
    ensures SeenParts(DeltaParts(db, ctx, c, withData, rows)) == AllTold(db, ctx, c, withData, rows)
    decreases |rows|
  {
    if rows != [] {
      EntryTells(db, ctx, c, withData, rows[0]);
      DeltaTells(db, ctx, c, withData, rows[1..]);
      SeenPartsAppend(EntryFor(db, ctx, c, withData, rows[0]), DeltaParts(db, ctx, c, withData, rows[1..]));
    }
  }

  // Whole documents ---------------------------------------------------------------------------------------------

  /** The listed objects, or what the rows since the token tell. */
  ghost predicate ShowsEntries(db: Db, ctx: HrefContext, c: string, withData: bool, token: string, seen: seq<Seen>) {
    if token == "" then
      exists rows :: Listing(rows, ObjectsOf(db, c), StartOf) && ShowsRows(seen, rows, ctx, c, withData)
    else seen == AllTold(db, ctx, c, withData, ChangesSince(db.log, c, token))
  }

  /** A client reads these entries, and then the token of the calendar as a URI. */
  ghost predicate SyncShows(db: Db, ctx: HrefContext, c: string, withData: bool, token: string,
      document: seq<XmlToken>)
    requires c in db.calendars
  {
    var t, read := db.calendars[c].syncToken, ReadDocument(document);
    && read.Some? && read.value != []
    && read.value[|read.value| - 1] == SeenToken(if ':' in t then t else "data:," + t)
    && ShowsEntries(db, ctx, c, withData, token, read.value[..|read.value| - 1])
  }

  lemma {:induction false} DocumentReads(parts: seq<Part>, t: string)
    requires Tidy(parts + [SyncTokenPart(t)])
    ensures ReadDocument(Document(parts + [SyncTokenPart(t)])) == Some(SeenParts(parts) + [SeenToken(t)])
  {
    var last := [SyncTokenPart(t)];
    ReadBack(parts + last);
    SeenPartsAppend(parts, last);
    assert last[1..] == [] && SeenParts(last) == [SeenToken(t)];
  }

  lemma {:induction false} EntriesShow(db: Db, ctx: HrefContext, c: string, withData: bool, token: string,
      parts: seq<Part>)
    requires ReportEntries(db, ctx, c, withData, token, parts)
    ensures ShowsEntries(db, ctx, c, withData, token, SeenParts(parts))
  {
    if token == "" {
      var rows :| Listing(rows, ObjectsOf(db, c), StartOf) && parts == ListingParts(rows, ctx, c, withData);
      ListingShows(rows, ctx, c, withData);
    } else {
      DeltaTells(db, ctx, c, withData, ChangesSince(db.log, c, token));
    }
  }

  lemma {:induction false} AnswersShow(db: Db, ctx: HrefContext, c: string, withData: bool, token: string,
      document: seq<XmlToken>)
    requires c in db.calendars && Answers(db, ctx, c, withData, token, document)
    ensures SyncShows(db, ctx, c, withData, token, document)
  {
    var t := EnsureSyncTokenUri(db.calendars[c].syncToken);
    var parts :| ReportEntries(db, ctx, c, withData, token, parts) && document == Document(parts + [SyncTokenPart(t)]);
    SyncClient.ReportHasNoTokens(db, ctx, c, withData, token, parts);
    DocumentReads(parts, t);
    EntriesShow(db, ctx, c, withData, token, parts);
    var seen := SeenParts(parts);
    assert (seen + [SeenToken(t)])[..|seen|] == seen;
  }

  lemma {:induction false} ListingReads(rows: seq<CalendarObject>, ctx: HrefContext, c: string)
    ensures var read := ReadDocument(Document(ListingParts(rows, ctx, c, true)));
            read.Some? && ShowsRows(read.value, rows, ctx, c, true)
  {
    SyncClient.ListingHasNoTokens(rows, ctx, c, true);
    ReadBack(ListingParts(rows, ctx, c, true));
    ListingShows(rows, ctx, c, true);
  }

  /** The full view of a calendar has its etags and texts in it. */
  lemma {:induction false} SameViewSameTexts(db: Db, other: Db, ctx: HrefContext, c: string, u: string)
    requires View(db, ctx, c, true) == View(other, ctx, c, true)
    ensures (c, u) in db.objects <==> (c, u) in other.objects
    ensures (c, u) in db.objects ==>
              && db.objects[(c, u)].etag == other.objects[(c, u)].etag
              && db.objects[(c, u)].icalData == other.objects[(c, u)].icalData
  {
    ViewAt(db, ctx, c, true, u);
    ViewAt(other, ctx, c, true, u);
    if (c, u) in db.objects && (c, u) in other.objects {
      var o, p := db.objects[(c, u)], other.objects[(c, u)];
      ShownProps(o, true);
      ShownProps(p, true);
      assert Shown(o, true)[0] == Shown(p, true)[0] && Shown(o, true)[2] == Shown(p, true)[2];
      assert [Chars(o.etag)][0] == [Chars(p.etag)][0] && [Chars(o.icalData)][0] == [Chars(p.icalData)][0];
    }
  }
}
