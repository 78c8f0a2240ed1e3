/**
 Which time range a calendar-query asks for.

 Every time-range element of the body counts, wherever it stands. `QueryRangeIs` says that the range is made
 of the last start and the last end among their attributes, and that there is none exactly when one of the
 two is missing or empty.
 */
module ReportRange {
  import opened Wrappers
  import opened Sequences
  import opened XmlRequest
  import opened ReportToken

  predicate IsRange(e: XmlEvent) { IsElement(e) && LocalName(e.name) == "time-range" }

  /** The attributes of all time-range elements, in document order. */
  function RangeAttributes(events: seq<XmlEvent>): Attributes {
    if events == [] then []
    else (if IsRange(events[0]) then events[0].attributes else []) + RangeAttributes(events[1..])
  }

  /** The value of the last attribute with this key. */
  ghost predicate LastIs(attributes: Attributes, key: string, value: string) {
    exists k :: 0 <= k < |attributes| && attributes[k] == (key, value)
                && forall j :: k < j < |attributes| ==> attributes[j].0 != key
  }

  ghost predicate Absent(attributes: Attributes, key: string) {
    forall k :: 0 <= k < |attributes| ==> attributes[k].0 != key
  }

  // The reader -------------------------------------------------------------------------------------------------

  lemma {:induction false} AttributeOrAppend(attributes: Attributes, more: Attributes, key: string, default: string)
    ensures AttributeOr(attributes + more, key, default) ==
            AttributeOr(more, key, AttributeOr(attributes, key, default))
    decreases |attributes|
  {
    if attributes == [] {
      NothingBefore(more);
    } else {
      TailOfAppend(attributes, more);
      AttributeOrAppend(attributes[1..], more, key, if attributes[0].0 == key then attributes[0].1 else default);
    }
  }

  lemma {:induction false} AttributeOrIsLast(attributes: Attributes, key: string, default: string)
    ensures var t := AttributeOr(attributes, key, default);
            if Absent(attributes, key) then t == default else LastIs(attributes, key, t)
    decreases |attributes|
  {
    if attributes != [] {
      var rest, next := attributes[1..], if attributes[0].0 == key then attributes[0].1 else default;
      AttributeOrIsLast(rest, key, next);
      assert forall k :: 0 < k < |attributes| ==> attributes[k] == rest[k - 1];
      if k :| 0 <= k < |rest| && rest[k] == (key, AttributeOr(rest, key, next))
              && forall j :: k < j < |rest| ==> rest[j].0 != key {
        assert attributes[k + 1] == rest[k];
      }
    }
  }

  lemma {:induction false} LastIsUnique(attributes: Attributes, key: string, s: string, t: string)
    requires LastIs(attributes, key, s) && LastIs(attributes, key, t)
    ensures s == t && !Absent(attributes, key)
  {
  }

  /** The reader's two bounds, from the attributes alone. */
  lemma {:induction false} RangeReadOn(st: ReportState, events: seq<XmlEvent>)
    ensures var after, attributes := EventsAfter(st, events), RangeAttributes(events);
            && after.timeStart == AttributeOr(attributes, "start", st.timeStart)
            && after.timeEnd == AttributeOr(attributes, "end", st.timeEnd)
    decreases |events|
  {
    if events != [] {
      var e, next := events[0], AfterEvent(st, events[0]);
      var here := if IsRange(e) then e.attributes else [];
      RangeReadOne(st, e);
      RangeReadOn(next, events[1..]);
      AttributeOrAppend(here, RangeAttributes(events[1..]), "start", st.timeStart);
      AttributeOrAppend(here, RangeAttributes(events[1..]), "end", st.timeEnd);
    }
  }

  lemma {:induction false} RangeReadOne(st: ReportState, e: XmlEvent)
    ensures var after, here := AfterEvent(st, e), if IsRange(e) then e.attributes else [];
            && after.timeStart == AttributeOr(here, "start", st.timeStart)
            && after.timeEnd == AttributeOr(here, "end", st.timeEnd)
  {
    if IsElement(e) { RangeOfElement(st, e.name, e.attributes); }
  }

  lemma {:induction false} RangeOfElement(st: ReportState, name: string, attributes: Attributes)
    ensures var after := AfterReportElement(st, name, attributes);
            var here := if LocalName(name) == "time-range" then attributes else [];
            && after.timeStart == AttributeOr(here, "start", st.timeStart)
            && after.timeEnd == AttributeOr(here, "end", st.timeEnd)
  {
    RangeTagIs(name);
  }

  lemma {:induction false} RangeTagIs(name: string)
    ensures TagOf(name) == RangeTag <==> LocalName(name) == "time-range"
  {
  }

  /**
   For every event sequence read as a calendar query: the range is the last start and the last end given by
   any time-range element, and there is none exactly when one of them is absent or its last value is empty.
   */
  lemma {:induction false} QueryRangeIs(events: seq<XmlEvent>, request: ReportRequest)
    requires ReportFrom(NEW_REPORT, events) == Some(request) && request.CalendarQuery?
    ensures var given := RangeAttributes(events);
            && (request.timeRange.Some? ==>
                  && LastIs(given, "start", request.timeRange.value.0) && request.timeRange.value.0 != ""
                  && LastIs(given, "end", request.timeRange.value.1) && request.timeRange.value.1 != "")
            && (request.timeRange.None? <==>
                || Absent(given, "start") || LastIs(given, "start", "")
                || Absent(given, "end") || LastIs(given, "end", ""))
  {
    var given, st := RangeAttributes(events), EventsAfter(NEW_REPORT, events);
    ReadToTheEnd(NEW_REPORT, events);
    RangeReadOn(NEW_REPORT, events);
    BoundIs(given, "start", st.timeStart);
    BoundIs(given, "end", st.timeEnd);
  }

  lemma {:induction false} BoundIs(given: Attributes, key: string, t: string)
    requires t == AttributeOr(given, key, "")
    ensures t == "" <==> Absent(given, key) || LastIs(given, key, "")
    ensures t != "" ==> LastIs(given, key, t)
  {
    AttributeOrIsLast(given, key, "");
    if LastIs(given, key, "") && !Absent(given, key) { LastIsUnique(given, key, "", t); }
  }

  // A calendar query as clients send it ----------------------------------------------------------------------------

  /** An opening or closing of a filter element. */
  predicate IsFilterTag(e: XmlEvent) {
    (e.Start? || e.End?) && LocalName(e.name) in ["filter", "comp-filter"]
  }

  lemma {:induction false} ReadFilterTag(st: ReportState, e: XmlEvent)
    requires IsFilterTag(e)
    ensures AfterEvent(st, e) == st.(bindings := AfterEvent(st, e).bindings)
  {
  }

  lemma {:induction false} ReadFilterTags(st: ReportState, tags: seq<XmlEvent>)
    requires forall i :: 0 <= i < |tags| ==> IsFilterTag(tags[i])
    ensures EventsAfter(st, tags) == st.(bindings := EventsAfter(st, tags).bindings)
    ensures forall i :: 0 <= i < |tags| ==> !tags[i].Malformed?
    decreases |tags|
  {
    if tags != [] {
      assert forall i :: 0 <= i < |tags[1..]| ==> tags[1..][i] == tags[i + 1];
      ReadFilterTag(st, tags[0]);
      ReadFilterTags(AfterEvent(st, tags[0]), tags[1..]);
    }
  }

  lemma {:induction false} ReadRangeElement(st: ReportState, name: string, start: string, end: string)
    requires LocalName(name) == "time-range"
    ensures var after := AfterEvent(st, EmptyElement(name, [("start", start), ("end", end)]));
            after == st.(bindings := after.bindings, timeStart := start, timeEnd := end)
  {
    var given: Attributes := [("start", start), ("end", end)];
    var rest := given[1..];
    assert rest == [("end", end)] && rest[1..] == [] && "start" != "end";
    assert AttributeOr(rest, "start", start) == AttributeOr(rest[1..], "start", start) == start;
    assert AttributeOr(rest, "end", st.timeEnd) == AttributeOr(rest[1..], "end", end) == end;
  }

  /**
   A calendar query with its properties and a time range somewhere in its filter: it asks for these
   properties and this range, or for everything when one of the bounds is empty.
   */
  lemma {:induction false} SentQueryIsRead(n: Names, root: Attributes, children: seq<XmlEvent>, before: seq<XmlEvent>,
      range: string, start: string, end: string, after: seq<XmlEvent>)
    requires GoodNames(n, "calendar-query") && LocalName(range) == "time-range"
    requires forall i :: 0 <= i < |children| ==> IsReportChild(children[i])
    requires forall i :: 0 <= i < |before| ==> IsFilterTag(before[i])
    requires forall i :: 0 <= i < |after| ==> IsFilterTag(after[i])
    ensures var element := EmptyElement(range, [("start", start), ("end", end)]);
            ReportFrom(NEW_REPORT,
                       [Start(n.root, root)]
                       + (PropElement(n, children) + (before + ([element] + (after + [End(n.root)])))))
            == Some(CalendarQuery(RequestsOf(Registered(map[], root), children),
                                  if start != "" && end != "" then Some((start, end)) else None))
  {
    var element := EmptyElement(range, [("start", start), ("end", end)]);
    var st := NEW_REPORT.(bindings := Registered(map[], root), kind := Some(Query));
    var props := RequestsOf(Registered(map[], root), children);
    var st1 := st.(props := props);
    ReadRoot(n, root, Query, PropElement(n, children) + (before + ([element] + (after + [End(n.root)]))));
    ReadPropElement(st, n, children);
    NothingBefore(props);
    ReportAppend(st, PropElement(n, children), before + ([element] + (after + [End(n.root)])));
    ReadFilterTags(st1, before);
    ReportAppend(st1, before, [element] + (after + [End(n.root)]));
    var st2 := EventsAfter(st1, before);
    ReadRangeElement(st2, range, start, end);
    TailOfCons(element, after + [End(n.root)]);
    var st3 := AfterEvent(st2, element);
    ReadFilterTags(st3, after);
    ReportAppend(st3, after, [End(n.root)]);
    ReadClosingRoot(EventsAfter(st3, after), n);
  }
}
