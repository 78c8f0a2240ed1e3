/**
 What PROPFIND and REPORT bodies mean, for every sequence of events.

 Nothing is said here in terms of the readers' states or tables. An element is known by its local name, it
 is inside another while that is open, and its namespace is what the declarations in the document up to it
 say. `PropfindIs` and `ReportIs` say what any body asks for.
 */
module BodyMeaning {
  import opened Wrappers
  import opened Sequences
  import opened Strings
  import opened Properties
  import opened XmlRequest
  import opened ReportRange

  // Names ------------------------------------------------------------------------------------------------------

  /** `prefix:local`, or only `local`. */
  predicate HasName(name: string, prefix: Option<string>, local: string) {
    match prefix
    case Some(p) => ':' !in p && name == p + ":" + local
    case None => ':' !in name && name == local
  }

  lemma {:induction false} NameSplits(name: string) returns (prefix: Option<string>)
    ensures HasName(name, prefix, LocalName(name))
    ensures prefix == match IndexOf(name, ':') case Some(i) => Some(name[..i]) case None => None
  {
    match IndexOf(name, ':')
    case Some(i) =>
      prefix := Some(name[..i]);
      assert name == name[..i] + ":" + name[i + 1..];
    case None => prefix := None;
  }

  lemma {:induction false} OneSplit(name: string, prefix: Option<string>, local: string)
    requires HasName(name, prefix, local)
    ensures LocalName(name) == local
    ensures prefix == match IndexOf(name, ':') case Some(i) => Some(name[..i]) case None => None
  {
    if prefix.Some? {
      var p := prefix.value;
      assert name[..|p|] == p && name[|p|] == ':' && name[|p| + 1..] == local;
      IndexIs(name, ':', |p|);
    }
  }

  /** The local name is what stands behind the first colon, or the whole name. */
  lemma {:induction false} LocalNameIff(name: string, local: string)
    ensures LocalName(name) == local <==> exists prefix :: HasName(name, prefix, local)
  {
    var prefix := NameSplits(name);
    if prefix' :| HasName(name, prefix', local) { OneSplit(name, prefix', local); }
  }

  predicate Opens(e: XmlEvent, local: string) { IsElement(e) && LocalName(e.name) == local }

  predicate Closes(e: XmlEvent, local: string) { e.End? && LocalName(e.name) == local }

  /** Such an element was opened, self-closing or not, and none closed since. */
  ghost predicate Inside(events: seq<XmlEvent>, local: string) {
    exists m :: 0 <= m < |events| && OpenSince(events, m, local)
  }

  ghost predicate OpenSince(events: seq<XmlEvent>, m: nat, local: string)
    requires m < |events|
  {
    Opens(events[m], local) && forall j :: m < j < |events| ==> !Closes(events[j], local)
  }

  lemma {:induction false} InsideOneMore(front: seq<XmlEvent>, e: XmlEvent, local: string)
    ensures Inside(front + [e], local) <==> Opens(e, local) || (Inside(front, local) && !Closes(e, local))
  {
    var all, n := front + [e], |front|;
    assert forall j :: 0 <= j < n ==> all[j] == front[j];
    if Opens(e, local) { assert OpenSince(all, n, local); }
    if m :| 0 <= m < n && OpenSince(front, m, local) {
      if !Closes(e, local) { assert OpenSince(all, m, local); }
    }
    if m :| 0 <= m <= n && OpenSince(all, m, local) {
      if m < n { assert OpenSince(front, m, local) && !Closes(all[n], local); }
    }
  }

  // Namespaces -------------------------------------------------------------------------------------------------

  /** The attributes of all elements, in document order. */
  function Declarations(events: seq<XmlEvent>): Attributes {
    if events == [] then []
    else
      var n := |events| - 1;
      Declarations(events[..n]) + if IsElement(events[n]) then events[n].attributes else []
  }

  /** `xmlns:p`, or `xmlns` for the empty prefix. */
  predicate Declares(key: string, p: string) { key == "xmlns:" + p || (p == "" && key == "xmlns") }

  ghost predicate Undeclared(declared: Attributes, p: string) {
    forall k :: 0 <= k < |declared| ==> !Declares(declared[k].0, p)
  }

  ghost predicate LastDeclared(declared: Attributes, p: string, ns: string) {
    exists k :: 0 <= k < |declared| && Declares(declared[k].0, p) && declared[k].1 == ns
                && forall j :: k < j < |declared| ==> !Declares(declared[j].0, p)
  }

  ghost predicate FirstIs(own: Attributes, key: string, value: string) {
    exists k :: 0 <= k < |own| && own[k] == (key, value) && forall j :: 0 <= j < k ==> own[j].0 != key
  }

  /** The namespace of a prefix that nobody declared. */
  predicate Conventional(p: string, ns: string) {
    || (p in ["C", "c", "cal"] && ns == "urn:ietf:params:xml:ns:caldav")
    || (p in ["A", "IC"] && ns == "http://apple.com/ns/ical/")
    || (p in ["CS", "cs"] && ns == "http://calendarserver.org/ns/")
    || (p !in ["C", "c", "cal", "A", "IC", "CS", "cs"] && ns == "DAV:")
  }

  /** What the document says of a prefix, the empty one included. */
  ghost predicate Bound(declared: Attributes, prefix: Option<string>, ns: string) {
    match prefix
    case Some(p) => if Undeclared(declared, p) then Conventional(p, ns) else LastDeclared(declared, p, ns)
    case None => if Undeclared(declared, "") then ns == "DAV:" else LastDeclared(declared, "", ns)
  }

  /**
   The namespace of an element. Its own `xmlns` counts first, whatever its prefix; then the last declaration
   of its prefix anywhere before; then the convention.
   */
  ghost predicate Denotes(declared: Attributes, own: Attributes, name: string, ns: string) {
    if !Absent(own, "xmlns") then FirstIs(own, "xmlns", ns)
    else exists prefix, local :: HasName(name, prefix, local) && Bound(declared, prefix, ns)
  }

  lemma {:induction false} RegisteredAppend(b: map<string, string>, attributes: Attributes, more: Attributes)
    ensures Registered(b, attributes + more) == Registered(Registered(b, attributes), more)
    decreases |attributes|
  {
    if attributes == [] {
      NothingBefore(more);
    } else {
      TailOfAppend(attributes, more);
      RegisteredAppend(Bind(b, attributes[0].0, attributes[0].1), attributes[1..], more);
    }
  }

  lemma {:induction false} DeclaresIff(key: string, p: string)
    ensures DeclaredPrefix(key) == Some(p) <==> Declares(key, p)
  {
    if StartsWith(key, XMLNS_PREFIX) { assert key == XMLNS_PREFIX + key[|XMLNS_PREFIX|..]; }
    assert (XMLNS_PREFIX + p)[|XMLNS_PREFIX|..] == p;
    assert |XMLNS_PREFIX + p| > |XMLNS|;
  }

  lemma {:induction false} BoundIs(declared: Attributes, p: string)
    ensures var b := Registered(map[], declared);
            if Undeclared(declared, p) then p !in b else p in b && LastDeclared(declared, p, b[p])
  {
    LastDeclarationWins(map[], declared, p);
    forall k | 0 <= k < |declared|
      ensures DeclaresAt(declared, k, p) <==> Declares(declared[k].0, p)
    {
      DeclaresIff(declared[k].0, p);
    }
  }

  lemma {:induction false} OwnDefaultIs(own: Attributes)
    ensures OwnDefault(own).None? <==> Absent(own, "xmlns")
    ensures OwnDefault(own).Some? ==> FirstIs(own, "xmlns", OwnDefault(own).value)
  {
    if own != [] && own[0].0 != XMLNS {
      OwnDefaultIs(own[1..]);
      assert forall k :: 0 < k < |own| ==> own[k] == own[1..][k - 1];
      if OwnDefault(own).Some? {
        var k :| 0 <= k < |own[1..]| && own[1..][k] == (XMLNS, OwnDefault(own).value)
                 && forall j :: 0 <= j < k ==> own[1..][j].0 != XMLNS;
        assert own[k + 1] == (XMLNS, OwnDefault(own).value);
      }
    }
  }

  lemma {:induction false} FirstIsUnique(own: Attributes, key: string, s: string, t: string)
    requires FirstIs(own, key, s) && FirstIs(own, key, t)
    ensures s == t
  {
  }

  lemma {:induction false} LastDeclaredIsUnique(declared: Attributes, p: string, s: string, t: string)
    requires LastDeclared(declared, p, s) && LastDeclared(declared, p, t)
    ensures s == t
  {
    var i :| 0 <= i < |declared| && Declares(declared[i].0, p) && declared[i].1 == s
             && forall j :: i < j < |declared| ==> !Declares(declared[j].0, p);
    var k :| 0 <= k < |declared| && Declares(declared[k].0, p) && declared[k].1 == t
             && forall j :: k < j < |declared| ==> !Declares(declared[j].0, p);
    assert i == k;
  }

  lemma {:induction false} ConventionIs(p: string, ns: string)
    ensures Conventional(p, ns) <==> ns == ConventionalNs(p)
  {
  }

  lemma {:induction false} BoundIff(declared: Attributes, prefix: Option<string>, ns: string)
    ensures Bound(declared, prefix, ns) <==>
            var b, p := Registered(map[], declared), GetPrefix(prefix);
            ns == if p in b then b[p] else if prefix.Some? then ConventionalNs(p) else "DAV:"
  {
    var b, p := Registered(map[], declared), GetPrefix(prefix);
    BoundIs(declared, p);
    ConventionIs(p, ns);
    if p in b && LastDeclared(declared, p, ns) { LastDeclaredIsUnique(declared, p, ns, b[p]); }
    assert p in b ==> !Undeclared(declared, p);
  }

  function GetPrefix(prefix: Option<string>): string {
    match prefix case Some(p) => p case None => ""
  }

  /** The resolver gives exactly this namespace. */
  lemma {:induction false} ResolvedIff(declared: Attributes, own: Attributes, name: string, ns: string)
    ensures Denotes(declared, own, name, ns) <==> ns == Resolved(Registered(map[], declared), name, own)
  {
    OwnDefaultIs(own);
    if OwnDefault(own).Some? {
      if FirstIs(own, "xmlns", ns) { FirstIsUnique(own, "xmlns", ns, OwnDefault(own).value); }
    } else {
      var prefix := NameSplits(name);
      BoundIff(declared, prefix, ns);
      if prefix', local :| HasName(name, prefix', local) && Bound(declared, prefix', ns) {
        OneSplit(name, prefix', local);
      }
    }
  }

  // Requested properties -----------------------------------------------------------------------------------------

  /** An element that the reader does not know. */
  predicate Wants(e: XmlEvent, known: set<string>) { IsElement(e) && LocalName(e.name) !in known }

  /**
   What the document asks for: each element inside a prop element, other than those the reader knows, by its
   namespace and local name, in document order.
   */
  ghost predicate Asks(events: seq<XmlEvent>, known: set<string>, props: seq<PropRequest>)
    decreases |events|
  {
    if events == [] then props == []
    else
      var n, m := |events| - 1, |props| - 1;
      var front, e := events[..n], events[n];
      if Wants(e, known) && Inside(front, "prop") then
        && props != [] && Asks(front, known, props[..m])
        && props[m].localName == LocalName(e.name)
        && Denotes(Declarations(events), e.attributes, e.name, props[m].namespace)
      else Asks(front, known, props)
  }

  lemma {:induction false} AsksUnfolds(front: seq<XmlEvent>, e: XmlEvent, known: set<string>, props: seq<PropRequest>)
    requires Asks(front + [e], known, props) && Wants(e, known) && Inside(front, "prop")
    ensures props != [] && Asks(front, known, props[..|props| - 1])
    ensures var r := props[|props| - 1];
            r.localName == LocalName(e.name) && Denotes(Declarations(front + [e]), e.attributes, e.name, r.namespace)
  {
    assert (front + [e])[..|front|] == front;
  }

  lemma {:induction false} AsksLast(front: seq<XmlEvent>, e: XmlEvent, known: set<string>, props: seq<PropRequest>)
    requires Asks(front + [e], known, props) && Wants(e, known) && Inside(front, "prop")
    ensures props != [] && Asks(front, known, props[..|props| - 1])
    ensures props[|props| - 1] == RequestFor(front + [e], e)
  {
    AsksUnfolds(front, e, known, props);
    ResolvedIff(Declarations(front + [e]), e.attributes, e.name, props[|props| - 1].namespace);
  }

  lemma {:induction false} AsksRest(front: seq<XmlEvent>, e: XmlEvent, known: set<string>, props: seq<PropRequest>)
    requires Asks(front + [e], known, props) && !(Wants(e, known) && Inside(front, "prop"))
    ensures Asks(front, known, props)
  {
    assert (front + [e])[..|front|] == front;
  }

  /** There is one list that a document asks for. */
  lemma {:induction false} AsksOneList(events: seq<XmlEvent>, known: set<string>, props: seq<PropRequest>,
      others: seq<PropRequest>)
    requires Asks(events, known, props) && Asks(events, known, others)
    ensures props == others
    decreases |events|
  {
    if events == [] {
      assert props == others == [];
    } else {
      var front, e := SplitLast(events);
      if Wants(e, known) && Inside(front, "prop") {
        AsksLast(front, e, known, props);
        AsksLast(front, e, known, others);
        AsksOneList(front, known, props[..|props| - 1], others[..|others| - 1]);
        LastEqual(props, others);
      } else {
        AsksRest(front, e, known, props);
        AsksRest(front, e, known, others);
        AsksOneList(front, known, props, others);
      }
    }
  }

  lemma {:induction false} LastEqual<T>(a: seq<T>, b: seq<T>)
    requires a != [] && b != [] && a[..|a| - 1] == b[..|b| - 1] && a[|a| - 1] == b[|b| - 1]
    ensures a == b
  {
    assert a == a[..|a| - 1] + [a[|a| - 1]] && b == b[..|b| - 1] + [b[|b| - 1]];
  }

  lemma {:induction false} SplitLast(events: seq<XmlEvent>) returns (front: seq<XmlEvent>, e: XmlEvent)
    requires events != []
    ensures events == front + [e] && |front| < |events|
  {
    front, e := events[..|events| - 1], events[|events| - 1];
  }

  lemma {:induction false} AsksOneMore(front: seq<XmlEvent>, e: XmlEvent, known: set<string>, props: seq<PropRequest>)
    requires Asks(front, known, props)
    ensures var all := front + [e];
            var wanted := Wants(e, known) && Inside(front, "prop");
            Asks(all, known, if wanted then props + [RequestFor(all, e)] else props)
  {
    var all := front + [e];
    assert all[..|all| - 1] == front;
    if Wants(e, known) && Inside(front, "prop") {
      var more := props + [RequestFor(all, e)];
      assert more[..|more| - 1] == props;
      ResolvedIff(Declarations(all), e.attributes, e.name, RequestFor(all, e).namespace);
    }
  }

  function RequestFor(events: seq<XmlEvent>, e: XmlEvent): PropRequest
    requires IsElement(e)
  {
    PropRequest(Resolved(Registered(map[], Declarations(events)), e.name, e.attributes), LocalName(e.name))
  }

  lemma {:induction false} DeclarationsOneMore(front: seq<XmlEvent>, e: XmlEvent)
    ensures Declarations(front + [e]) == Declarations(front) + if IsElement(e) then e.attributes else []
    ensures Registered(map[], Declarations(front + [e])) ==
            if IsElement(e) then Registered(Registered(map[], Declarations(front)), e.attributes)
            else Registered(map[], Declarations(front))
  {
    assert (front + [e])[..|front|] == front;
    if IsElement(e) {
      RegisteredAppend(map[], Declarations(front), e.attributes);
    } else {
      NothingBefore(Declarations(front));
    }
  }

  // PROPFIND -----------------------------------------------------------------------------------------------------

  /** The reader answers at once. */
  predicate Stops(e: XmlEvent) { e.Malformed? || Opens(e, "allprop") || Opens(e, "propname") }

  predicate NeverStops(events: seq<XmlEvent>) {
    forall k :: 0 <= k < |events| ==> !Stops(events[k])
  }

  /** The state of the reader after events at which it does not stop. */
  ghost predicate PropfindAfter(events: seq<XmlEvent>, st: PropfindState) {
    && st.bindings == Registered(map[], Declarations(events))
    && (st.inProp <==> Inside(events, "prop"))
    && Asks(events, {"prop"}, st.props)
  }

  lemma {:induction false} PropfindOneMore(front: seq<XmlEvent>, st: PropfindState, e: XmlEvent)
    requires PropfindAfter(front, st) && !Stops(e)
    ensures StepPropfind(st, e).Continue? && PropfindAfter(front + [e], StepPropfind(st, e).state)
  {
    DeclarationsOneMore(front, e);
    InsideOneMore(front, e, "prop");
    AsksOneMore(front, e, {"prop"}, st.props);
  }

  lemma {:induction false} PropfindReads(front: seq<XmlEvent>, rest: seq<XmlEvent>) returns (st: PropfindState)
    requires NeverStops(front)
    ensures PropfindAfter(front, st)
    ensures PropfindFrom(NEW_PROPFIND, front + rest) == PropfindFrom(st, rest)
    decreases |front|
  {
    if front == [] {
      st := NEW_PROPFIND;
      NothingBefore(rest);
    } else {
      var n := |front| - 1;
      var e := front[n];
      assert front == front[..n] + [e];
      assert front + rest == front[..n] + ([e] + rest);
      st := PropfindReads(front[..n], [e] + rest);
      PropfindOneMore(front[..n], st, e);
      TailOfCons(e, rest);
      st := StepPropfind(st, e).state;
    }
  }

  lemma {:induction false} PropfindStops(front: seq<XmlEvent>, rest: seq<XmlEvent>)
    requires NeverStops(front) && rest != [] && Stops(rest[0])
    ensures PropfindFrom(NEW_PROPFIND, front + rest) == if Opens(rest[0], "propname") then PropName else AllProp
  {
    var st := PropfindReads(front, rest);
  }

  /**
   For every sequence of events. The first malformed event, allprop or propname element decides; without one,
   the body asks for the properties it names, and for all if it names none.
   */
  lemma {:induction false} PropfindIs(events: seq<XmlEvent>)
    ensures forall k :: 0 <= k < |events| && Stops(events[k]) && NeverStops(events[..k]) ==>
                          PropfindFrom(NEW_PROPFIND, events) ==
                          if Opens(events[k], "propname") then PropName else AllProp
    ensures NeverStops(events) ==>
              exists props :: Asks(events, {"prop"}, props)
                              && PropfindFrom(NEW_PROPFIND, events) == if props == [] then AllProp else Props(props)
  {
    forall k | 0 <= k < |events| && Stops(events[k]) && NeverStops(events[..k])
      ensures PropfindFrom(NEW_PROPFIND, events) == if Opens(events[k], "propname") then PropName else AllProp
    {
      assert events == events[..k] + events[k..] && events[k..][0] == events[k];
      PropfindStops(events[..k], events[k..]);
    }
    if NeverStops(events) {
      var st := PropfindReads(events, []);
      NothingBefore(events);
      assert Asks(events, {"prop"}, st.props);
    }
  }

  /** In particular, the namespace of each child of a flat prop element is the one that the two tags around it give. */
  lemma {:induction false} ChildNamespaces(root: Attributes, attributes: Attributes, children: seq<XmlEvent>, i: nat)
    requires forall j :: 0 <= j < |children| ==> IsElement(children[j])
    requires i < |children|
    ensures var requests := RequestsOf(Registered(Registered(map[], root), attributes), children);
            var e := children[i];
            && |requests| == |children| && IsElement(e)
            && requests[i].localName == LocalName(e.name)
            && Denotes(root + attributes, e.attributes, e.name, requests[i].namespace)
  {
    RegisteredAppend(map[], root, attributes);
    RequestsAreChildren(Registered(Registered(map[], root), attributes), children);
    var e := children[i];
    ResolvedIff(root + attributes, e.attributes, e.name,
                Resolved(Registered(map[], root + attributes), e.name, e.attributes));
  }

  // REPORT -------------------------------------------------------------------------------------------------------

  /** An element that says which report the body is. */
  predicate NamesReport(e: XmlEvent) {
    Opens(e, "calendar-multiget") || Opens(e, "calendar-query") || Opens(e, "sync-collection")
  }

  /** The last such element. */
  ghost predicate LastNaming(events: seq<XmlEvent>, k: nat)
    requires k < |events|
  {
    NamesReport(events[k]) && forall j :: k < j < |events| ==> !NamesReport(events[j])
  }

  /** The elements that a report reader knows; inside a prop element they name no property. */
  const REPORT_NAMES: set<string> :=
    {"calendar-multiget", "calendar-query", "sync-collection", "prop", "filter", "comp-filter", "href", "sync-token",
     "time-range"}

  /** The texts inside href elements. */
  ghost function HrefTexts(events: seq<XmlEvent>): seq<string> {
    if events == [] then []
    else
      var n := |events| - 1;
      HrefTexts(events[..n]) + if events[n].Text? && Inside(events[..n], "href") then [events[n].text] else []
  }

  /** What kind of report the body has named so far. */
  ghost predicate KindNamed(events: seq<XmlEvent>, kind: Option<ReportKind>) {
    match kind
    case None => forall k :: 0 <= k < |events| ==> !NamesReport(events[k])
    case Some(which) => ReportNamed(events, KindName(which))
  }

  function KindName(kind: ReportKind): string {
    match kind case Multiget => "calendar-multiget" case Query => "calendar-query" case Sync => "sync-collection"
  }

  /** The last element that names a report has this name. */
  ghost predicate ReportNamed(events: seq<XmlEvent>, local: string) {
    exists k :: 0 <= k < |events| && LastNaming(events, k) && Opens(events[k], local)
  }

  lemma {:induction false} NamedOnce(events: seq<XmlEvent>, local: string, other: string)
    requires ReportNamed(events, local) && ReportNamed(events, other)
    ensures local == other
  {
    var j :| 0 <= j < |events| && LastNaming(events, j) && Opens(events[j], local);
    var k :| 0 <= k < |events| && LastNaming(events, k) && Opens(events[k], other);
    assert j == k;
  }

  ghost predicate ReportAfter(events: seq<XmlEvent>, st: ReportState) {
    && st.bindings == Registered(map[], Declarations(events))
    && (st.inProp <==> Inside(events, "prop")) && (st.inHref <==> Inside(events, "href"))
    && Asks(events, REPORT_NAMES, st.props) && st.hrefs == HrefTexts(events) && KindNamed(events, st.kind)
  }

  lemma {:induction false} UnknownTags(name: string)
    ensures TagOf(name) == OtherTag <==> LocalName(name) !in REPORT_NAMES
  {
  }

  lemma {:induction false} FlagTags(name: string)
    ensures TagOf(name) == PropTag <==> LocalName(name) == "prop"
    ensures TagOf(name) == HrefTag <==> LocalName(name) == "href"
  {
  }

  lemma {:induction false} ReportTags(name: string)
    ensures TagOf(name) == MultigetTag <==> LocalName(name) == "calendar-multiget"
    ensures TagOf(name) == QueryTag <==> LocalName(name) == "calendar-query"
    ensures TagOf(name) == SyncTag <==> LocalName(name) == "sync-collection"
  {
  }

  /** The report that the element names. */
  function KindOf(e: XmlEvent): Option<ReportKind> {
    if Opens(e, "calendar-multiget") then Some(Multiget)
    else if Opens(e, "calendar-query") then Some(Query)
    else if Opens(e, "sync-collection") then Some(Sync)
    else None
  }

  lemma {:induction false} KindOfIs(e: XmlEvent)
    ensures NamesReport(e) <==> KindOf(e).Some?
    ensures KindOf(e).Some? ==> Opens(e, KindName(KindOf(e).value))
  {
  }

  lemma {:induction false} KindOneMore(front: seq<XmlEvent>, kind: Option<ReportKind>, e: XmlEvent)
    requires KindNamed(front, kind)
    ensures KindNamed(front + [e], if KindOf(e).Some? then KindOf(e) else kind)
  {
    var all, n := front + [e], |front|;
    KindOfIs(e);
    if KindOf(e).Some? {
      assert all[n] == e && LastNaming(all, n);
    } else if kind.Some? {
      NamedOneMore(front, e, KindName(kind.value));
    } else {
      assert forall j :: 0 <= j < n ==> all[j] == front[j];
    }
  }

  lemma {:induction false} NamedOneMore(front: seq<XmlEvent>, e: XmlEvent, local: string)
    requires ReportNamed(front, local) && !NamesReport(e)
    ensures ReportNamed(front + [e], local)
  {
    var all, n := front + [e], |front|;
    var k :| 0 <= k < n && LastNaming(front, k) && Opens(front[k], local);
    assert all[k] == front[k] && all[n] == e;
    forall j | k < j < |all|
      ensures !NamesReport(all[j])
    {
      if j < n { assert all[j] == front[j]; }
    }
    assert LastNaming(all, k) && Opens(all[k], local);
  }

  lemma {:induction false} HrefTextsOneMore(front: seq<XmlEvent>, e: XmlEvent)
    ensures HrefTexts(front + [e]) == HrefTexts(front) + if e.Text? && Inside(front, "href") then [e.text] else []
  {
    assert (front + [e])[..|front|] == front;
  }

  /** The parts of the reader's state that one event changes, by local names. */
  lemma {:induction false} EventOnState(st: ReportState, e: XmlEvent)
    ensures var after := AfterEvent(st, e);
            && (after.inProp <==> Opens(e, "prop") || (st.inProp && !Closes(e, "prop")))
            && (after.inHref <==> Opens(e, "href") || (st.inHref && !Closes(e, "href")))
            && after.hrefs == st.hrefs + (if e.Text? && st.inHref then [e.text] else [])
            && after.bindings == (if IsElement(e) then Registered(st.bindings, e.attributes) else st.bindings)
  {
    NothingBefore(st.hrefs);
    if IsElement(e) { ElementOnFlags(st, e.name, e.attributes); }
    if e.End? { EndOnFlags(st, e.name); }
  }

  lemma {:induction false} ElementOnFlags(st: ReportState, name: string, attributes: Attributes)
    ensures var after := AfterReportElement(st, name, attributes);
            && (after.inProp <==> LocalName(name) == "prop" || st.inProp)
            && (after.inHref <==> LocalName(name) == "href" || st.inHref)
            && after.hrefs == st.hrefs && after.bindings == Registered(st.bindings, attributes)
  {
    FlagTags(name);
  }

  lemma {:induction false} EndOnFlags(st: ReportState, name: string)
    ensures var after := AfterReportEnd(st, name);
            && (after.inProp <==> st.inProp && LocalName(name) != "prop")
            && (after.inHref <==> st.inHref && LocalName(name) != "href")
            && after.hrefs == st.hrefs && after.bindings == st.bindings
  {
    FlagTags(name);
  }

  lemma {:induction false} ElementOnProps(st: ReportState, name: string, attributes: Attributes)
    ensures var after := AfterReportElement(st, name, attributes);
            after.props == if LocalName(name) !in REPORT_NAMES && st.inProp then
                             st.props + [PropRequest(Resolved(after.bindings, name, attributes), LocalName(name))]
                           else st.props
  {
    UnknownTags(name);
  }

  lemma {:induction false} EventOnProps(st: ReportState, e: XmlEvent)
    ensures var after := AfterEvent(st, e);
            after.props == if Wants(e, REPORT_NAMES) && st.inProp then
                             st.props + [PropRequest(Resolved(after.bindings, e.name, e.attributes), LocalName(e.name))]
                           else st.props
  {
    if IsElement(e) { ElementOnProps(st, e.name, e.attributes); }
  }

  lemma {:induction false} EventOnKind(st: ReportState, e: XmlEvent)
    ensures AfterEvent(st, e).kind == if KindOf(e).Some? then KindOf(e) else st.kind
  {
    if IsElement(e) {
      ReportTags(e.name);
      ElementOnKind(st, e.name, e.attributes);
    }
  }

  lemma {:induction false} ElementOnKind(st: ReportState, name: string, attributes: Attributes)
    ensures AfterReportElement(st, name, attributes).kind ==
            match TagOf(name) case MultigetTag => Some(Multiget) case QueryTag => Some(Query) case SyncTag => Some(Sync)
                              case _ => st.kind
  {
  }

  lemma {:induction false} ReportOneMore(front: seq<XmlEvent>, st: ReportState, e: XmlEvent)
    requires ReportAfter(front, st)
    ensures ReportAfter(front + [e], AfterEvent(st, e))
  {
    DeclarationsOneMore(front, e);
    InsideOneMore(front, e, "prop");
    InsideOneMore(front, e, "href");
    AsksOneMore(front, e, REPORT_NAMES, st.props);
    HrefTextsOneMore(front, e);
    KindOneMore(front, st.kind, e);
    EventOnState(st, e);
    EventOnProps(st, e);
    EventOnKind(st, e);
  }

  lemma {:induction false} ReportReads(events: seq<XmlEvent>)
    ensures ReportAfter(events, EventsAfter(NEW_REPORT, events))
    decreases |events|
  {
    if events != [] {
      var front, e := SplitLast(events);
      ReportReads(front);
      EventsAfterAppend(NEW_REPORT, front, [e]);
      assert [e][1..] == [];
      ReportOneMore(front, EventsAfter(NEW_REPORT, front), e);
    }
  }

  lemma {:induction false} MalformedIsNone(st: ReportState, events: seq<XmlEvent>)
    ensures ReportFrom(st, events) ==
            if exists k :: 0 <= k < |events| && events[k].Malformed? then None else Report(EventsAfter(st, events))
    decreases |events|
  {
    if events != [] {
      assert forall k :: 0 < k < |events| ==> events[k] == events[1..][k - 1];
      MalformedIsNone(AfterEvent(st, events[0]), events[1..]);
    }
  }

  /**
   For every sequence of events. The body is read as a report exactly when it is well-formed and names one; the
   last element that names one decides which. It asks for the properties that its prop elements name, and a
   multiget for the texts of its href elements, in document order.
   */
  lemma {:induction false} ReportIs(events: seq<XmlEvent>)
    ensures var r := ReportFrom(NEW_REPORT, events);
            && (r.Some? <==>
                && (forall k :: 0 <= k < |events| ==> !events[k].Malformed?)
                && exists k :: 0 <= k < |events| && NamesReport(events[k]))
            && (r.Some? ==>
                  && (r.value.CalendarMultiget? <==> ReportNamed(events, "calendar-multiget"))
                  && (r.value.CalendarQuery? <==> ReportNamed(events, "calendar-query"))
                  && (r.value.SyncCollection? <==> ReportNamed(events, "sync-collection"))
                  && Asks(events, REPORT_NAMES, r.value.props)
                  && (r.value.CalendarMultiget? ==> r.value.hrefs == HrefTexts(events)))
  {
    MalformedIsNone(NEW_REPORT, events);
    ReportReads(events);
    var kind := EventsAfter(NEW_REPORT, events).kind;
    SomeKindIs(events, kind);
    KindIs(events, kind, Multiget);
    KindIs(events, kind, Query);
    KindIs(events, kind, Sync);
  }

  lemma {:induction false} KindIs(events: seq<XmlEvent>, kind: Option<ReportKind>, which: ReportKind)
    requires KindNamed(events, kind)
    ensures kind == Some(which) <==> ReportNamed(events, KindName(which))
  {
    if ReportNamed(events, KindName(which)) && kind.Some? {
      NamedOnce(events, KindName(which), KindName(kind.value));
      KindNamesDiffer(which, kind.value);
    }
  }

  lemma {:induction false} KindNamesDiffer(a: ReportKind, b: ReportKind)
    ensures KindName(a) == KindName(b) ==> a == b
  {
    assert |KindName(Multiget)| == 17 && |KindName(Query)| == 14 && |KindName(Sync)| == 15;
  }

  lemma {:induction false} SomeKindIs(events: seq<XmlEvent>, kind: Option<ReportKind>)
    requires KindNamed(events, kind)
    ensures kind.Some? <==> exists k :: 0 <= k < |events| && NamesReport(events[k])
  {
  }
}
