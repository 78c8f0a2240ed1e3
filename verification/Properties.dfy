/** Which properties answer a PROPFIND: the requested ones that exist, and the names of the rest. */
module Properties {
  import opened Wrappers
  import opened Namespaces
  import opened Multistatus
  import opened ClientReader
  import opened Ordering
  import opened Schema

  datatype PropRequest = PropRequest(namespace: string, localName: string)

  datatype PropfindRequest = AllProp | PropName | Props(requested: seq<PropRequest>)

  predicate Matches(r: PropRequest, p: PropValue) {
    r.localName == p.name && r.namespace == p.namespace
  }

  predicate Offered(r: PropRequest, ps: seq<PropValue>) {
    exists i :: 0 <= i < |ps| && Matches(r, ps[i])
  }

  predicate Wanted(p: PropValue, requested: seq<PropRequest>) {
    exists i :: 0 <= i < |requested| && Matches(requested[i], p)
  }

  function WantedBy(requested: seq<PropRequest>): PropValue -> bool {
    (p: PropValue) => Wanted(p, requested)
  }

  function MissingFrom(available: seq<PropValue>): PropRequest -> bool {
    (r: PropRequest) => !Offered(r, available)
  }

  function PrefixedNames(requests: seq<PropRequest>): seq<string> {
    if requests == [] then []
    else [PrefixName(requests[0].namespace, requests[0].localName)] + PrefixedNames(requests[1..])
  }

  function Emptied(ps: seq<PropValue>): seq<PropValue> {
    if ps == [] then [] else [ps[0].(value := Empty)] + Emptied(ps[1..])
  }

  lemma {:induction false} OneMoreRequest(requests: seq<PropRequest>, r: PropRequest, available: seq<PropValue>)
    ensures PrefixedNames(Filter(requests + [r], MissingFrom(available)))
         == PrefixedNames(Filter(requests, MissingFrom(available)))
            + if Offered(r, available) then [] else [PrefixName(r.namespace, r.localName)]
  {
    if requests == [] {
      assert requests + [r] == [r] && [r][1..] == [];
    } else {
      assert (requests + [r])[1..] == requests[1..] + [r];
      OneMoreRequest(requests[1..], r, available);
    }
  }

  lemma {:induction false} FoundIffOffered(r: PropRequest, requested: seq<PropRequest>, available: seq<PropValue>)
    requires r in requested
    ensures Offered(r, Filter(available, WantedBy(requested))) <==> Offered(r, available)
  {
    var found := Filter(available, WantedBy(requested));
    if Offered(r, found) {
      var i :| 0 <= i < |found| && Matches(r, found[i]);
      FilterMember(available, WantedBy(requested), found[i]);
    }
    if Offered(r, available) {
      var i :| 0 <= i < |available| && Matches(r, available[i]);
      assert Wanted(available[i], requested) by {
        var j :| 0 <= j < |requested| && requested[j] == r;
        assert Matches(requested[j], available[i]);
      }
      FilterMember(available, WantedBy(requested), available[i]);
      var j :| 0 <= j < |found| && found[j] == available[i];
      assert Matches(r, found[j]);
    }
  }

  /** Name and namespace both count. */
  ghost predicate AskedFor(requested: seq<PropRequest>, p: PropValue) {
    exists r :: r in requested && r.localName == p.name && r.namespace == p.namespace
  }

  ghost predicate Unavailable(available: seq<PropValue>, r: PropRequest) {
    forall p :: p in available ==> p.name != r.localName || p.namespace != r.namespace
  }

  /** What a client that names properties gets: those on offer, and the prefixed names of the others. */
  ghost predicate SplitByRequest(requested: seq<PropRequest>, available: seq<PropValue>, found: seq<PropValue>,
      notFound: seq<string>) {
    && (forall p :: p in found <==> p in available && AskedFor(requested, p))
    && (forall name :: name in notFound <==>
                       exists r :: r in requested && Unavailable(available, r)
                                   && name == NsPrefix(r.namespace) + ":" + r.localName)
  }

  lemma {:induction false} EmptiedAt(ps: seq<PropValue>)
    ensures |Emptied(ps)| == |ps|
    ensures forall i :: 0 <= i < |ps| ==> Emptied(ps)[i] == PropValue(ps[i].name, ps[i].namespace, Empty)
  {
    if ps != [] { EmptiedAt(ps[1..]); }
  }

  lemma {:induction false} FilteredSplit(requested: seq<PropRequest>, available: seq<PropValue>)
    ensures SplitByRequest(requested, available, Filter(available, WantedBy(requested)),
                           PrefixedNames(Filter(requested, MissingFrom(available))))
  {
    forall p
      ensures p in Filter(available, WantedBy(requested)) <==> p in available && AskedFor(requested, p)
    {
      FilterMember(available, WantedBy(requested), p);
      if r :| r in requested && r.localName == p.name && r.namespace == p.namespace {
        var i :| 0 <= i < |requested| && requested[i] == r;
        assert Matches(requested[i], p);
      }
    }
    var missing := Filter(requested, MissingFrom(available));
    forall r
      ensures r in missing <==> r in requested && Unavailable(available, r)
    {
      FilterMember(requested, MissingFrom(available), r);
      OfferedIff(r, available);
    }
    forall name
      ensures name in PrefixedNames(missing) <==>
              exists r :: r in requested && Unavailable(available, r)
                          && name == NsPrefix(r.namespace) + ":" + r.localName
    {
      PrefixedMember(missing, name);
      if r :| r in requested && Unavailable(available, r) && name == NsPrefix(r.namespace) + ":" + r.localName {
        assert r in missing && NameOf(r) == name;
      }
    }
  }

  lemma {:induction false} OfferedIff(r: PropRequest, available: seq<PropValue>)
    ensures Offered(r, available) <==> !Unavailable(available, r)
  {
    if p :| p in available && p.name == r.localName && p.namespace == r.namespace {
      var i :| 0 <= i < |available| && available[i] == p;
      assert Matches(r, available[i]);
    }
  }

  /** Split the available properties by the request: those found, and the prefixed names of those missing. */
  method FilterProps(request: PropfindRequest, available: seq<PropValue>)
    returns (found: seq<PropValue>, notFound: seq<string>)
    ensures request.AllProp? ==> found == available && notFound == []
    ensures request.PropName? ==> found == Emptied(available) && notFound == []
    ensures request.PropName? ==>
              && |found| == |available|
              && forall i :: 0 <= i < |found| ==>
                               found[i] == PropValue(available[i].name, available[i].namespace, Empty)
    ensures request.Props? ==>
              && found == Filter(available, WantedBy(request.requested))
              && notFound == PrefixedNames(Filter(request.requested, MissingFrom(available)))
    ensures request.Props? ==> SplitByRequest(request.requested, available, found, notFound)
  {
    EmptiedAt(available);
    if request.Props? { FilteredSplit(request.requested, available); }
    match request
    case AllProp => return available, [];
    case PropName =>
      found := [];
      for i := 0 to |available|
        invariant found + Emptied(available[i..]) == Emptied(available)
      {
        assert available[i..][1..] == available[i + 1..];
        found := found + [available[i].(value := Empty)];
      }
      assert available[|available|..] == [];
      notFound := [];
    case Props(requested) =>
      found, notFound := [], [];
      for i := 0 to |available|
        invariant found + Filter(available[i..], WantedBy(requested)) == Filter(available, WantedBy(requested))
      {
        assert available[i..][1..] == available[i + 1..];
        if Wanted(available[i], requested) { found := found + [available[i]]; }
      }
      assert available[|available|..] == [];
      assert found == Filter(available, WantedBy(requested));
      for i := 0 to |requested|
        invariant notFound == PrefixedNames(Filter(requested[..i], MissingFrom(available)))
      {
        FoundIffOffered(requested[i], requested, available);
        OneMoreRequest(requested[..i], requested[i], available);
        assert requested[..i + 1] == requested[..i] + [requested[i]];
        var isFound := Offered(requested[i], found);
        if !isFound {
          notFound := notFound + [NsPrefix(requested[i].namespace) + ":" + requested[i].localName];
        }
      }
      assert requested[..|requested|] == requested;
  }

  /** `part` keeps some elements of `whole` in their order. */
  ghost predicate Sublist<T>(part: seq<T>, whole: seq<T>) {
    part == []
    || (whole != [] && (Sublist(part, whole[1..]) || (part[0] == whole[0] && Sublist(part[1..], whole[1..]))))
  }

  lemma {:induction false} FilterIsSublist<T>(rows: seq<T>, keep: T -> bool)
    ensures Sublist(Filter(rows, keep), rows)
  {
    if rows != [] {
      FilterIsSublist(rows[1..], keep);
      if keep(rows[0]) { assert Filter(rows, keep)[1..] == Filter(rows[1..], keep); }
    }
  }

  lemma {:induction false} PrefixedMember(requests: seq<PropRequest>, name: string)
    ensures name in PrefixedNames(requests) <==> exists r :: r in requests && NameOf(r) == name
  {
    if requests != [] {
      var rest := requests[1..];
      PrefixedMember(rest, name);
      assert PrefixedNames(requests) == [NameOf(requests[0])] + PrefixedNames(rest);
      if r :| r in rest && NameOf(r) == name { assert r in requests; }
      if NameOf(requests[0]) == name { assert requests[0] in requests; }
      if r :| r in requests && NameOf(r) == name { assert r == requests[0] || r in rest; }
    }
  }

  /**
   Every request is served where it should be: a property that is offered is found, any other request has
   its prefixed name in the missing list. The found list holds exactly the offered properties that were
   asked for, in the order of the offer; the missing list names requests in their order.
   */
  lemma {:induction false} PropertyPartition(requested: seq<PropRequest>, available: seq<PropValue>, r: PropRequest)
    requires r in requested
    ensures var found := Filter(available, WantedBy(requested));
            var missing := Filter(requested, MissingFrom(available));
            && (Offered(r, found) <==> Offered(r, available))
            && (!Offered(r, available) ==> NameOf(r) in PrefixedNames(missing))
            && (forall p :: p in found <==> p in available && Wanted(p, requested))
            && (forall q :: q in missing <==> q in requested && !Offered(q, available))
            && Sublist(found, available) && Sublist(missing, requested)
  {
    FoundIffOffered(r, requested, available);
    PrefixedMember(Filter(requested, MissingFrom(available)), NameOf(r));
    FilterIsSublist(available, WantedBy(requested));
    FilterIsSublist(requested, MissingFrom(available));
    forall p
      ensures p in Filter(available, WantedBy(requested)) <==> p in available && Wanted(p, requested)
    {
      FilterMember(available, WantedBy(requested), p);
    }
    forall q
      ensures q in Filter(requested, MissingFrom(available)) <==> q in requested && !Offered(q, available)
    {
      FilterMember(requested, MissingFrom(available), q);
    }
    if !Offered(r, available) {
      assert r in Filter(requested, MissingFrom(available)) && NameOf(r) == NameOf(r);
    }
  }

  // What the client reads ------------------------------------------------------------------------------------

  function NameOf(r: PropRequest): string { PrefixName(r.namespace, r.localName) }

  /** One of the properties a client has read has this prefixed name. */
  ghost predicate Named(name: string, seen: seq<SeenProp>) {
    exists s :: s in seen && s.name == name
  }

  /** A missing request whose prefix and local name are those of a found property. */
  ghost predicate Clash(requested: seq<PropRequest>, available: seq<PropValue>) {
    exists r, p :: r in requested && !Offered(r, available) && p in available && Wanted(p, requested) && Alike(r, p)
  }

  predicate Alike(r: PropRequest, p: PropValue) {
    NsPrefix(r.namespace) == NsPrefix(p.namespace) && r.localName == p.name
  }

  predicate KnownNamespace(ns: string) { ns in [DAV_NS, CALDAV_NS, APPLE_NS, CS_NS] }

  /**
   The root of every document declares the prefix of each known namespace for it, and for nothing else; the
   prefix of any other namespace stands for `DAV:`.
   */
  lemma {:induction false} PrefixesAreDeclared(ns: string)
    ensures var meant := if KnownNamespace(ns) then ns else "DAV:";
            && ("xmlns:" + NsPrefix(ns), meant) in PREFIXES
            && forall other :: ("xmlns:" + NsPrefix(ns), other) in PREFIXES ==> other == meant
  {
    assert "xmlns:" + "D" == "xmlns:D" && "xmlns:" + "C" == "xmlns:C" && "xmlns:" + "A" == "xmlns:A";
    assert "xmlns:" + "CS" == "xmlns:CS";
    assert PREFIXES[0] in PREFIXES && PREFIXES[1] in PREFIXES && PREFIXES[2] in PREFIXES && PREFIXES[3] in PREFIXES;
  }

  lemma {:induction false} PrefixedAlike(r: PropRequest, p: PropValue)
    ensures NameOf(r) == PrefixName(p.namespace, p.name) <==> Alike(r, p)
  {
    var a, b := NsPrefix(r.namespace), NsPrefix(p.namespace);
    var name, other := NameOf(r), PrefixName(p.namespace, p.name);
    assert name[..|a|] == a && name[|a|] == ':' && name[|a| + 1..] == r.localName;
    assert other[..|b|] == b && other[|b|] == ':' && other[|b| + 1..] == p.name;
  }

  lemma {:induction false} NamedFound(name: string, found: seq<PropValue>)
    ensures Named(name, SeenPropsOf(found)) <==> exists p :: p in found && PrefixName(p.namespace, p.name) == name
  {
    if found != [] {
      NamedFound(name, found[1..]);
      assert SeenPropsOf(found) == [SeenPropOf(found[0])] + SeenPropsOf(found[1..]);
      assert found == [found[0]] + found[1..];
    }
  }

  lemma {:induction false} NamedMissing(name: string, names: seq<string>)
    ensures Named(name, SeenNames(names)) <==> name in names
  {
    if names != [] {
      NamedMissing(name, names[1..]);
      assert SeenNames(names) == [SeenProp(names[0], None)] + SeenNames(names[1..]);
    }
  }

  /** The two sides of an answer, as a client reads them. */
  ghost predicate OnOneSide(requested: seq<PropRequest>, available: seq<PropValue>, r: PropRequest) {
    Named(NameOf(r), SeenPropsOf(Filter(available, WantedBy(requested))))
    <==> !Named(NameOf(r), SeenNames(PrefixedNames(Filter(requested, MissingFrom(available)))))
  }

  ghost predicate EachOnOneSide(requested: seq<PropRequest>, available: seq<PropValue>) {
    forall i :: 0 <= i < |requested| ==> OnOneSide(requested, available, requested[i])
  }

  lemma {:induction false} SidesOf(requested: seq<PropRequest>, available: seq<PropValue>, r: PropRequest)
    ensures Named(NameOf(r), SeenPropsOf(Filter(available, WantedBy(requested)))) <==>
            exists p :: p in available && Wanted(p, requested) && Alike(r, p)
    ensures Named(NameOf(r), SeenNames(PrefixedNames(Filter(requested, MissingFrom(available))))) <==>
            exists q :: q in requested && !Offered(q, available) && NameOf(q) == NameOf(r)
  {
    var found, missing := Filter(available, WantedBy(requested)), Filter(requested, MissingFrom(available));
    NamedFound(NameOf(r), found);
    NamedMissing(NameOf(r), PrefixedNames(missing));
    PrefixedMember(missing, NameOf(r));
    forall p
      ensures p in found <==> p in available && Wanted(p, requested)
      ensures NameOf(r) == PrefixName(p.namespace, p.name) <==> Alike(r, p)
    {
      FilterMember(available, WantedBy(requested), p);
      PrefixedAlike(r, p);
    }
    forall q
      ensures q in missing <==> q in requested && !Offered(q, available)
    {
      FilterMember(requested, MissingFrom(available), q);
    }
  }

  lemma {:induction false} OfferedIsNamed(requested: seq<PropRequest>, available: seq<PropValue>, r: PropRequest)
    requires r in requested && Offered(r, available)
    ensures exists p :: p in available && Wanted(p, requested) && Alike(r, p)
  {
    var i :| 0 <= i < |available| && Matches(r, available[i]);
    var j :| 0 <= j < |requested| && requested[j] == r;
    assert Matches(requested[j], available[i]);
    var p := available[i];
    assert p in available && Wanted(p, requested) && Alike(r, p);
  }

  /**
   A client reads the name of each request on exactly one side, for all requests, exactly when no missing
   request looks like a found property once its namespace has become a prefix.
   */
  lemma {:induction false} AnsweredOnceIff(requested: seq<PropRequest>, available: seq<PropValue>)
    ensures EachOnOneSide(requested, available) <==> !Clash(requested, available)
  {
    if Clash(requested, available) {
      var r, p :| r in requested && !Offered(r, available) && p in available && Wanted(p, requested) && Alike(r, p);
      SidesOf(requested, available, r);
      var i :| 0 <= i < |requested| && requested[i] == r;
      assert !OnOneSide(requested, available, requested[i]);
    } else {
      forall i | 0 <= i < |requested|
        ensures OnOneSide(requested, available, requested[i])
      {
        WithoutClash(requested, available, requested[i]);
      }
    }
  }

  lemma {:induction false} WithoutClash(requested: seq<PropRequest>, available: seq<PropValue>, r: PropRequest)
    requires r in requested && !Clash(requested, available)
    ensures OnOneSide(requested, available, r)
  {
    SidesOf(requested, available, r);
    if Offered(r, available) {
      OfferedIsNamed(requested, available, r);
      var p :| p in available && Wanted(p, requested) && Alike(r, p);
      PrefixedAlike(r, p);
      forall q | q in requested && !Offered(q, available)
        ensures NameOf(q) != NameOf(r)
      {
        PrefixedAlike(q, p);
      }
    }
  }

  /** Requests in the four namespaces of the server never clash. */
  lemma {:induction false} KnownNamespacesNeverClash(requested: seq<PropRequest>, available: seq<PropValue>)
    requires forall r :: r in requested ==> KnownNamespace(r.namespace)
    ensures !Clash(requested, available)
  {
  }

  /** A name on both sides: an unknown namespace borrows the prefix of a known one. */
  lemma {:induction false} SameNameTwice(text: string) returns (requested: seq<PropRequest>, available: seq<PropValue>)
    ensures requested == [PropRequest(DAV_NS, "getetag"), PropRequest("urn:other", "getetag")]
    ensures available == [PropValue("getetag", DAV_NS, Text(text))]
    ensures Clash(requested, available)
    ensures Named("D:getetag", SeenPropsOf(Filter(available, WantedBy(requested))))
    ensures Named("D:getetag", SeenNames(PrefixedNames(Filter(requested, MissingFrom(available)))))
  {
    requested := [PropRequest(DAV_NS, "getetag"), PropRequest("urn:other", "getetag")];
    available := [PropValue("getetag", DAV_NS, Text(text))];
    var r, p := requested[1], available[0];
    assert Matches(requested[0], p) && Wanted(p, requested) && !Offered(r, available) && Alike(r, p);
    assert NameOf(r) == "D:getetag";
    SidesOf(requested, available, r);
  }

  // Properties of a calendar object -------------------------------------------------------------------

  const CONTENT_TYPE := "text/calendar; charset=utf-8"

  /** The etag and content type of an object, and its text when asked for. */
  function ObjectProps(o: CalendarObject, includeData: bool): seq<PropValue> {
    [PropValue("getetag", DAV_NS, Text(o.etag)), PropValue("getcontenttype", DAV_NS, Text(CONTENT_TYPE))]
    + if includeData then [PropValue("calendar-data", CALDAV_NS, Text(o.icalData))] else []
  }

  /** A sync token as a URI: one without a scheme is wrapped. */
  function EnsureSyncTokenUri(token: string): string {
    if ':' in token then token else "data:," + token
  }

  /** It always has a scheme, is left alone when it had one, and is wrapped in `data:,` otherwise. */
  lemma {:induction false} TokenUriIs(token: string)
    ensures ':' in EnsureSyncTokenUri(token)
    ensures EnsureSyncTokenUri(token) == token <==> ':' in token
    ensures EnsureSyncTokenUri(token) != token ==> EnsureSyncTokenUri(token) == "data:," + token
  {
    assert ("data:," + token)[4] == ':';
  }
}
