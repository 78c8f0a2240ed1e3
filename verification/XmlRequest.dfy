/**
 Reading PROPFIND and REPORT bodies from a stream of XML events.

 The readers are flag-driven loops. What they mean is stated on request shapes: the property list does
 not depend on the prefixes a client chose, flat properties come out in document order, and a report's
 hrefs and token are the texts it sent, with one exception for a self-closing token element.
 */
module XmlRequest {
  import opened Wrappers
  import opened Namespaces
  import opened Properties
  import opened Sequences
  import opened Strings

  type Attributes = seq<(string, string)>

  datatype XmlEvent =
    | Start(name: string, attributes: Attributes)
    | EmptyElement(name: string, attributes: Attributes)
    | End(name: string)
    | Text(text: string)
    | Other
    | Malformed

  predicate IsElement(e: XmlEvent) { e.Start? || e.EmptyElement? }

  /** The name behind the first colon. */
  function LocalName(name: string): string {
    match IndexOf(name, ':') case Some(i) => name[i + 1..] case None => name
  }

  // Namespaces --------------------------------------------------------------------------------------------------

  const XMLNS := "xmlns"
  const XMLNS_PREFIX := "xmlns:"

  /** The prefix an attribute declares, empty for the default namespace. */
  function DeclaredPrefix(key: string): Option<string> {
    if key == XMLNS then Some("")
    else if StartsWith(key, XMLNS_PREFIX) then Some(key[|XMLNS_PREFIX|..])
    else None
  }

  function Bind(bindings: map<string, string>, key: string, value: string): map<string, string> {
    match DeclaredPrefix(key) case Some(p) => bindings[p := value] case None => bindings
  }

  function Registered(bindings: map<string, string>, attributes: Attributes): map<string, string>
    decreases |attributes|
  {
    if attributes == [] then bindings
    else Registered(Bind(bindings, attributes[0].0, attributes[0].1), attributes[1..])
  }

  predicate DeclaresAt(attributes: Attributes, i: nat, p: string)
    requires i < |attributes|
  {
    DeclaredPrefix(attributes[i].0) == Some(p)
  }

  /** The last declaration of a prefix gives its binding; a prefix that is not declared keeps the one it had. */
  ghost predicate LastDeclaration(before: map<string, string>, attributes: Attributes, after: map<string, string>,
      p: string) {
    || (p in after && exists i :: 0 <= i < |attributes| && DeclaresAt(attributes, i, p) && after[p] == attributes[i].1
                                  && forall j :: i < j < |attributes| ==> !DeclaresAt(attributes, j, p))
    || ((forall i :: 0 <= i < |attributes| ==> !DeclaresAt(attributes, i, p))
        && (p in after <==> p in before) && (p in before ==> after[p] == before[p]))
  }

  lemma {:induction false} LastDeclarationWins(before: map<string, string>, attributes: Attributes, p: string)
    ensures LastDeclaration(before, attributes, Registered(before, attributes), p)
    decreases |attributes|
  {
    if attributes != [] {
      var rest, after := attributes[1..], Registered(before, attributes);
      var next := Bind(before, attributes[0].0, attributes[0].1);
      LastDeclarationWins(next, rest, p);
      assert forall i :: 0 <= i < |rest| ==> DeclaresAt(rest, i, p) == DeclaresAt(attributes, i + 1, p);
      if i :| 0 <= i < |rest| && DeclaresAt(rest, i, p) && after[p] == rest[i].1
              && forall j :: i < j < |rest| ==> !DeclaresAt(rest, j, p) {
        assert DeclaresAt(attributes, i + 1, p) && after[p] == attributes[i + 1].1;
        forall j | i + 1 < j < |attributes|
          ensures !DeclaresAt(attributes, j, p)
        {
          assert !DeclaresAt(rest, j - 1, p);
        }
      } else {
        forall j | 0 < j < |attributes|
          ensures !DeclaresAt(attributes, j, p)
        {
          assert !DeclaresAt(rest, j - 1, p);
        }
      }
    }
  }

  function OwnDefault(attributes: Attributes): Option<string> {
    if attributes == [] then None
    else if attributes[0].0 == XMLNS then Some(attributes[0].1)
    else OwnDefault(attributes[1..])
  }

  /** The conventional namespace of a prefix nobody declared. */
  function ConventionalNs(prefix: string): string {
    if prefix == "D" || prefix == "d" then DAV_NS
    else if prefix == "C" || prefix == "c" || prefix == "cal" then CALDAV_NS
    else if prefix == "A" || prefix == "IC" then APPLE_NS
    else if prefix == "CS" || prefix == "cs" then CS_NS
    else DAV_NS
  }

  function Resolved(bindings: map<string, string>, name: string, attributes: Attributes): string {
    match OwnDefault(attributes)
    case Some(ns) => ns
    case None =>
      match IndexOf(name, ':')
      case Some(i) => if name[..i] in bindings then bindings[name[..i]] else ConventionalNs(name[..i])
      case None => if "" in bindings then bindings[""] else DAV_NS
  }

  class NsContext {
    var bindings: map<string, string>

    constructor ()
      ensures bindings == map[]
    {
      bindings := map[];
    }

    method RegisterFromEvent(attributes: Attributes)
      modifies this
      ensures bindings == Registered(old(bindings), attributes)
      ensures forall p :: LastDeclaration(old(bindings), attributes, bindings, p)
    {
      ghost var before := bindings;
      for i := 0 to |attributes|
        invariant Registered(bindings, attributes[i..]) == Registered(before, attributes)
      {
        assert attributes[i..][1..] == attributes[i + 1..];
        var key, value := attributes[i].0, attributes[i].1;
        if key == XMLNS {
          bindings := bindings["" := value];
        } else if StartsWith(key, XMLNS_PREFIX) {
          bindings := bindings[key[|XMLNS_PREFIX|..] := value];
        }
      }
      assert attributes[|attributes|..] == [];
      forall p
        ensures LastDeclaration(before, attributes, bindings, p)
      {
        LastDeclarationWins(before, attributes, p);
      }
    }

    method Resolve(name: string, attributes: Attributes) returns (ns: string)
      ensures ns == Resolved(bindings, name, attributes)
    {
      for i := 0 to |attributes|
        invariant OwnDefault(attributes) == OwnDefault(attributes[i..])
      {
        assert attributes[i..][1..] == attributes[i + 1..];
        if attributes[i].0 == XMLNS { return attributes[i].1; }
      }
      assert attributes[|attributes|..] == [];
      var colon := IndexOf(name, ':');
      if colon.Some? {
        var prefix := name[..colon.value];
        if prefix in bindings { return bindings[prefix]; }
        return ConventionalNs(prefix);
      }
      if "" in bindings { return bindings[""]; }
      return DAV_NS;
    }
  }

  // PROPFIND ------------------------------------------------------------------------------------------------------

  datatype PropfindState = PropfindState(bindings: map<string, string>, inProp: bool, props: seq<PropRequest>)

  const NEW_PROPFIND := PropfindState(map[], false, [])

  function AfterElement(st: PropfindState, name: string, attributes: Attributes): PropfindState {
    var bindings := Registered(st.bindings, attributes);
    if LocalName(name) == "prop" then PropfindState(bindings, true, st.props)
    else if st.inProp then
      PropfindState(bindings, true, st.props + [PropRequest(Resolved(bindings, name, attributes), LocalName(name))])
    else PropfindState(bindings, false, st.props)
  }

  function AfterClose(st: PropfindState, name: string): PropfindState {
    if LocalName(name) == "prop" then st.(inProp := false) else st
  }

  /** One event either ends the reading with an answer or moves on to a new state. */
  datatype PropfindStep = Answer(request: PropfindRequest) | Continue(state: PropfindState)

  function StepPropfind(st: PropfindState, e: XmlEvent): PropfindStep {
    match e
    case Start(name, attributes) => StepElement(st, name, attributes)
    case EmptyElement(name, attributes) => StepElement(st, name, attributes)
    case End(name) => Continue(AfterClose(st, name))
    case Malformed => Answer(AllProp)
    case _ => Continue(st)
  }

  function StepElement(st: PropfindState, name: string, attributes: Attributes): PropfindStep {
    if LocalName(name) == "allprop" then Answer(AllProp)
    else if LocalName(name) == "propname" then Answer(PropName)
    else Continue(AfterElement(st, name, attributes))
  }

  /** What the rest of the events makes of a state. */
  function PropfindFrom(st: PropfindState, events: seq<XmlEvent>): PropfindRequest
    decreases |events|
  {
    if events == [] then if st.props == [] then AllProp else Props(st.props)
    else
      match StepPropfind(st, events[0])
      case Answer(request) => request
      case Continue(next) => PropfindFrom(next, events[1..])
  }

  method ParsePropfind(events: seq<XmlEvent>) returns (r: PropfindRequest)
    ensures r == PropfindFrom(NEW_PROPFIND, events)
  {
    if events == [] { return AllProp; }
    var ns := new NsContext();
    var inProp := false;
    var props: seq<PropRequest> := [];
    for i := 0 to |events|
      invariant fresh(ns)
      invariant PropfindFrom(PropfindState(ns.bindings, inProp, props), events[i..])
          == PropfindFrom(NEW_PROPFIND, events)
    {
      assert events[i..][1..] == events[i + 1..];
      var e := events[i];
      if e.Start? || e.EmptyElement? {
        ns.RegisterFromEvent(e.attributes);
        var local := LocalName(e.name);
        if local == "allprop" { return AllProp; }
        if local == "propname" { return PropName; }
        if local == "prop" {
          inProp := true;
        } else if inProp {
          var namespace := ns.Resolve(e.name, e.attributes);
          props := props + [PropRequest(namespace, local)];
        }
      } else if e.End? {
        if LocalName(e.name) == "prop" { inProp := false; }
      } else if e.Malformed? {
        return AllProp;
      }
    }
    assert events[|events|..] == [];
    r := if props == [] then AllProp else Props(props);
  }

  // Renaming prefixes ---------------------------------------------------------------------------------------------

  predicate IsPrefix(p: string) { p != "" && ':' !in p }

  /** An injective renaming of prefixes to prefixes. */
  ghost predicate IsRenaming(rho: string -> string) {
    && (forall p {:trigger rho(p)} :: IsPrefix(p) ==> IsPrefix(rho(p)))
    && (forall p, q {:trigger rho(p), rho(q)} :: IsPrefix(p) && IsPrefix(q) && rho(p) == rho(q) ==> p == q)
  }

  function RenameName(rho: string -> string, name: string): string {
    match IndexOf(name, ':') case Some(i) => rho(name[..i]) + name[i..] case None => name
  }

  function RenameKey(rho: string -> string, key: string): string {
    if StartsWith(key, XMLNS_PREFIX) then XMLNS_PREFIX + rho(key[|XMLNS_PREFIX|..]) else key
  }

  function RenameDeclarations(rho: string -> string, attributes: Attributes): Attributes {
    if attributes == [] then []
    else [(RenameKey(rho, attributes[0].0), attributes[0].1)] + RenameDeclarations(rho, attributes[1..])
  }

  /** Inner elements keep their attributes; only their names are renamed. */
  function RenameEvent(rho: string -> string, e: XmlEvent): XmlEvent {
    match e
    case Start(name, attributes) => Start(RenameName(rho, name), attributes)
    case EmptyElement(name, attributes) => EmptyElement(RenameName(rho, name), attributes)
    case End(name) => End(RenameName(rho, name))
    case _ => e
  }

  function RenameEvents(rho: string -> string, events: seq<XmlEvent>): seq<XmlEvent> {
    if events == [] then [] else [RenameEvent(rho, events[0])] + RenameEvents(rho, events[1..])
  }

  predicate NoDeclarations(attributes: Attributes) {
    forall i :: 0 <= i < |attributes| ==> DeclaredPrefix(attributes[i].0) == None
  }

  predicate Declares(attributes: Attributes, prefix: string) {
    exists i :: 0 <= i < |attributes| && attributes[i].0 == XMLNS_PREFIX + prefix
  }

  /** A prefixed name uses a declared prefix. */
  predicate UsesDeclared(root: Attributes, name: string) {
    match IndexOf(name, ':')
    case Some(i) => IsPrefix(name[..i]) && Declares(root, name[..i])
    case None => true
  }

  predicate PlainEvent(root: Attributes, e: XmlEvent) {
    match e
    case Start(name, attributes) => UsesDeclared(root, name) && NoDeclarations(attributes)
    case EmptyElement(name, attributes) => UsesDeclared(root, name) && NoDeclarations(attributes)
    case End(name) => UsesDeclared(root, name)
    case _ => true
  }

  /** Every declared prefix is one. */
  predicate GoodDeclarations(root: Attributes) {
    forall i :: 0 <= i < |root| && StartsWith(root[i].0, XMLNS_PREFIX) ==> IsPrefix(root[i].0[|XMLNS_PREFIX|..])
  }

  /** All prefixes are declared on the root, and nothing is declared further in. */
  ghost predicate DeclaredAtRoot(name: string, root: Attributes, rest: seq<XmlEvent>) {
    && UsesDeclared(root, name)
    && GoodDeclarations(root)
    && forall i :: 0 <= i < |rest| ==> PlainEvent(root, rest[i])
  }

  /** Two sets of bindings agree up to the renaming, and on the default namespace. */
  ghost predicate Agree(rho: string -> string, b: map<string, string>, b': map<string, string>) {
    && (forall p {:trigger rho(p)} :: IsPrefix(p) ==> (p in b <==> rho(p) in b') && (p in b ==> b[p] == b'[rho(p)]))
    && ("" in b <==> "" in b') && ("" in b ==> b[""] == b'[""])
  }

  lemma {:induction false} RenamedKey(rho: string -> string, key: string)
    requires IsRenaming(rho) && (StartsWith(key, XMLNS_PREFIX) ==> IsPrefix(key[|XMLNS_PREFIX|..]))
    ensures match DeclaredPrefix(key)
            case Some(p) => DeclaredPrefix(RenameKey(rho, key)) == Some(if p == "" then "" else rho(p))
                && (p == "" || IsPrefix(p))
            case None => DeclaredPrefix(RenameKey(rho, key)) == None
  {
  }

  lemma {:induction false} BindingAgrees(rho: string -> string, b: map<string, string>, b': map<string, string>,
      p: string, value: string)
    requires IsRenaming(rho) && Agree(rho, b, b') && (p == "" || IsPrefix(p))
    ensures Agree(rho, b[p := value], b'[(if p == "" then "" else rho(p)) := value])
  {
  }

  lemma {:induction false} DeclarationsAgree(rho: string -> string, b: map<string, string>, b': map<string, string>,
      root: Attributes)
    requires IsRenaming(rho) && Agree(rho, b, b') && GoodDeclarations(root)
    ensures Agree(rho, Registered(b, root), Registered(b', RenameDeclarations(rho, root)))
    decreases |root|
  {
    if root != [] {
      var (key, value) := root[0];
      RenamedKey(rho, key);
      match DeclaredPrefix(key) {
        case Some(p) => BindingAgrees(rho, b, b', p, value);
        case None =>
      }
      assert RenameDeclarations(rho, root)[1..] == RenameDeclarations(rho, root[1..]);
      DeclarationsAgree(rho, Bind(b, key, value), Bind(b', RenameKey(rho, key), value), root[1..]);
    }
  }

  lemma {:induction false} DeclaredIsBound(b: map<string, string>, root: Attributes, p: string)
    requires p in b || Declares(root, p)
    ensures p in Registered(b, root)
    decreases |root|
  {
    if root != [] {
      var (key, value) := root[0];
      if key == XMLNS_PREFIX + p {
        assert key[|XMLNS_PREFIX|..] == p && key[5] == ':';
      } else if p !in b {
        var i :| 0 <= i < |root| && root[i].0 == XMLNS_PREFIX + p;
        assert root[1..][i - 1].0 == XMLNS_PREFIX + p;
      }
      DeclaredIsBound(Bind(b, key, value), root[1..], p);
    }
  }

  lemma {:induction false} PlainRegistersNothing(b: map<string, string>, attributes: Attributes)
    requires NoDeclarations(attributes)
    ensures Registered(b, attributes) == b && OwnDefault(attributes) == None
    decreases |attributes|
  {
    if attributes != [] {
      assert DeclaredPrefix(attributes[0].0) == None;
      assert forall i :: 0 <= i < |attributes[1..]| ==> attributes[1..][i] == attributes[i + 1];
      PlainRegistersNothing(b, attributes[1..]);
    }
  }

  lemma {:induction false} RenamedName(rho: string -> string, root: Attributes, name: string)
    requires IsRenaming(rho) && UsesDeclared(root, name)
    ensures LocalName(RenameName(rho, name)) == LocalName(name)
    ensures match IndexOf(name, ':')
            case Some(i) => var j := IndexOf(RenameName(rho, name), ':');
                            j.Some? && RenameName(rho, name)[..j.value] == rho(name[..i])
            case None => RenameName(rho, name) == name
  {
    var colon := IndexOf(name, ':');
    if colon.Some? {
      var i := colon.value;
      var p := rho(name[..i]);
      var renamed := p + name[i..];
      assert IsPrefix(p) && renamed[..|p|] == p && renamed[|p|] == ':';
      IndexIs(renamed, ':', |p|);
      assert renamed[|p| + 1..] == name[i + 1..];
    }
  }

  lemma {:induction false} ResolvesTheSame(rho: string -> string, root: Attributes, b: map<string, string>,
      b': map<string, string>,
                        name: string, attributes: Attributes)
    requires IsRenaming(rho) && Agree(rho, b, b') && UsesDeclared(root, name)
    requires forall p :: Declares(root, p) ==> p in b
    requires OwnDefault(attributes) == None
    ensures Resolved(b', RenameName(rho, name), attributes) == Resolved(b, name, attributes)
  {
    RenamedName(rho, root, name);
  }

  /** The same step, up to the bindings. */
  predicate SameStep(step: PropfindStep, b: map<string, string>, step': PropfindStep, b': map<string, string>) {
    match step
    case Answer(_) => step' == step
    case Continue(next) => next.bindings == b && step' == Continue(next.(bindings := b'))
  }

  /** Two spellings of an element that resolve alike have the same effect. */
  lemma {:induction false} SameElement(st: PropfindState, name: string, attributes: Attributes,
                                       st': PropfindState, name': string, attributes': Attributes)
    requires LocalName(name') == LocalName(name) && st'.inProp == st.inProp && st'.props == st.props
    requires st.inProp ==>
               Resolved(Registered(st'.bindings, attributes'), name', attributes')
               == Resolved(Registered(st.bindings, attributes), name, attributes)
    ensures SameStep(StepElement(st, name, attributes), Registered(st.bindings, attributes),
                     StepElement(st', name', attributes'), Registered(st'.bindings, attributes'))
  {
  }

  lemma {:induction false} EventRenamed(rho: string -> string, root: Attributes, st: PropfindState, b': map<string,
      string>, e: XmlEvent)
    requires IsRenaming(rho) && Agree(rho, st.bindings, b') && forall p :: Declares(root, p) ==> p in st.bindings
    requires PlainEvent(root, e)
    ensures SameStep(StepPropfind(st, e), st.bindings, StepPropfind(st.(bindings := b'), RenameEvent(rho, e)), b')
  {
    if IsElement(e) {
      RenamedName(rho, root, e.name);
      PlainRegistersNothing(st.bindings, e.attributes);
      PlainRegistersNothing(b', e.attributes);
      ResolvesTheSame(rho, root, st.bindings, b', e.name, e.attributes);
      SameElement(st, e.name, e.attributes, st.(bindings := b'), RenameName(rho, e.name), e.attributes);
    } else if e.End? {
      RenamedName(rho, root, e.name);
    }
  }

  lemma {:induction false} RestRenamed(rho: string -> string, root: Attributes, st: PropfindState, b': map<string,
      string>, rest: seq<XmlEvent>)
    requires IsRenaming(rho) && Agree(rho, st.bindings, b') && forall p :: Declares(root, p) ==> p in st.bindings
    requires forall i :: 0 <= i < |rest| ==> PlainEvent(root, rest[i])
    ensures PropfindFrom(st.(bindings := b'), RenameEvents(rho, rest)) == PropfindFrom(st, rest)
    decreases |rest|
  {
    if rest != [] {
      EventRenamed(rho, root, st, b', rest[0]);
      assert RenameEvents(rho, rest)[1..] == RenameEvents(rho, rest[1..]);
      var step := StepPropfind(st, rest[0]);
      if step.Continue? {
        RestRenamed(rho, root, step.state, b', rest[1..]);
      }
    }
  }

  /** After the root, both readers have the same properties and bindings that agree. */
  lemma {:induction false} RootRenamed(rho: string -> string, name: string, root: Attributes)
    requires IsRenaming(rho) && UsesDeclared(root, name) && GoodDeclarations(root)
    ensures var b, b' := Registered(map[], root), Registered(map[], RenameDeclarations(rho, root));
            && Agree(rho, b, b') && (forall p :: Declares(root, p) ==> p in b)
            && SameStep(StepElement(NEW_PROPFIND, name, root), b,
                        StepElement(NEW_PROPFIND, RenameName(rho, name), RenameDeclarations(rho, root)), b')
  {
    RenamedName(rho, root, name);
    DeclarationsAgree(rho, map[], map[], root);
    forall p | Declares(root, p)
      ensures p in Registered(map[], root)
    {
      DeclaredIsBound(map[], root, p);
    }
    SameElement(NEW_PROPFIND, name, root, NEW_PROPFIND, RenameName(rho, name), RenameDeclarations(rho, root));
  }

  lemma {:induction false} PropfindFirst(st: PropfindState, name: string, attributes: Attributes, rest: seq<XmlEvent>)
    ensures PropfindFrom(st, [Start(name, attributes)] + rest) ==
            match StepElement(st, name, attributes)
            case Answer(request) => request
            case Continue(next) => PropfindFrom(next, rest)
  {
  }

  /** The properties a PROPFIND asks for do not depend on the prefixes its root declares. */
  lemma {:induction false} PrefixesAreIrrelevant(rho: string -> string, name: string, root: Attributes,
      rest: seq<XmlEvent>)
    requires IsRenaming(rho) && DeclaredAtRoot(name, root, rest)
    ensures PropfindFrom(NEW_PROPFIND,
        [Start(RenameName(rho, name), RenameDeclarations(rho, root))] + RenameEvents(rho, rest))
         == PropfindFrom(NEW_PROPFIND, [Start(name, root)] + rest)
  {
    var name', root' := RenameName(rho, name), RenameDeclarations(rho, root);
    PropfindFirst(NEW_PROPFIND, name, root, rest);
    PropfindFirst(NEW_PROPFIND, name', root', RenameEvents(rho, rest));
    RootRenamed(rho, name, root);
    var step := StepElement(NEW_PROPFIND, name, root);
    if step.Continue? {
      RestRenamed(rho, root, step.state, Registered(map[], root'), rest);
    }
  }

  // The elements of a prop element ------------------------------------------------------------------------------

  /** An event inside a prop element: elements that declare no prefix, and what is between them. */
  predicate IsPropertyChild(e: XmlEvent) {
    match e
    case Start(name, attributes) => LocalName(name) !in ["allprop", "propname", "prop"] && NoDeclarations(attributes)
    case EmptyElement(name, attributes) => LocalName(name) !in ["allprop", "propname", "prop"]
        && NoDeclarations(attributes)
    case End(name) => LocalName(name) != "prop"
    case Malformed => false
    case _ => true
  }

  /** What the elements among some events ask for, in document order. */
  function RequestsOf(b: map<string, string>, children: seq<XmlEvent>): seq<PropRequest> {
    if children == [] then []
    else if !IsElement(children[0]) then RequestsOf(b, children[1..])
    else [PropRequest(Resolved(b, children[0].name, children[0].attributes), LocalName(children[0].name))]
         + RequestsOf(b, children[1..])
  }

  lemma {:induction false} RequestsAreChildren(b: map<string, string>, children: seq<XmlEvent>)
    requires forall i :: 0 <= i < |children| ==> IsElement(children[i])
    ensures |RequestsOf(b, children)| == |children|
    ensures forall i :: 0 <= i < |children| ==>
              var e := children[i];
              IsElement(e)
                  && RequestsOf(b, children)[i] == PropRequest(Resolved(b, e.name, e.attributes), LocalName(e.name))
    decreases |children|
  {
    if children != [] { RequestsAreChildren(b, children[1..]); }
  }

  lemma {:induction false} ReadChild(st: PropfindState, e: XmlEvent)
    requires st.inProp && IsPropertyChild(e)
    ensures StepPropfind(st, e) == Continue(st.(props := st.props + RequestsOf(st.bindings, [e])))
  {
    assert [e][1..] == [];
    NothingBefore(st.props);
    if IsElement(e) {
      PlainRegistersNothing(st.bindings, e.attributes);
      NothingBefore([PropRequest(Resolved(st.bindings, e.name, e.attributes), LocalName(e.name))]);
    }
  }

  lemma {:induction false} RequestsSplit(b: map<string, string>, children: seq<XmlEvent>)
    requires children != []
    ensures RequestsOf(b, children) == RequestsOf(b, [children[0]]) + RequestsOf(b, children[1..])
  {
  }

  lemma {:induction false} ReadChildren(st: PropfindState, children: seq<XmlEvent>, rest: seq<XmlEvent>)
    requires st.inProp && forall i :: 0 <= i < |children| ==> IsPropertyChild(children[i])
    ensures PropfindFrom(st, children + rest)
         == PropfindFrom(st.(props := st.props + RequestsOf(st.bindings, children)), rest)
    decreases |children|
  {
    if children == [] {
      NothingBefore(rest);
      NothingBefore(st.props);
    } else {
      var e := children[0];
      assert IsPropertyChild(e);
      TailOfAppend(children, rest);
      ReadChild(st, e);
      ReadChildren(st.(props := st.props + RequestsOf(st.bindings, [e])), children[1..], rest);
      RequestsSplit(st.bindings, children);
      Associative(st.props, RequestsOf(st.bindings, [e]), RequestsOf(st.bindings, children[1..]));
    }
  }

  lemma {:induction false} ReadTail(st: PropfindState, propName: string, name: string)
    ensures PropfindFrom(st, [End(propName), End(name)]) == if st.props == [] then AllProp else Props(st.props)
  {
    assert [End(propName), End(name)][1..] == [End(name)] && [End(name)][1..] == [];
    var next := AfterClose(st, propName);
    assert PropfindFrom(next, [End(name)]) == PropfindFrom(AfterClose(next, name), []);
  }

  /**
   The elements inside one prop element, closed at once or not, are read in document order, whatever text
   and comments stand between them; without any element the request is for all properties.
   */
  lemma {:induction false} FlatPropsInOrder(
    name: string, root: Attributes, propName: string, attributes: Attributes, children: seq<XmlEvent>)
    requires LocalName(name) == "propfind" && LocalName(propName) == "prop"
    requires forall i :: 0 <= i < |children| ==> IsPropertyChild(children[i])
    ensures var requests := RequestsOf(Registered(Registered(map[], root), attributes), children);
            PropfindFrom(NEW_PROPFIND,
                         [Start(name, root)]
                         + ([Start(propName, attributes)] + (children + [End(propName), End(name)])))
            == if requests == [] then AllProp else Props(requests)
  {
    var tail := [End(propName), End(name)];
    var b := Registered(Registered(map[], root), attributes);
    PropfindFirst(NEW_PROPFIND, name, root, [Start(propName, attributes)] + (children + tail));
    PropfindFirst(PropfindState(Registered(map[], root), false, []), propName, attributes, children + tail);
    ReadChildren(PropfindState(b, true, []), children, tail);
    NothingBefore(RequestsOf(b, children));
    ReadTail(PropfindState(b, true, RequestsOf(b, children)), propName, name);
  }

  // REPORT ----------------------------------------------------------------------------------------------------------

  datatype ReportKind = Multiget | Query | Sync

  datatype ReportRequest =
    | CalendarMultiget(props: seq<PropRequest>, hrefs: seq<string>)
    | CalendarQuery(props: seq<PropRequest>, timeRange: Option<(string, string)>)
    | SyncCollection(props: seq<PropRequest>, syncToken: string)

  datatype ReportState = ReportState(
    bindings: map<string, string>, kind: Option<ReportKind>, inProp: bool, inHref: bool, inSyncToken: bool,
    props: seq<PropRequest>, hrefs: seq<string>, timeStart: string, timeEnd: string, syncToken: string)

  const NEW_REPORT := ReportState(map[], None, false, false, false, [], [], "", "", "")

  /** The last value of an attribute, or what was there before. */
  function AttributeOr(attributes: Attributes, key: string, default: string): string
    decreases |attributes|
  {
    if attributes == [] then default
    else AttributeOr(attributes[1..], key, if attributes[0].0 == key then attributes[0].1 else default)
  }

  /** The elements the report reader knows, by local name. */
  datatype Tag = MultigetTag | QueryTag | SyncTag | PropTag | FilterTag | HrefTag | TokenTag | RangeTag | OtherTag

  function TagOf(name: string): Tag {
    match LocalName(name)
    case "calendar-multiget" => MultigetTag
    case "calendar-query" => QueryTag
    case "sync-collection" => SyncTag
    case "prop" => PropTag
    case "filter" => FilterTag
    case "comp-filter" => FilterTag
    case "href" => HrefTag
    case "sync-token" => TokenTag
    case "time-range" => RangeTag
    case _ => OtherTag
  }

  function AfterReportElement(st: ReportState, name: string, attributes: Attributes): ReportState {
    var st' := st.(bindings := Registered(st.bindings, attributes));
    match TagOf(name)
    case MultigetTag => st'.(kind := Some(Multiget))
    case QueryTag => st'.(kind := Some(Query))
    case SyncTag => st'.(kind := Some(Sync))
    case PropTag => st'.(inProp := true)
    case FilterTag => st'
    case HrefTag => st'.(inHref := true)
    case TokenTag => st'.(inSyncToken := true)
    case RangeTag =>
      st'.(timeStart := AttributeOr(attributes, "start", st.timeStart),
          timeEnd := AttributeOr(attributes, "end", st.timeEnd))
    case OtherTag =>
      if st.inProp then
        st'.(props := st.props + [PropRequest(Resolved(st'.bindings, name, attributes), LocalName(name))])
      else st'
  }

  function AfterReportEnd(st: ReportState, name: string): ReportState {
    match TagOf(name)
    case PropTag => st.(inProp := false)
    case HrefTag => st.(inHref := false)
    case TokenTag => st.(inSyncToken := false)
    case _ => st
  }

  function AfterText(st: ReportState, text: string): ReportState {
    if st.inHref then st.(hrefs := st.hrefs + [text])
    else if st.inSyncToken then st.(syncToken := text)
    else st
  }

  function AfterEvent(st: ReportState, e: XmlEvent): ReportState {
    match e
    case Start(name, attributes) => AfterReportElement(st, name, attributes)
    case EmptyElement(name, attributes) => AfterReportElement(st, name, attributes)
    case End(name) => AfterReportEnd(st, name)
    case Text(text) => AfterText(st, text)
    case _ => st
  }

  function Report(st: ReportState): Option<ReportRequest> {
    match st.kind
    case Some(Multiget) => Some(CalendarMultiget(st.props, st.hrefs))
    case Some(Query) =>
      Some(CalendarQuery(st.props,
                         if st.timeStart != "" && st.timeEnd != "" then Some((st.timeStart, st.timeEnd)) else None))
    case Some(Sync) => Some(SyncCollection(st.props, st.syncToken))
    case None => None
  }

  function ReportFrom(st: ReportState, events: seq<XmlEvent>): Option<ReportRequest>
    decreases |events|
  {
    if events == [] then Report(st)
    else if events[0].Malformed? then None
    else ReportFrom(AfterEvent(st, events[0]), events[1..])
  }

  method ParseReport(events: seq<XmlEvent>) returns (r: Option<ReportRequest>)
    ensures r == ReportFrom(NEW_REPORT, events)
  {
    if events == [] { return None; }
    var ns := new NsContext();
    var st := NEW_REPORT;
    for i := 0 to |events|
      invariant fresh(ns) && ns.bindings == st.bindings
      invariant ReportFrom(st, events[i..]) == ReportFrom(NEW_REPORT, events)
    {
      assert events[i..][1..] == events[i + 1..];
      if events[i].Malformed? { return None; }
      st := ReadEvent(ns, st, events[i]);
    }
    assert events[|events|..] == [];
    r := Report(st);
  }

  method ReadEvent(ns: NsContext, st: ReportState, e: XmlEvent) returns (st': ReportState)
    requires ns.bindings == st.bindings
    modifies ns
    ensures st' == AfterEvent(st, e) && ns.bindings == st'.bindings
  {
    st' := st;
    if e.Start? || e.EmptyElement? {
      ns.RegisterFromEvent(e.attributes);
      st' := ReadElement(ns, st, e.name, e.attributes);
    } else if e.End? {
      st' := ReadEnd(st, e.name);
    } else if e.Text? {
      if st.inHref {
        st' := st.(hrefs := st.hrefs + [e.text]);
      } else if st.inSyncToken {
        st' := st.(syncToken := e.text);
      }
    }
  }

  method ReadEnd(st: ReportState, name: string) returns (st': ReportState)
    ensures st' == AfterReportEnd(st, name) && st'.bindings == st.bindings
  {
    match TagOf(name) {
      case PropTag => st' := st.(inProp := false);
      case HrefTag => st' := st.(inHref := false);
      case TokenTag => st' := st.(inSyncToken := false);
      case _ => st' := st;
    }
  }

  /** The flags and lists after an opening tag, once its declarations are registered. */
  method ReadElement(ns: NsContext, st: ReportState, name: string, attributes: Attributes) returns (st': ReportState)
    requires ns.bindings == Registered(st.bindings, attributes)
    ensures st' == AfterReportElement(st, name, attributes) && st'.bindings == ns.bindings
  {
    st' := st.(bindings := ns.bindings);
    match TagOf(name) {
      case MultigetTag => st' := st'.(kind := Some(Multiget));
      case QueryTag => st' := st'.(kind := Some(Query));
      case SyncTag => st' := st'.(kind := Some(Sync));
      case PropTag => st' := st'.(inProp := true);
      case FilterTag =>
      case HrefTag => st' := st'.(inHref := true);
      case TokenTag => st' := st'.(inSyncToken := true);
      case RangeTag =>
        var start, end := ReadRange(attributes, st.timeStart, st.timeEnd);
        st' := st'.(timeStart := start, timeEnd := end);
      case OtherTag =>
        if st.inProp {
          var namespace := ns.Resolve(name, attributes);
          st' := st'.(props := st.props + [PropRequest(namespace, LocalName(name))]);
        }
    }
  }

  /** The bounds of a time range; an attribute that is absent leaves its bound as it was. */
  method ReadRange(attributes: Attributes, start0: string, end0: string) returns (start: string, end: string)
    ensures start == AttributeOr(attributes, "start", start0) && end == AttributeOr(attributes, "end", end0)
  {
    start, end := start0, end0;
    for i := 0 to |attributes|
      invariant AttributeOr(attributes[i..], "start", start) == AttributeOr(attributes, "start", start0)
      invariant AttributeOr(attributes[i..], "end", end) == AttributeOr(attributes, "end", end0)
    {
      assert attributes[i..][1..] == attributes[i + 1..];
      if attributes[i].0 == "start" {
        start := attributes[i].1;
      } else if attributes[i].0 == "end" {
        end := attributes[i].1;
      }
    }
    assert attributes[|attributes|..] == [];
  }

  // What a report request means -----------------------------------------------------------------------------------

  function EventsAfter(st: ReportState, events: seq<XmlEvent>): ReportState
    decreases |events|
  {
    if events == [] then st else EventsAfter(AfterEvent(st, events[0]), events[1..])
  }

  lemma {:induction false} ThreeEvents(st: ReportState, a: XmlEvent, b: XmlEvent, c: XmlEvent)
    ensures EventsAfter(st, [a, b, c]) == AfterEvent(AfterEvent(AfterEvent(st, a), b), c)
  {
    assert [a, b, c][1..] == [b, c] && [b, c][1..] == [c] && [c][1..] == [];
    assert EventsAfter(AfterEvent(st, a), [b, c]) == AfterEvent(AfterEvent(AfterEvent(st, a), b), c) by {
      assert EventsAfter(AfterEvent(AfterEvent(st, a), b), [c]) == AfterEvent(AfterEvent(AfterEvent(st, a), b), c);
    }
  }

  lemma {:induction false} ReportAppend(st: ReportState, events: seq<XmlEvent>, more: seq<XmlEvent>)
    requires forall i :: 0 <= i < |events| ==> !events[i].Malformed?
    ensures ReportFrom(st, events + more) == ReportFrom(EventsAfter(st, events), more)
    decreases |events|
  {
    if events == [] {
      assert events + more == more;
    } else {
      assert (events + more)[1..] == events[1..] + more;
      assert forall i :: 0 <= i < |events[1..]| ==> events[1..][i] == events[i + 1];
      ReportAppend(AfterEvent(st, events[0]), events[1..], more);
    }
  }

  /** Names of a client's own prefixes, by their local names. */
  datatype Names = Names(root: string, token: string, level: string, prop: string, href: string)

  predicate GoodNames(n: Names, root: string) {
    && LocalName(n.root) == root && LocalName(n.token) == "sync-token" && LocalName(n.level) == "sync-level"
    && LocalName(n.prop) == "prop" && LocalName(n.href) == "href"
  }

  /** An event inside the prop element of a report: no element the reader knows, no text. */
  predicate IsReportChild(e: XmlEvent) {
    match e
    case Start(name, attributes) => TagOf(name) == OtherTag && NoDeclarations(attributes)
    case EmptyElement(name, attributes) => TagOf(name) == OtherTag && NoDeclarations(attributes)
    case End(name) => TagOf(name) == OtherTag
    case Other => true
    case _ => false
  }

  /** A prop element with flat children. */
  function PropElement(n: Names, children: seq<XmlEvent>): seq<XmlEvent> {
    [Start(n.prop, [])] + children + [End(n.prop)]
  }

  lemma {:induction false} ReadReportChild(st: ReportState, e: XmlEvent)
    requires st.inProp && IsReportChild(e)
    ensures AfterEvent(st, e) == st.(props := st.props + RequestsOf(st.bindings, [e]))
  {
    assert [e][1..] == [];
    NothingBefore(st.props);
    if IsElement(e) {
      PlainRegistersNothing(st.bindings, e.attributes);
      NothingBefore([PropRequest(Resolved(st.bindings, e.name, e.attributes), LocalName(e.name))]);
    }
  }

  lemma {:induction false} ReadReportChildren(st: ReportState, children: seq<XmlEvent>)
    requires st.inProp && forall i :: 0 <= i < |children| ==> IsReportChild(children[i])
    ensures EventsAfter(st, children) == st.(props := st.props + RequestsOf(st.bindings, children))
    decreases |children|
  {
    if children == [] {
      NothingBefore(st.props);
    } else {
      var e := children[0];
      assert IsReportChild(e);
      assert forall i :: 0 <= i < |children[1..]| ==> children[1..][i] == children[i + 1];
      ReadReportChild(st, e);
      ReadReportChildren(AfterEvent(st, e), children[1..]);
      RequestsSplit(st.bindings, children);
      Associative(st.props, RequestsOf(st.bindings, [e]), RequestsOf(st.bindings, children[1..]));
    }
  }

  lemma {:induction false} EventsAfterAppend(st: ReportState, events: seq<XmlEvent>, more: seq<XmlEvent>)
    ensures EventsAfter(st, events + more) == EventsAfter(EventsAfter(st, events), more)
    decreases |events|
  {
    if events == [] {
      assert events + more == more;
    } else {
      assert (events + more)[1..] == events[1..] + more;
      EventsAfterAppend(AfterEvent(st, events[0]), events[1..], more);
    }
  }

  lemma {:induction false} ReadPropElement(st: ReportState, n: Names, children: seq<XmlEvent>)
    requires LocalName(n.prop) == "prop" && !st.inProp
    requires forall i :: 0 <= i < |children| ==> IsReportChild(children[i])
    ensures EventsAfter(st, PropElement(n, children)) == st.(props := st.props + RequestsOf(st.bindings, children))
    ensures forall i :: 0 <= i < |PropElement(n, children)| ==> !PropElement(n, children)[i].Malformed?
  {
    var first, last := [Start(n.prop, [])], [End(n.prop)];
    assert first[1..] == [] && last[1..] == [];
    EventsAfterAppend(st, first + children, last);
    EventsAfterAppend(st, first, children);
    assert EventsAfter(st, first) == st.(inProp := true);
    ReadReportChildren(st.(inProp := true), children);
  }

  /** `<sync-level>text</sync-level>`, if the client sends one. */
  function LevelElement(n: Names, level: Option<string>): seq<XmlEvent> {
    match level
    case Some(text) => [Start(n.level, []), Text(text), End(n.level)]
    case None => []
  }

  lemma {:induction false} ReadLevel(st: ReportState, n: Names, level: Option<string>)
    requires LocalName(n.level) == "sync-level" && !st.inProp && !st.inHref
    ensures EventsAfter(st, LevelElement(n, level)) ==
            if st.inSyncToken && level.Some? then st.(syncToken := level.value) else st
  {
    if level.Some? {
      OpenLevel(st, n);
      ThreeEvents(st, Start(n.level, []), Text(level.value), End(n.level));
    }
  }

  lemma {:induction false} OpenLevel(st: ReportState, n: Names)
    requires LocalName(n.level) == "sync-level" && !st.inProp
    ensures AfterReportElement(st, n.level, []) == st && AfterReportEnd(st, n.level) == st
    ensures forall t :: AfterReportEnd(st.(syncToken := t), n.level) == st.(syncToken := t)
  {
  }

  lemma {:induction false} ReadTokenText(st: ReportState, n: Names, token: string)
    requires LocalName(n.token) == "sync-token" && !st.inHref && !st.inSyncToken
    ensures EventsAfter(st, [Start(n.token, []), Text(token), End(n.token)]) == st.(syncToken := token)
  {
    ThreeEvents(st, Start(n.token, []), Text(token), End(n.token));
  }

  /** A sync request whose token element has the given events. */
  function SyncRequest(n: Names, root: Attributes, token: seq<XmlEvent>, level: Option<string>,
      children: seq<XmlEvent>): seq<XmlEvent> {
    [Start(n.root, root)] + (token + (LevelElement(n, level) + (PropElement(n, children) + [End(n.root)])))
  }

  lemma {:induction false} ReadRoot(n: Names, root: Attributes, kind: ReportKind, rest: seq<XmlEvent>)
    requires TagOf(n.root) == match kind case Multiget => MultigetTag case Query => QueryTag case Sync => SyncTag
    ensures ReportFrom(NEW_REPORT, [Start(n.root, root)] + rest)
         == ReportFrom(NEW_REPORT.(bindings := Registered(map[], root), kind := Some(kind)), rest)
  {
  }

  lemma {:induction false} ReadClosingRoot(st: ReportState, n: Names)
    requires LocalName(n.root) in ["calendar-multiget", "calendar-query", "sync-collection"]
    ensures ReportFrom(st, [End(n.root)]) == Report(st)
  {
  }

  lemma {:induction false} ReadSyncRequest(n: Names, root: Attributes, token: seq<XmlEvent>, level: Option<string>,
      children: seq<XmlEvent>, st: ReportState)
    requires GoodNames(n, "sync-collection")
    requires forall i :: 0 <= i < |children| ==> IsReportChild(children[i])
    requires forall i :: 0 <= i < |token| ==> !token[i].Malformed?
    requires st == EventsAfter(NEW_REPORT.(bindings := Registered(map[], root), kind := Some(Sync)), token)
    requires !st.inProp && !st.inHref && st.kind == Some(Sync) && st.props == []
        && st.bindings == Registered(map[], root)
    ensures ReportFrom(NEW_REPORT, SyncRequest(n, root, token, level, children)) ==
            Some(SyncCollection(RequestsOf(Registered(map[], root), children),
                                if st.inSyncToken && level.Some? then level.value else st.syncToken))
  {
    var afterProp := PropElement(n, children) + [End(n.root)];
    var afterLevel := LevelElement(n, level) + afterProp;
    var st' := if st.inSyncToken && level.Some? then st.(syncToken := level.value) else st;
    ReadRoot(n, root, Sync, token + afterLevel);
    ReportAppend(NEW_REPORT.(bindings := Registered(map[], root), kind := Some(Sync)), token, afterLevel);
    ReadLevel(st, n, level);
    ReportAppend(st, LevelElement(n, level), afterProp);
    ReadPropElement(st', n, children);
    ReportAppend(st', PropElement(n, children), [End(n.root)]);
    assert [] + RequestsOf(st.bindings, children) == RequestsOf(st.bindings, children);
    ReadClosingRoot(st'.(props := RequestsOf(st.bindings, children)), n);
  }

  /** A token sent as the text of its element is read as it is, whatever the level. */
  lemma {:induction false} SentTokenIsRead(n: Names, root: Attributes, token: string, level: Option<string>,
      children: seq<XmlEvent>)
    requires GoodNames(n, "sync-collection")
    requires forall i :: 0 <= i < |children| ==> IsReportChild(children[i])
    ensures ReportFrom(NEW_REPORT,
        SyncRequest(n, root, [Start(n.token, []), Text(token), End(n.token)], level, children)) ==
            Some(SyncCollection(RequestsOf(Registered(map[], root), children), token))
  {
    var st := NEW_REPORT.(bindings := Registered(map[], root), kind := Some(Sync));
    ReadTokenText(st, n, token);
    ReadSyncRequest(n, root, [Start(n.token, []), Text(token), End(n.token)], level, children, st.(syncToken := token));
  }

  /** After a self-closing token element the text of the level, if there is one, is taken for the token. */
  lemma {:induction false} SelfClosingTokenTakesLevel(n: Names, root: Attributes, level: Option<string>,
      children: seq<XmlEvent>)
    requires GoodNames(n, "sync-collection")
    requires forall i :: 0 <= i < |children| ==> IsReportChild(children[i])
    ensures ReportFrom(NEW_REPORT, SyncRequest(n, root, [EmptyElement(n.token, [])], level, children)) ==
            Some(SyncCollection(RequestsOf(Registered(map[], root), children), if level.Some? then level.value else ""))
  {
    var st := NEW_REPORT.(bindings := Registered(map[], root), kind := Some(Sync));
    assert [EmptyElement(n.token, [])][1..] == [];
    ReadSyncRequest(n, root, [EmptyElement(n.token, [])], level, children, st.(inSyncToken := true));
  }

  function HrefElements(n: Names, hrefs: seq<string>): seq<XmlEvent> {
    if hrefs == [] then [] else [Start(n.href, []), Text(hrefs[0]), End(n.href)] + HrefElements(n, hrefs[1..])
  }

  lemma {:induction false} ReadHrefs(st: ReportState, n: Names, hrefs: seq<string>)
    requires LocalName(n.href) == "href" && !st.inHref && !st.inProp
    ensures EventsAfter(st, HrefElements(n, hrefs)) == st.(hrefs := st.hrefs + hrefs)
    decreases |hrefs|
  {
    if hrefs == [] {
      assert st.hrefs + hrefs == st.hrefs;
    } else {
      var one := [Start(n.href, []), Text(hrefs[0]), End(n.href)];
      ThreeEvents(st, Start(n.href, []), Text(hrefs[0]), End(n.href));
      EventsAfterAppend(st, one, HrefElements(n, hrefs[1..]));
      ReadHrefs(st.(hrefs := st.hrefs + [hrefs[0]]), n, hrefs[1..]);
      assert st.hrefs + [hrefs[0]] + hrefs[1..] == st.hrefs + hrefs;
    }
  }

  lemma {:induction false} HrefsAreWellFormed(n: Names, hrefs: seq<string>)
    ensures forall i :: 0 <= i < |HrefElements(n, hrefs)| ==> !HrefElements(n, hrefs)[i].Malformed?
  {
    if hrefs != [] { HrefsAreWellFormed(n, hrefs[1..]); }
  }

  /** A multiget asks for exactly the hrefs it lists, in their order. */
  lemma {:induction false} MultigetHrefsInOrder(n: Names, root: Attributes, children: seq<XmlEvent>, hrefs: seq<string>)
    requires GoodNames(n, "calendar-multiget")
    requires forall i :: 0 <= i < |children| ==> IsReportChild(children[i])
    ensures ReportFrom(NEW_REPORT,
                       [Start(n.root, root)] + (PropElement(n, children) + (HrefElements(n, hrefs) + [End(n.root)]))) ==
            Some(CalendarMultiget(RequestsOf(Registered(map[], root), children), hrefs))
  {
    var afterProp := HrefElements(n, hrefs) + [End(n.root)];
    var st := NEW_REPORT.(bindings := Registered(map[], root), kind := Some(Multiget));
    var st' := st.(props := RequestsOf(st.bindings, children));
    ReadRoot(n, root, Multiget, PropElement(n, children) + afterProp);
    ReadPropElement(st, n, children);
    assert [] + RequestsOf(st.bindings, children) == RequestsOf(st.bindings, children);
    ReportAppend(st, PropElement(n, children), afterProp);
    ReadHrefs(st', n, hrefs);
    assert [] + hrefs == hrefs;
    HrefsAreWellFormed(n, hrefs);
    ReportAppend(st', HrefElements(n, hrefs), [End(n.root)]);
    ReadClosingRoot(st'.(hrefs := hrefs), n);
  }
}
