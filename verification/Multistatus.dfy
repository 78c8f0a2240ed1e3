/**
 The multistatus response document.

 `MultistatusBuilder` appends tokens to its writer. What the tokens mean is fixed from the reader's
 side: a stack checker accepts the document, and a client that reads it gets back every response, in
 order, with its properties.
 */
module Multistatus {
  import opened Wrappers
  import opened Sequences
  import opened Namespaces

  datatype XmlToken =
    | Decl
    | Open(name: string, attributes: seq<(string, string)>)
    | Close(name: string)
    | Leaf(name: string)
    | Chars(text: string)

  /** A fragment is raw XML, here its tokens. */
  datatype PropContent = Text(text: string) | Xml(fragment: seq<XmlToken>) | Empty

  datatype PropValue = PropValue(name: string, namespace: string, value: PropContent)

  /** One call on the builder. */
  datatype Part =
    | Response(href: string, found: seq<PropValue>, notFound: seq<string>)
    | SyncTokenPart(token: string)

  const STATUS_OK := "HTTP/1.1 200 OK"
  const STATUS_NOT_FOUND := "HTTP/1.1 404 Not Found"

  const ROOT_ATTRIBUTES: seq<(string, string)> :=
    [("xmlns:D", DAV_NS), ("xmlns:C", CALDAV_NS), ("xmlns:A", APPLE_NS), ("xmlns:CS", CS_NS)]

  // What each call writes ---------------------------------------------------------------------------

  function Element(name: string, content: seq<XmlToken>): seq<XmlToken> {
    [Open(name, [])] + content + [Close(name)]
  }

  function PropTokens(p: PropValue): seq<XmlToken> {
    var name := PrefixName(p.namespace, p.name);
    match p.value
    case Text(text) => Element(name, [Chars(text)])
    case Xml(fragment) => Element(name, fragment)
    case Empty => [Leaf(name)]
  }

  function PropsTokens(ps: seq<PropValue>): seq<XmlToken> {
    if ps == [] then [] else PropTokens(ps[0]) + PropsTokens(ps[1..])
  }

  function LeafTokens(names: seq<string>): seq<XmlToken> {
    if names == [] then [] else [Leaf(names[0])] + LeafTokens(names[1..])
  }

  function Propstat(props: seq<XmlToken>, status: string): seq<XmlToken> {
    Element("D:propstat", Element("D:prop", props) + Element("D:status", [Chars(status)]))
  }

  function PartTokens(part: Part): seq<XmlToken> {
    match part
    case Response(href, found, notFound) =>
      Element("D:response",
              Element("D:href", [Chars(href)])
              + (if found == [] then [] else Propstat(PropsTokens(found), STATUS_OK))
              + (if notFound == [] then [] else Propstat(LeafTokens(notFound), STATUS_NOT_FOUND)))
    case SyncTokenPart(token) => Element("D:sync-token", [Chars(token)])
  }

  function PartsTokens(parts: seq<Part>): seq<XmlToken> {
    if parts == [] then [] else PartTokens(parts[0]) + PartsTokens(parts[1..])
  }

  const PREAMBLE: seq<XmlToken> := [Decl, Open("D:multistatus", ROOT_ATTRIBUTES)]

  function Document(parts: seq<Part>): seq<XmlToken> {
    PREAMBLE + PartsTokens(parts) + [Close("D:multistatus")]
  }

  lemma {:induction false} PartsTokensAppend(parts: seq<Part>, more: seq<Part>)
    ensures PartsTokens(parts + more) == PartsTokens(parts) + PartsTokens(more)
  {
    if parts == [] {
      NothingBefore(more);
      NothingBefore(PartsTokens(more));
    } else {
      TailOfAppend(parts, more);
      PartsTokensAppend(parts[1..], more);
      Associative(PartTokens(parts[0]), PartsTokens(parts[1..]), PartsTokens(more));
    }
  }

  lemma {:induction false} PropsTokensAppend(ps: seq<PropValue>, p: PropValue)
    ensures PropsTokens(ps + [p]) == PropsTokens(ps) + PropTokens(p)
  {
    if ps == [] {
      NothingBefore([p]);
      TailOfCons(p, []);
      NothingBefore(PropTokens(p));
    } else {
      TailOfAppend(ps, [p]);
      PropsTokensAppend(ps[1..], p);
      Associative(PropTokens(ps[0]), PropsTokens(ps[1..]), PropTokens(p));
    }
  }

  lemma {:induction false} LeafTokensAppend(names: seq<string>, name: string)
    ensures LeafTokens(names + [name]) == LeafTokens(names) + [Leaf(name)]
  {
    if names != [] {
      TailOfAppend(names, [name]);
      LeafTokensAppend(names[1..], name);
      Associative([Leaf(names[0])], LeafTokens(names[1..]), [Leaf(name)]);
    }
  }

  class MultistatusBuilder {
    var writer: seq<XmlToken>
    ghost var parts: seq<Part>

    /** The writer holds the preamble and the parts added so far. */
    ghost predicate Valid()
      reads this
    {
      writer == PREAMBLE + PartsTokens(parts)
    }

    constructor ()
      ensures Valid() && parts == []
    {
      writer := [Decl] + [Open("D:multistatus", ROOT_ATTRIBUTES)];
      parts := [];
    }

    method AddResponse(href: string, found: seq<PropValue>, notFound: seq<string>)
      requires Valid()
      modifies this
      ensures Valid() && parts == old(parts) + [Response(href, found, notFound)]
    {
      var part := Response(href, found, notFound);
      writer := writer + [Open("D:response", [])];
      writer := writer + [Open("D:href", []), Chars(href), Close("D:href")];
      WriteFound(found);
      WriteNotFound(notFound);
      writer := writer + [Close("D:response")];
      parts := parts + [part];
      ResponseShape(old(writer), part);
      AddingPart(old(parts), part);
    }

    /** The 200 propstat, unless there is nothing to put in it. */
    method WriteFound(found: seq<PropValue>)
      modifies this`writer
      ensures writer == old(writer) + if found == [] then [] else Propstat(PropsTokens(found), STATUS_OK)
    {
      if found == [] { return; }
      writer := writer + [Open("D:propstat", []), Open("D:prop", [])];
      WriteProps(found);
      ClosePropstat(STATUS_OK);
      PropstatShape(old(writer), PropsTokens(found), STATUS_OK);
    }

    method WriteProps(found: seq<PropValue>)
      modifies this`writer
      ensures writer == old(writer) + PropsTokens(found)
    {
      ghost var before := writer;
      TakeAll(found);
      for i := 0 to |found|
        invariant writer == before + PropsTokens(found[..i])
      {
        WriteProp(found[i]);
        TakeOneMore(found, i);
        PropsTokensAppend(found[..i], found[i]);
        Associative(before, PropsTokens(found[..i]), PropTokens(found[i]));
      }
    }

    /** The 404 propstat, unless there is nothing to put in it. */
    method WriteNotFound(notFound: seq<string>)
      modifies this`writer
      ensures writer == old(writer) + if notFound == [] then [] else Propstat(LeafTokens(notFound), STATUS_NOT_FOUND)
    {
      if notFound == [] { return; }
      writer := writer + [Open("D:propstat", []), Open("D:prop", [])];
      WriteNames(notFound);
      ClosePropstat(STATUS_NOT_FOUND);
      PropstatShape(old(writer), LeafTokens(notFound), STATUS_NOT_FOUND);
    }

    method WriteNames(names: seq<string>)
      modifies this`writer
      ensures writer == old(writer) + LeafTokens(names)
    {
      ghost var before := writer;
      TakeAll(names);
      for i := 0 to |names|
        invariant writer == before + LeafTokens(names[..i])
      {
        writer := writer + [Leaf(names[i])];
        TakeOneMore(names, i);
        LeafTokensAppend(names[..i], names[i]);
        Associative(before, LeafTokens(names[..i]), [Leaf(names[i])]);
      }
    }

    method ClosePropstat(status: string)
      modifies this`writer
      ensures writer == old(writer) + [Close("D:prop"), Open("D:status", []), Chars(status), Close("D:status"),
                                       Close("D:propstat")]
    {
      writer := writer + [Close("D:prop"), Open("D:status", []), Chars(status), Close("D:status"), Close("D:propstat")];
    }

    method WriteProp(p: PropValue)
      modifies this`writer
      ensures writer == old(writer) + PropTokens(p)
    {
      var name := PrefixName(p.namespace, p.name);
      match p.value
      case Text(text) => writer := writer + [Open(name, [])] + [Chars(text)] + [Close(name)];
      case Xml(fragment) => writer := writer + [Open(name, [])] + fragment + [Close(name)];
      case Empty => writer := writer + [Leaf(name)];
    }

    method AddSyncToken(token: string)
      requires Valid()
      modifies this
      ensures Valid() && parts == old(parts) + [SyncTokenPart(token)]
    {
      writer := writer + [Open("D:sync-token", [])];
      writer := writer + [Chars(token)];
      writer := writer + [Close("D:sync-token")];
      parts := parts + [SyncTokenPart(token)];
      AddingPart(old(parts), SyncTokenPart(token));
    }

    method Build() returns (document: seq<XmlToken>)
      requires Valid()
      modifies this
      ensures document == Document(old(parts))
    {
      writer := writer + [Close("D:multistatus")];
      document := writer;
    }
  }

  lemma {:induction false} PropstatShape(before: seq<XmlToken>, props: seq<XmlToken>, status: string)
    ensures before + [Open("D:propstat", []), Open("D:prop", [])] + props
            + [Close("D:prop"), Open("D:status", []), Chars(status), Close("D:status"), Close("D:propstat")]
            == before + Propstat(props, status)
  {
  }

  lemma {:induction false} ResponseShape(before: seq<XmlToken>, part: Part)
    requires part.Response?
    ensures before + [Open("D:response", [])] + [Open("D:href", []), Chars(part.href), Close("D:href")]
            + (if part.found == [] then [] else Propstat(PropsTokens(part.found), STATUS_OK))
            + (if part.notFound == [] then [] else Propstat(LeafTokens(part.notFound), STATUS_NOT_FOUND))
            + [Close("D:response")]
            == before + PartTokens(part)
  {
    var href := Element("D:href", [Chars(part.href)]);
    assert href == [Open("D:href", []), Chars(part.href), Close("D:href")];
  }

  lemma {:induction false} AddingPart(parts: seq<Part>, part: Part)
    ensures PREAMBLE + PartsTokens(parts + [part]) == PREAMBLE + PartsTokens(parts) + PartTokens(part)
  {
    PartsTokensAppend(parts, [part]);
    assert PartsTokens([part]) == PartTokens(part) + PartsTokens([]) by { assert [part][1..] == []; }
  }

  // Well-nested output --------------------------------------------------------------------------------

  /** Run a stack of open elements over the tokens; None on a closing tag that does not match. */
  function Nest(ts: seq<XmlToken>, stack: seq<string>): Option<seq<string>> {
    if ts == [] then Some(stack)
    else match ts[0]
      case Open(name, _) => Nest(ts[1..], [name] + stack)
      case Close(name) => if stack != [] && stack[0] == name then Nest(ts[1..], stack[1..]) else None
      case _ => Nest(ts[1..], stack)
  }

  predicate Balanced(ts: seq<XmlToken>) { Nest(ts, []) == Some([]) }

  /** Raw fragments among the properties are balanced. */
  ghost predicate Tidy(parts: seq<Part>) {
    forall part, p :: part in parts && part.Response? && p in part.found && p.value.Xml? ==> Balanced(p.value.fragment)
  }

  lemma {:induction false} NestAppend(ts: seq<XmlToken>, more: seq<XmlToken>, stack: seq<string>)
    ensures Nest(ts + more, stack) == match Nest(ts, stack) case None => None case Some(s) => Nest(more, s)
    decreases |ts|
  {
    if ts == [] {
      assert ts + more == more;
    } else {
      assert (ts + more)[1..] == ts[1..] + more;
      match ts[0]
      case Open(name, _) => NestAppend(ts[1..], more, [name] + stack);
      case Close(name) => if stack != [] && stack[0] == name { NestAppend(ts[1..], more, stack[1..]); }
      case _ => NestAppend(ts[1..], more, stack);
    }
  }

  lemma {:induction false} NestDeeper(ts: seq<XmlToken>, stack: seq<string>, below: seq<string>)
    requires Nest(ts, stack).Some?
    ensures Nest(ts, stack + below) == Some(Nest(ts, stack).value + below)
    decreases |ts|
  {
    if ts != [] {
      match ts[0]
      case Open(name, _) =>
        assert [name] + stack + below == [name] + (stack + below);
        NestDeeper(ts[1..], [name] + stack, below);
      case Close(name) =>
        assert (stack + below)[1..] == stack[1..] + below;
        NestDeeper(ts[1..], stack[1..], below);
      case _ => NestDeeper(ts[1..], stack, below);
    }
  }

  lemma {:induction false} BalancedAppend(a: seq<XmlToken>, b: seq<XmlToken>)
    requires Balanced(a) && Balanced(b)
    ensures Balanced(a + b)
  {
    NestAppend(a, b, []);
  }

  lemma {:induction false} BalancedTagged(name: string, attributes: seq<(string, string)>, content: seq<XmlToken>)
    requires Balanced(content)
    ensures Balanced([Open(name, attributes)] + (content + [Close(name)]))
  {
    var open, rest := Open(name, attributes), content + [Close(name)];
    TailOfCons(open, rest);
    NothingBefore([name]);
    NestDeeper(content, [], [name]);
    NestAppend(content, [Close(name)], [name]);
    assert [Close(name)][1..] == [] && [name][1..] == [];
  }

  lemma {:induction false} BalancedElement(name: string, content: seq<XmlToken>)
    requires Balanced(content)
    ensures Balanced(Element(name, content))
  {
    BalancedTagged(name, [], content);
    Associative([Open(name, [])], content, [Close(name)]);
  }

  lemma {:induction false} BalancedChars(text: string)
    ensures Balanced([Chars(text)])
  {
  }

  lemma {:induction false} BalancedProps(ps: seq<PropValue>)
    requires forall p :: p in ps && p.value.Xml? ==> Balanced(p.value.fragment)
    ensures Balanced(PropsTokens(ps))
  {
    if ps != [] {
      BalancedProps(ps[1..]);
      var name := PrefixName(ps[0].namespace, ps[0].name);
      match ps[0].value {
        case Text(text) => BalancedChars(text); BalancedElement(name, [Chars(text)]);
        case Xml(fragment) => BalancedElement(name, fragment);
        case Empty => assert [Leaf(name)][1..] == [];
      }
      BalancedAppend(PropTokens(ps[0]), PropsTokens(ps[1..]));
    }
  }

  lemma {:induction false} BalancedLeaves(names: seq<string>)
    ensures Balanced(LeafTokens(names))
  {
    if names != [] {
      BalancedLeaves(names[1..]);
      assert [Leaf(names[0])][1..] == [];
      BalancedAppend([Leaf(names[0])], LeafTokens(names[1..]));
    }
  }

  lemma {:induction false} BalancedPropstat(props: seq<XmlToken>, status: string)
    requires Balanced(props)
    ensures Balanced(Propstat(props, status))
  {
    BalancedElement("D:prop", props);
    BalancedChars(status);
    BalancedElement("D:status", [Chars(status)]);
    BalancedAppend(Element("D:prop", props), Element("D:status", [Chars(status)]));
    BalancedElement("D:propstat", Element("D:prop", props) + Element("D:status", [Chars(status)]));
  }

  lemma {:induction false} BalancedPart(part: Part)
    requires Tidy([part])
    ensures Balanced(PartTokens(part))
  {
    match part
    case SyncTokenPart(token) =>
      BalancedChars(token);
      BalancedElement("D:sync-token", [Chars(token)]);
    case Response(href, found, notFound) =>
      assert part in [part];
      BalancedProps(found);
      BalancedLeaves(notFound);
      BalancedPropstat(PropsTokens(found), STATUS_OK);
      BalancedPropstat(LeafTokens(notFound), STATUS_NOT_FOUND);
      BalancedChars(href);
      BalancedElement("D:href", [Chars(href)]);
      var ok := if found == [] then [] else Propstat(PropsTokens(found), STATUS_OK);
      var missing := if notFound == [] then [] else Propstat(LeafTokens(notFound), STATUS_NOT_FOUND);
      BalancedAppend(Element("D:href", [Chars(href)]), ok);
      BalancedAppend(Element("D:href", [Chars(href)]) + ok, missing);
      BalancedElement("D:response", Element("D:href", [Chars(href)]) + ok + missing);
  }

  lemma {:induction false} BalancedParts(parts: seq<Part>)
    requires Tidy(parts)
    ensures Balanced(PartsTokens(parts))
  {
    if parts != [] {
      BalancedParts(parts[1..]);
      BalancedPart(parts[0]);
      BalancedAppend(PartTokens(parts[0]), PartsTokens(parts[1..]));
    }
  }

  /**
   Any calls on a new builder followed by `Build` yield one root element around balanced content.
   */
  lemma {:induction false} WellNestedDocument(parts: seq<Part>)
    requires Tidy(parts)
    ensures Balanced(Document(parts))
    ensures var d := Document(parts);
            d[0] == Decl && d[1].Open? && d[|d| - 1] == Close(d[1].name) && Balanced(d[2..|d| - 1])
  {
    var content := PartsTokens(parts);
    var rest := content + [Close("D:multistatus")];
    BalancedParts(parts);
    BalancedTagged("D:multistatus", ROOT_ATTRIBUTES, content);
    Associative(PREAMBLE, content, [Close("D:multistatus")]);
    Associative([Decl], [Open("D:multistatus", ROOT_ATTRIBUTES)], rest);
    TailOfCons(Decl, [Open("D:multistatus", ROOT_ATTRIBUTES)] + rest);
    assert Document(parts)[2..|Document(parts)| - 1] == content;
  }
}
