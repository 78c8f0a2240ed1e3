/**
 A client's reading of a multistatus document, written from the document grammar alone.

 `ReadBack` shows that what the builder writes determines what the client sees: each response in call
 order, its href, its properties under their prefixed names, and the sync token.
 */
module ClientReader {
  import opened Wrappers
  import opened Sequences
  import opened Namespaces
  import opened Multistatus

  /** A property as read: no content for a self-closing element. */
  datatype SeenProp = SeenProp(name: string, content: Option<seq<XmlToken>>)

  datatype Seen =
    | SeenResponse(href: string, found: seq<SeenProp>, missing: seq<SeenProp>)
    | SeenToken(token: string)

  /** The number of tokens before the closing tag of the element that is open around them. */
  function ContentLength(ts: seq<XmlToken>, depth: nat): (r: Option<nat>)
    ensures r.Some? ==> r.value < |ts| && ts[r.value].Close?
  {
    if ts == [] then None
    else if ts[0].Close? && depth == 0 then Some(0)
    else
      var rest := ContentLength(ts[1..], if ts[0].Open? then depth + 1 else if ts[0].Close? then depth - 1 else depth);
      match rest case Some(n) => Some(n + 1) case None => None
  }

  /** Read properties up to the end of the `prop` element. */
  function ReadProps(ts: seq<XmlToken>): (r: Option<(seq<SeenProp>, seq<XmlToken>)>)
    ensures r.Some? ==> |r.value.1| < |ts|
    decreases |ts|
  {
    if ts == [] then None
    else if ts[0] == Close("D:prop") then Some(([], ts[1..]))
    else if ts[0].Leaf? then
      match ReadProps(ts[1..])
      case Some((props, rest)) => Some(([SeenProp(ts[0].name, None)] + props, rest))
      case None => None
    else if ts[0].Open? then
      match ContentLength(ts[1..], 0)
      case None => None
      case Some(n) =>
        match ReadProps(ts[n + 2..])
        case Some((props, rest)) => Some(([SeenProp(ts[0].name, Some(ts[1..n + 1]))] + props, rest))
        case None => None
    else None
  }

  /** Read propstat elements up to the end of the response, sorting properties by status. */
  function ReadPropstats(ts: seq<XmlToken>): (r: Option<(seq<SeenProp>, seq<SeenProp>, seq<XmlToken>)>)
    ensures r.Some? ==> |r.value.2| < |ts|
    decreases |ts|
  {
    if |ts| > 0 && ts[0] == Close("D:response") then Some(([], [], ts[1..]))
    else if |ts| > 1 && ts[..2] == [Open("D:propstat", []), Open("D:prop", [])] then
      match ReadProps(ts[2..])
      case None => None
      case Some((props, rest)) =>
        if |rest| > 3 && rest[0] == Open("D:status", []) && rest[1].Chars?
            && rest[2..4] == [Close("D:status"), Close("D:propstat")] then
          match ReadPropstats(rest[4..])
          case None => None
          case Some((found, missing, after)) =>
            if rest[1].text == "HTTP/1.1 200 OK" then Some((props + found, missing, after))
            else if rest[1].text == "HTTP/1.1 404 Not Found" then Some((found, props + missing, after))
            else None
        else None
    else None
  }

  /** Read the children of the root up to its closing tag, which must be the last token. */
  function ReadParts(ts: seq<XmlToken>): Option<seq<Seen>>
    decreases |ts|
  {
    if ts == [Close("D:multistatus")] then Some([])
    else if |ts| > 3 && ts[0] == Open("D:sync-token", []) && ts[1].Chars? && ts[2] == Close("D:sync-token") then
      match ReadParts(ts[3..])
      case Some(seen) => Some([SeenToken(ts[1].text)] + seen)
      case None => None
    else if |ts| > 4 && ts[0] == Open("D:response", []) && ts[1] == Open("D:href", []) && ts[2].Chars?
            && ts[3] == Close("D:href") then
      match ReadPropstats(ts[4..])
      case None => None
      case Some((found, missing, rest)) =>
        match ReadParts(rest)
        case Some(seen) => Some([SeenResponse(ts[2].text, found, missing)] + seen)
        case None => None
    else None
  }

  /** The prefixes that a client expects the root to declare. */
  const PREFIXES: seq<(string, string)> :=
    [("xmlns:D", "DAV:"), ("xmlns:C", "urn:ietf:params:xml:ns:caldav"), ("xmlns:A", "http://apple.com/ns/ical/"),
     ("xmlns:CS", "http://calendarserver.org/ns/")]

  function ReadDocument(ts: seq<XmlToken>): Option<seq<Seen>> {
    if |ts| > 1 && ts[0] == Decl && ts[1] == Open("D:multistatus", PREFIXES) then ReadParts(ts[2..]) else None
  }

  // What a call should look like to the reader ---------------------------------------------------------

  function SeenPropOf(p: PropValue): SeenProp {
    SeenProp(PrefixName(p.namespace, p.name),
             match p.value
             case Text(text) => Some([Chars(text)])
             case Xml(fragment) => Some(fragment)
             case Empty => None)
  }

  function SeenPropsOf(ps: seq<PropValue>): seq<SeenProp> {
    if ps == [] then [] else [SeenPropOf(ps[0])] + SeenPropsOf(ps[1..])
  }

  function SeenNames(names: seq<string>): seq<SeenProp> {
    if names == [] then [] else [SeenProp(names[0], None)] + SeenNames(names[1..])
  }

  function SeenPart(part: Part): Seen {
    match part
    case Response(href, found, notFound) => SeenResponse(href, SeenPropsOf(found), SeenNames(notFound))
    case SyncTokenPart(token) => SeenToken(token)
  }

  function SeenParts(parts: seq<Part>): seq<Seen> {
    if parts == [] then [] else [SeenPart(parts[0])] + SeenParts(parts[1..])
  }

  // The round trip ---------------------------------------------------------------------------------------

  lemma {:induction false} ContentEnds(content: seq<XmlToken>, stack: seq<string>, name: string, rest: seq<XmlToken>)
    requires Nest(content, stack) == Some([])
    ensures ContentLength(content + [Close(name)] + rest, |stack|) == Some(|content|)
    decreases |content|
  {
    var ts := content + [Close(name)] + rest;
    if content != [] {
      assert ts[1..] == content[1..] + [Close(name)] + rest;
      match content[0]
      case Open(n, _) => ContentEnds(content[1..], [n] + stack, name, rest);
      case Close(_) => ContentEnds(content[1..], stack[1..], name, rest);
      case _ => ContentEnds(content[1..], stack, name, rest);
    }
  }

  lemma {:induction false} ReadElement(name: string, content: seq<XmlToken>, rest: seq<XmlToken>)
    requires Balanced(content)
    ensures ReadProps(Element(name, content) + rest) ==
            match ReadProps(rest)
            case Some((props, after)) => Some(([SeenProp(name, Some(content))] + props, after))
            case None => None
  {
    var ts := Element(name, content) + rest;
    ContentEnds(content, [], name, rest);
    assert ts[1..] == content + [Close(name)] + rest;
    assert ts[|content| + 2..] == rest && ts[1..|content| + 1] == content;
  }

  lemma {:induction false} ReadOneProp(p: PropValue, rest: seq<XmlToken>)
    requires p.value.Xml? ==> Balanced(p.value.fragment)
    ensures ReadProps(PropTokens(p) + rest) ==
            match ReadProps(rest)
            case Some((props, after)) => Some(([SeenPropOf(p)] + props, after))
            case None => None
  {
    var name := PrefixName(p.namespace, p.name);
    match p.value
    case Text(text) => BalancedChars(text); ReadElement(name, [Chars(text)], rest);
    case Xml(fragment) => ReadElement(name, fragment, rest);
    case Empty => assert ([Leaf(name)] + rest)[1..] == rest;
  }

  lemma {:induction false} ReadWrittenProps(ps: seq<PropValue>, rest: seq<XmlToken>)
    requires forall p :: p in ps && p.value.Xml? ==> Balanced(p.value.fragment)
    ensures ReadProps(PropsTokens(ps) + ([Close("D:prop")] + rest)) == Some((SeenPropsOf(ps), rest))
  {
    var tail := [Close("D:prop")] + rest;
    if ps == [] {
      NothingBefore(tail);
      assert tail[1..] == rest;
    } else {
      ReadWrittenProps(ps[1..], rest);
      ReadOneProp(ps[0], PropsTokens(ps[1..]) + tail);
      Associative(PropTokens(ps[0]), PropsTokens(ps[1..]), tail);
    }
  }

  lemma {:induction false} ReadWrittenNames(names: seq<string>, rest: seq<XmlToken>)
    ensures ReadProps(LeafTokens(names) + ([Close("D:prop")] + rest)) == Some((SeenNames(names), rest))
  {
    var tail := [Close("D:prop")] + rest;
    if names == [] {
      NothingBefore(tail);
      TailOfCons(Close("D:prop"), rest);
    } else {
      ReadWrittenNames(names[1..], rest);
      var leaf := Leaf(names[0]);
      Associative([leaf], LeafTokens(names[1..]), tail);
      TailOfCons(leaf, LeafTokens(names[1..]) + tail);
    }
  }

  function StatusEnd(status: string): seq<XmlToken> {
    [Open("D:status", []), Chars(status), Close("D:status"), Close("D:propstat")]
  }

  lemma {:induction false} SplitPropstat(props: seq<XmlToken>, status: string, rest: seq<XmlToken>)
    ensures Propstat(props, status) + rest ==
            [Open("D:propstat", []), Open("D:prop", [])] + (props + ([Close("D:prop")] + (StatusEnd(status) + rest)))
  {
  }

  lemma {:induction false} ReadWrittenPropstat(props: seq<XmlToken>, seen: seq<SeenProp>, status: string,
      rest: seq<XmlToken>)
    requires status == STATUS_OK || status == STATUS_NOT_FOUND
    requires ReadProps(props + ([Close("D:prop")] + (StatusEnd(status) + rest)))
        == Some((seen, StatusEnd(status) + rest))
    ensures ReadPropstats(Propstat(props, status) + rest) ==
            match ReadPropstats(rest)
            case Some((found, missing, after)) =>
              if status == STATUS_OK then Some((seen + found, missing, after)) else Some((found, seen + missing, after))
            case None => None
  {
    var front := [Open("D:propstat", []), Open("D:prop", [])];
    var tail := props + ([Close("D:prop")] + (StatusEnd(status) + rest));
    SplitPropstat(props, status, rest);
    assert (front + tail)[..2] == front && (front + tail)[2..] == tail;
    assert (StatusEnd(status) + rest)[4..] == rest;
    assert (StatusEnd(status) + rest)[2..4] == [Close("D:status"), Close("D:propstat")];
  }

  function OkTokens(found: seq<PropValue>): seq<XmlToken> {
    if found == [] then [] else Propstat(PropsTokens(found), STATUS_OK)
  }

  function MissingTokens(notFound: seq<string>): seq<XmlToken> {
    if notFound == [] then [] else Propstat(LeafTokens(notFound), STATUS_NOT_FOUND)
  }

  lemma {:induction false} ReadMissing(notFound: seq<string>, rest: seq<XmlToken>)
    ensures ReadPropstats(MissingTokens(notFound) + ([Close("D:response")] + rest))
        == Some(([], SeenNames(notFound), rest))
  {
    var end := [Close("D:response")] + rest;
    assert end[1..] == rest;
    assert ReadPropstats(end) == Some(([], [], rest));
    if notFound == [] {
      assert MissingTokens(notFound) + end == end;
    } else {
      ReadWrittenNames(notFound, StatusEnd(STATUS_NOT_FOUND) + end);
      ReadWrittenPropstat(LeafTokens(notFound), SeenNames(notFound), STATUS_NOT_FOUND, end);
      assert SeenNames(notFound) + [] == SeenNames(notFound);
    }
  }

  lemma {:induction false} ReadOk(found: seq<PropValue>, missing: seq<SeenProp>, ts: seq<XmlToken>, rest: seq<XmlToken>)
    requires forall p :: p in found && p.value.Xml? ==> Balanced(p.value.fragment)
    requires ReadPropstats(ts) == Some(([], missing, rest))
    ensures ReadPropstats(OkTokens(found) + ts) == Some((SeenPropsOf(found), missing, rest))
  {
    if found == [] {
      assert OkTokens(found) + ts == ts;
    } else {
      ReadWrittenProps(found, StatusEnd(STATUS_OK) + ts);
      ReadWrittenPropstat(PropsTokens(found), SeenPropsOf(found), STATUS_OK, ts);
      assert SeenPropsOf(found) + [] == SeenPropsOf(found);
    }
  }

  /** The tokens of a response after its href. */
  function AfterHref(part: Part, rest: seq<XmlToken>): seq<XmlToken>
    requires part.Response?
  {
    OkTokens(part.found) + (MissingTokens(part.notFound) + ([Close("D:response")] + rest))
  }

  lemma {:induction false} SplitResponse(part: Part, rest: seq<XmlToken>)
    requires part.Response?
    ensures PartTokens(part) + rest ==
            [Open("D:response", []), Open("D:href", []), Chars(part.href), Close("D:href")] + AfterHref(part, rest)
  {
    var ok, missing := OkTokens(part.found), MissingTokens(part.notFound);
    var open, close := [Open("D:response", [])], [Close("D:response")];
    var href := Element("D:href", [Chars(part.href)]);
    assert open + href == [Open("D:response", []), Open("D:href", []), Chars(part.href), Close("D:href")];
    FiveParts(open, href, ok, missing, close + rest);
    Associative(open + (href + ok + missing), close, rest);
  }

  lemma {:induction false} FiveParts<T>(a: seq<T>, b: seq<T>, c: seq<T>, d: seq<T>, e: seq<T>)
    ensures a + (b + c + d) + e == (a + b) + (c + (d + e))
  {
  }

  lemma {:induction false} ReadAfterHref(part: Part, rest: seq<XmlToken>)
    requires part.Response? && Tidy([part])
    ensures ReadPropstats(AfterHref(part, rest)) == Some((SeenPropsOf(part.found), SeenNames(part.notFound), rest))
  {
    assert part in [part];
    ReadMissing(part.notFound, rest);
    ReadOk(part.found, SeenNames(part.notFound), MissingTokens(part.notFound) + ([Close("D:response")] + rest), rest);
  }

  lemma {:induction false} ReadPart(part: Part, rest: seq<XmlToken>)
    requires Tidy([part]) && rest != []
    ensures ReadParts(PartTokens(part) + rest) ==
            match ReadParts(rest) case Some(seen) => Some([SeenPart(part)] + seen) case None => None
  {
    var ts := PartTokens(part) + rest;
    match part
    case SyncTokenPart(token) =>
      assert ts == [Open("D:sync-token", []), Chars(token), Close("D:sync-token")] + rest;
      assert ts[3..] == rest;
    case Response(href, found, notFound) =>
      SplitResponse(part, rest);
      ReadAfterHref(part, rest);
      assert ts[4..] == AfterHref(part, rest);
  }

  lemma {:induction false} ReadWrittenParts(parts: seq<Part>)
    requires Tidy(parts)
    ensures ReadParts(PartsTokens(parts) + [Close("D:multistatus")]) == Some(SeenParts(parts))
  {
    var end := [Close("D:multistatus")];
    if parts == [] {
      assert PartsTokens(parts) + end == end;
    } else {
      ReadWrittenParts(parts[1..]);
      ReadPart(parts[0], PartsTokens(parts[1..]) + end);
      assert PartsTokens(parts) + end == PartTokens(parts[0]) + (PartsTokens(parts[1..]) + end);
    }
  }

  /** Reading a built document gives back every call, in call order. */
  lemma {:induction false} ReadBack(parts: seq<Part>)
    requires Tidy(parts)
    ensures ReadDocument(Document(parts)) == Some(SeenParts(parts))
  {
    ReadWrittenParts(parts);
    DocumentShape(parts);
  }

  lemma {:induction false} DocumentShape(parts: seq<Part>)
    ensures Document(parts)[2..] == PartsTokens(parts) + [Close("D:multistatus")]
  {
  }
}
