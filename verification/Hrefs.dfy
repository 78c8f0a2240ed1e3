/** Hrefs of calendar objects: how reports print them and how a multiget reads the uid back. */
module Hrefs {
  import opened Wrappers
  import opened Strings

  /** The email is already encoded for a path. */
  datatype HrefContext = HrefContext(email: Option<string>, username: string)

  function CollectionPath(ctx: HrefContext, c: string): string {
    match ctx.email
    case Some(email) => "/calendar/dav/" + email + "/user/" + c + "/"
    case None => "/caldav/users/" + ctx.username + "/" + c + "/"
  }

  const SUFFIX := ".ics"

  function ObjectHref(ctx: HrefContext, c: string, u: string): string {
    CollectionPath(ctx, c) + u + SUFFIX
  }

  lemma {:induction false} HrefInjective(ctx: HrefContext, c: string, u: string, v: string)
    requires ObjectHref(ctx, c, u) == ObjectHref(ctx, c, v)
    ensures u == v
  {
    var p := CollectionPath(ctx, c);
    var hu, hv := ObjectHref(ctx, c, u), ObjectHref(ctx, c, v);
    assert u == hu[|p|..|hu| - |SUFFIX|] && v == hv[|p|..|hv| - |SUFFIX|];
  }

  /** A path split at its slashes. */
  function Segments(path: string): seq<string>
    decreases |path|
  {
    match IndexOf(path, '/')
    case Some(i) => [path[..i]] + Segments(path[i + 1..])
    case None => [path]
  }

  lemma {:induction false} FirstSegment(first: string, rest: string)
    requires '/' !in first
    ensures Segments(first + "/" + rest) == [first] + Segments(rest)
  {
    var path := first + "/" + rest;
    assert path[..|first|] == first && path[|first|] == '/' && path[|first| + 1..] == rest;
    IndexIs(path, '/', |first|);
  }

  function Path(segments: seq<string>): string {
    if segments == [] then ""
    else if |segments| == 1 then segments[0]
    else segments[0] + "/" + Path(segments[1..])
  }

  lemma {:induction false} SegmentsOfPath(segments: seq<string>)
    requires segments != [] && forall i :: 0 <= i < |segments| ==> '/' !in segments[i]
    ensures Segments(Path(segments)) == segments
    decreases |segments|
  {
    if |segments| == 1 {
      assert segments == [segments[0]];
    } else {
      assert forall i :: 0 <= i < |segments[1..]| ==> segments[1..][i] == segments[i + 1];
      SegmentsOfPath(segments[1..]);
      FirstSegment(segments[0], Path(segments[1..]));
      assert segments == [segments[0]] + segments[1..];
    }
  }

  /** Two segments and a slash are put in front of a path. */
  lemma {:induction false} LongerPath(a: string, b: string, rest: seq<string>)
    requires rest != []
    ensures Path([a, b] + rest) == a + "/" + (b + "/" + Path(rest))
  {
    var all := [a, b] + rest;
    assert all[1..] == [b] + rest && all[1..][1..] == rest;
  }

  lemma {:induction false} ObjectPath(c: string, u: string)
    ensures Path([c, u + ".ics"]) == c + "/" + (u + ".ics")
  {
    var all := [c, u + ".ics"];
    assert all[1..] == [u + ".ics"];
  }

  function RouteSegments(ctx: HrefContext, c: string, u: string): seq<string> {
    match ctx.email
    case Some(email) => ["", "calendar", "dav", email, "user", c, u + ".ics"]
    case None => ["", "caldav", "users", ctx.username, c, u + ".ics"]
  }

  /**
   An emitted href is a path of the object routes: its segments are those of
   `/caldav/users/{username}/{calendar_id}/{filename}` or `/calendar/dav/{email}/user/{calendar_id}/{filename}`,
   and the file name is the uid with `.ics` behind it.
   */
  lemma {:induction false} HrefSegments(ctx: HrefContext, c: string, u: string)
    requires '/' !in c && '/' !in u && '/' !in ctx.username && (ctx.email.Some? ==> '/' !in ctx.email.value)
    ensures Segments(ObjectHref(ctx, c, u)) == RouteSegments(ctx, c, u)
  {
    if ctx.email.Some? { EmailPath(ctx, c, u); } else { UserPath(ctx, c, u); }
    SegmentsOfPath(RouteSegments(ctx, c, u));
  }

  lemma {:induction false} UserPath(ctx: HrefContext, c: string, u: string)
    requires ctx.email.None?
    ensures Path(RouteSegments(ctx, c, u)) == ObjectHref(ctx, c, u)
  {
    var last := [c, u + ".ics"];
    var more := ["users", ctx.username] + last;
    ObjectPath(c, u);
    LongerPath("users", ctx.username, last);
    LongerPath("", "caldav", more);
    assert RouteSegments(ctx, c, u) == ["", "caldav"] + more;
    Flat("caldav", "users", ctx.username, c, u);
    assert "/caldav/users/" == "/" + "caldav" + "/" + "users" + "/";
  }

  lemma {:induction false} Flat(a: string, b: string, user: string, c: string, u: string)
    ensures "" + "/" + (a + "/" + (b + "/" + (user + "/" + (c + "/" + (u + ".ics")))))
         == ("/" + a + "/" + b + "/") + user + "/" + c + "/" + u + ".ics"
  {
  }

  lemma {:induction false} EmailPath(ctx: HrefContext, c: string, u: string)
    requires ctx.email.Some?
    ensures Path(RouteSegments(ctx, c, u)) == ObjectHref(ctx, c, u)
  {
    var email, file := ctx.email.value, [u + ".ics"];
    var last := ["user", c] + file;
    var more := ["dav", email] + last;
    LongerPath("user", c, file);
    LongerPath("dav", email, last);
    LongerPath("", "calendar", more);
    assert RouteSegments(ctx, c, u) == ["", "calendar"] + more;
    FlatEmail(email, c, u);
    assert "/calendar/dav/" == "/" + "calendar" + "/" + "dav" + "/";
  }

  lemma {:induction false} FlatEmail(email: string, c: string, u: string)
    ensures "" + "/" + ("calendar" + "/" + ("dav" + "/" + (email + "/" + ("user" + "/" + (c + "/" + (u + ".ics"))))))
         == ("/" + "calendar" + "/" + "dav" + "/") + email + "/user/" + c + "/" + u + ".ics"
  {
    assert "/user/" == "/" + "user" + "/";
  }

  // Percent encoding ------------------------------------------------------------------------------------

  function EncodeEmail(email: string): string {
    if email == "" then ""
    else (if email[0] == '@' then "%40" else [email[0]]) + EncodeEmail(email[1..])
  }

  function HexDigit(ch: char): Option<nat> {
    if '0' <= ch <= '9' then Some((ch - '0') as nat)
    else if 'a' <= ch <= 'f' then Some((ch - 'a') as nat + 10)
    else if 'A' <= ch <= 'F' then Some((ch - 'A') as nat + 10)
    else None
  }

  /** Two characters read in base 16; like the library call it models, it takes a leading plus sign. */
  function HexByte(h1: char, h2: char): (r: Option<nat>)
    ensures r.Some? ==> r.value < 256
  {
    match (HexDigit(h1), HexDigit(h2))
    case (Some(a), Some(b)) => Some(16 * a + b)
    case (None, Some(b)) => if h1 == '+' then Some(b) else None
    case _ => None
  }

  /**
   The decoded text. A percent sign always consumes the two characters behind it; when they are no
   byte, the sign stays and they are lost.
   */
  function Decoded(s: string): string {
    if s == "" then ""
    else if s[0] != '%' then [s[0]] + Decoded(s[1..])
    else if |s| < 3 then "%"
    else
      match HexByte(s[1], s[2])
      case Some(b) => [b as char] + Decoded(s[3..])
      case None => "%" + Decoded(s[3..])
  }

  method PercentDecode(s: string) returns (out: string)
    ensures out == Decoded(s)
  {
    out := "";
    var chars := s;
    while chars != ""
      invariant out + Decoded(chars) == Decoded(s)
      decreases |chars|
    {
      var ch;
      ghost var before := out;
      ch, chars := DecodeNext(chars);
      out := out + [ch];
      assert before + ([ch] + Decoded(chars)) == out + Decoded(chars);
    }
  }

  /** One round of the decoding loop: the character it pushes and what the iterator has left. */
  method DecodeNext(s: string) returns (ch: char, rest: string)
    requires s != ""
    ensures Decoded(s) == [ch] + Decoded(rest) && |rest| < |s|
  {
    var first, h1, h2;
    first, rest := NextChar(s);
    ch := first.value;
    if ch == '%' {
      h1, rest := NextChar(rest);
      h2, rest := NextChar(rest);
      if h1.Some? && h2.Some? {
        assert rest == s[3..];
        var byte := HexByte(h1.value, h2.value);
        if byte.Some? {
          ch := byte.value as char;
        }
      }
    }
  }

  /** Take the next character off an iterator. */
  method NextChar(chars: string) returns (ch: Option<char>, rest: string)
    ensures if chars == "" then ch == None && rest == "" else ch == Some(chars[0]) && rest == chars[1..]
  {
    if chars == "" { return None, ""; }
    return Some(chars[0]), chars[1..];
  }

  /** No percent sign stands before another character. */
  predicate PlainPercent(s: string) {
    forall i :: 0 <= i < |s| - 1 ==> s[i] != '%'
  }

  lemma {:induction false} DecodedLength(s: string)
    ensures |Decoded(s)| <= |s|
    ensures !PlainPercent(s) ==> |Decoded(s)| < |s|
  {
    if s == "" {
    } else if s[0] != '%' {
      DecodedLength(s[1..]);
      if !PlainPercent(s) {
        var i :| 0 <= i < |s| - 1 && s[i] == '%';
        assert s[1..][i - 1] == '%';
      }
    } else if |s| >= 3 {
      DecodedLength(s[3..]);
    }
  }

  /** Decoding leaves a text alone exactly when it has no percent sign before another character. */
  lemma {:induction false} DecodedSame(s: string)
    ensures Decoded(s) == s <==> PlainPercent(s)
  {
    DecodedLength(s);
    if PlainPercent(s) && s != "" && s[0] != '%' {
      DecodedSame(s[1..]);
      assert PlainPercent(s[1..]);
    }
  }

  // Any percent encoding -----------------------------------------------------------------------------------

  const LOWER_DIGITS := "0123456789abcdef"
  const UPPER_DIGITS := "0123456789ABCDEF"

  type HexValue = n: nat | n < 16

  /** A character as it is, or one below 256 by its two hexadecimal digits, each in either case. */
  datatype Piece = Plain(ch: char) | Escaped(high: HexValue, low: HexValue, upperHigh: bool, upperLow: bool)

  function DigitChar(n: HexValue, upper: bool): char { if upper then UPPER_DIGITS[n] else LOWER_DIGITS[n] }

  function PieceText(piece: Piece): string {
    match piece
    case Plain(ch) => [ch]
    case Escaped(high, low, upperHigh, upperLow) => ['%', DigitChar(high, upperHigh), DigitChar(low, upperLow)]
  }

  function PieceChar(piece: Piece): char {
    match piece
    case Plain(ch) => ch
    case Escaped(high, low, _, _) =>
      assert 16 * high + low < 256;
      (16 * high + low) as char
  }

  function Encoded(pieces: seq<Piece>): string {
    if pieces == [] then "" else PieceText(pieces[0]) + Encoded(pieces[1..])
  }

  function Meant(pieces: seq<Piece>): string {
    if pieces == [] then "" else [PieceChar(pieces[0])] + Meant(pieces[1..])
  }

  /** A hexadecimal digit, in either case, stands for its place among the digits. */
  lemma {:induction false} HexDigitIff(ch: char, n: nat)
    ensures HexDigit(ch) == Some(n) <==> n < 16 && (ch == LOWER_DIGITS[n] || ch == UPPER_DIGITS[n])
  {
  }

  /** Two characters are taken for a byte exactly when they are hexadecimal digits, or a plus sign and one. */
  lemma {:induction false} HexByteIff(h1: char, h2: char)
    ensures HexByte(h1, h2).Some? <==>
            (h1 in LOWER_DIGITS + UPPER_DIGITS || h1 == '+') && h2 in LOWER_DIGITS + UPPER_DIGITS
    ensures HexByte('+', h2) == HexDigit(h2)
  {
    DigitIff(h1);
    DigitIff(h2);
  }

  lemma {:induction false} DigitIff(ch: char)
    ensures HexDigit(ch).Some? <==> ch in LOWER_DIGITS + UPPER_DIGITS
  {
    if HexDigit(ch).Some? {
      HexDigitIff(ch, HexDigit(ch).value);
    }
    if i :| 0 <= i < 32 && (LOWER_DIGITS + UPPER_DIGITS)[i] == ch {
      HexDigitIff(ch, if i < 16 then i else i - 16);
    }
  }

  lemma {:induction false} DecodedPiece(piece: Piece, rest: string)
    requires piece != Plain('%')
    ensures Decoded(PieceText(piece) + rest) == [PieceChar(piece)] + Decoded(rest)
  {
    var text := PieceText(piece) + rest;
    match piece
    case Plain(ch) =>
      assert text[0] == ch && text[1..] == rest;
    case Escaped(high, low, upperHigh, upperLow) =>
      HexDigitIff(DigitChar(high, upperHigh), high);
      HexDigitIff(DigitChar(low, upperLow), low);
      assert text[0] == '%' && text[1] == DigitChar(high, upperHigh) && text[2] == DigitChar(low, upperLow);
      assert text[3..] == rest;
  }

  /** Whatever a client chooses to escape, and in whatever case, decoding gives back what it means. */
  lemma {:induction false} DecodedMeans(pieces: seq<Piece>)
    requires Plain('%') !in pieces
    ensures Decoded(Encoded(pieces)) == Meant(pieces)
    decreases |pieces|
  {
    if pieces != [] {
      DecodedPiece(pieces[0], Encoded(pieces[1..]));
      DecodedMeans(pieces[1..]);
    }
  }

  /** Decoding undoes the email encoding on text without percent signs, and the encoding leaves no at sign. */
  lemma {:induction false} DecodeEncoded(email: string)
    requires '%' !in email
    ensures Decoded(EncodeEmail(email)) == email && '@' !in EncodeEmail(email)
  {
    if email != "" {
      DecodeEncoded(email[1..]);
      var rest := EncodeEmail(email[1..]);
      if email[0] == '@' {
        assert EncodeEmail(email)[3..] == rest;
        assert EncodeEmail(email)[1] == '4' && EncodeEmail(email)[2] == '0';
      } else {
        assert EncodeEmail(email)[1..] == rest;
      }
    }
  }

  // Uids of hrefs ----------------------------------------------------------------------------------------

  /** The text after the last slash. */
  function LastSegment(s: string): string {
    if s == "" then "" else if s[|s| - 1] == '/' then "" else LastSegment(s[..|s| - 1]) + [s[|s| - 1]]
  }

  function StripSuffix(s: string, suffix: string): Option<string> {
    if |suffix| <= |s| && s[|s| - |suffix|..] == suffix then Some(s[..|s| - |suffix|]) else None
  }

  /** The uid a multiget reads out of an href; None when the last segment is no `.ics` name. */
  function UidOf(href: string): Option<string> {
    match StripSuffix(LastSegment(href), SUFFIX)
    case Some(name) => Some(Decoded(name))
    case None => None
  }

  lemma {:induction false} LastSegmentIs(s: string) returns (front: string)
    ensures s == front + LastSegment(s) && '/' !in LastSegment(s)
    ensures front == "" || front[|front| - 1] == '/'
    decreases |s|
  {
    if s == "" || s[|s| - 1] == '/' {
      front := s;
    } else {
      front := LastSegmentIs(s[..|s| - 1]);
      assert s == s[..|s| - 1] + [s[|s| - 1]];
    }
  }

  /** What stands behind the last slash of an href, when that is `name.ics`. */
  ghost predicate FileName(href: string, name: string) {
    && '/' !in name
    && exists front :: href == front + (name + ".ics") && (front == "" || front[|front| - 1] == '/')
  }

  /** A multiget reads a uid out of any href exactly when its last segment is `name.ics`: the decoded name. */
  lemma {:induction false} UidOfIff(href: string, u: string)
    ensures UidOf(href) == Some(u) <==> exists name :: FileName(href, name) && u == Decoded(name)
  {
    var front := LastSegmentIs(href);
    var last := LastSegment(href);
    if UidOf(href) == Some(u) {
      var name := StripSuffix(last, SUFFIX).value;
      assert last == name + ".ics";
      assert FileName(href, name);
    }
    if name :| FileName(href, name) && u == Decoded(name) {
      var front' :| href == front' + (name + ".ics") && (front' == "" || front'[|front'| - 1] == '/');
      LastSegmentBehind(front', name + ".ics");
      assert StripSuffix(name + ".ics", SUFFIX) == Some(name);
    }
  }

  lemma {:induction false} LastSegmentBehind(front: string, name: string)
    requires front == "" || front[|front| - 1] == '/'
    requires '/' !in name
    ensures LastSegment(front + name) == name
  {
    LastSegmentExtended(front, name);
  }

  lemma {:induction false} LastSegmentOf(path: string, s: string)
    requires path != "" && path[|path| - 1] == '/'
    ensures LastSegment(path + s) == LastSegment(s)
    ensures '/' !in s <==> LastSegment(s) == s
    ensures |LastSegment(s)| <= |s|
    ensures LastSegment(path + (s + SUFFIX)) == LastSegment(s) + SUFFIX
    decreases |s|
  {
    if s != "" {
      assert (path + s)[..|path + s| - 1] == path + s[..|s| - 1];
      LastSegmentOf(path, s[..|s| - 1]);
      assert s == s[..|s| - 1] + [s[|s| - 1]];
    } else {
      assert path + s == path;
    }
    LastSegmentExtended(path + s, SUFFIX);
    assert path + (s + SUFFIX) == path + s + SUFFIX;
  }

  lemma {:induction false} LastSegmentExtended(s: string, more: string)
    requires '/' !in more
    ensures LastSegment(s + more) == LastSegment(s) + more
    decreases |more|
  {
    if more == "" {
      assert s + more == s;
    } else {
      var n := |more| - 1;
      assert more == more[..n] + [more[n]];
      assert (s + more)[..|s + more| - 1] == s + more[..n];
      LastSegmentExtended(s, more[..n]);
    }
  }

  /**
   An emitted href reads back to its uid exactly when the uid has no slash, and no percent sign before
   another character.
   */
  lemma {:induction false} HrefRoundTrip(ctx: HrefContext, c: string, u: string)
    ensures UidOf(ObjectHref(ctx, c, u)) == Some(u) <==> '/' !in u && PlainPercent(u)
  {
    var path := CollectionPath(ctx, c);
    assert path[|path| - 1] == '/';
    LastSegmentOf(path, u);
    assert ObjectHref(ctx, c, u) == path + (u + SUFFIX);
    var name := LastSegment(u);
    assert StripSuffix(name + SUFFIX, SUFFIX) == Some(name) by {
      assert (name + SUFFIX)[|name|..] == SUFFIX && (name + SUFFIX)[..|name|] == name;
    }
    if '/' in u {
      DecodedLength(name);
      assert |name| < |u| by { LastSegmentShorter(u); }
    } else {
      DecodedSame(u);
    }
  }

  lemma {:induction false} LastSegmentShorter(s: string)
    requires '/' in s
    ensures |LastSegment(s)| < |s|
    decreases |s|
  {
    var n := |s| - 1;
    assert s == s[..n] + [s[n]];
    if s[n] != '/' { LastSegmentShorter(s[..n]); }
  }
}
