/** Text operations of the Rust standard library that the parser uses. */
module Strings {
  import opened Wrappers
  import opened Sequences

  predicate StartsWith(s: string, prefix: string) { prefix <= s }

  function IndexOf(s: string, ch: char): (r: Option<nat>)
    ensures r.Some? <==> ch in s
    ensures r.Some? ==> r.value < |s| && s[r.value] == ch && ch !in s[..r.value]
  {
    if s == "" then None
    else if s[0] == ch then Some(0)
    else
      match IndexOf(s[1..], ch)
      case Some(i) => assert s[..i + 1] == [s[0]] + s[1..][..i]; Some(i + 1)
      case None => None
  }

  /** The lines of a text, split at line feeds; a final line feed starts no further line. */
  function Lines(s: string): seq<string>
    decreases |s|
  {
    if s == "" then []
    else
      match IndexOf(s, '\n')
      case Some(i) => [s[..i]] + Lines(s[i + 1..])
      case None => [s]
  }

  lemma {:induction false} IndexIs(s: string, ch: char, i: nat)
    requires i < |s| && s[i] == ch && ch !in s[..i]
    ensures IndexOf(s, ch) == Some(i)
  {
  }

  lemma {:induction false} IndexBehind(front: string, s: string, ch: char)
    requires ch !in front && ch in s
    ensures var i := IndexOf(s, ch).value;
            IndexOf(front + s, ch) == Some(|front| + i) && (front + s)[|front| + i + 1..] == s[i + 1..]
  {
    var i := IndexOf(s, ch).value;
    assert (front + s)[..|front| + i] == front + s[..i];
    IndexIs(front + s, ch, |front| + i);
  }

  lemma {:induction false} FirstLine(line: string, rest: string)
    requires '\n' !in line
    ensures Lines(line + "\n" + rest) == [line] + Lines(rest)
  {
    var s := line + "\n" + rest;
    assert s[..|line|] == line && s[|line|] == '\n' && s[|line| + 1..] == rest;
    IndexIs(s, '\n', |line|);
  }

  /** Lines, each with a line feed behind it. */
  function Terminated(lines: seq<string>): string {
    if lines == [] then "" else lines[0] + "\n" + Terminated(lines[1..])
  }

  /** The lines hold no line feed, and with one behind each they are the text, given one at its end. */
  lemma {:induction false} LinesAre(s: string)
    ensures forall line :: line in Lines(s) ==> '\n' !in line
    ensures Terminated(Lines(s)) == if s == "" || s[|s| - 1] == '\n' then s else s + "\n"
    decreases |s|
  {
    if '\n' in s {
      var i := IndexOf(s, '\n').value;
      LinesAre(s[i + 1..]);
      SplitAtFeed(s, i);
      MoreTerminated(s[..i], Lines(s[i + 1..]));
    } else if s != "" {
      MoreTerminated(s, []);
    }
  }

  lemma {:induction false} MoreTerminated(line: string, lines: seq<string>)
    ensures Terminated([line] + lines) == line + "\n" + Terminated(lines)
    ensures [line] + [] == [line] && line + "\n" + "" == line + "\n"
  {
    TailOfCons(line, lines);
  }

  lemma {:induction false} SplitAtFeed(s: string, i: nat)
    requires i < |s| && s[i] == '\n'
    ensures s == s[..i] + "\n" + s[i + 1..]
    ensures s + "\n" == s[..i] + "\n" + (s[i + 1..] + "\n")
    ensures s[|s| - 1] == if i == |s| - 1 then '\n' else s[i + 1..][|s| - i - 2]
  {
  }

  lemma {:induction false} RegroupLines(first: string, more: string, rest: string)
    ensures (first + "\n" + more) + "\n" + rest == first + "\n" + (more + "\n" + rest)
  {
  }

  lemma {:induction false} OneMoreLine(first: string, more: string, rest: string)
    requires '\n' !in first && Lines(more + "\n" + rest) == Lines(more) + Lines(rest)
    ensures Lines((first + "\n" + more) + "\n" + rest) == Lines(first + "\n" + more) + Lines(rest)
  {
    RegroupLines(first, more, rest);
    FirstLine(first, more);
    FirstLine(first, more + "\n" + rest);
    Associative([first], Lines(more), Lines(rest));
  }

  /** A line feed behind a text that does not end with one splits its lines from the rest. */
  lemma {:induction false} LinesSplit(s: string, rest: string)
    requires s != "" && s[|s| - 1] != '\n'
    ensures Lines(s + "\n" + rest) == Lines(s) + Lines(rest)
    decreases |s|
  {
    if '\n' !in s {
      FirstLine(s, rest);
    } else {
      var i := IndexOf(s, '\n').value;
      var first, more := s[..i], s[i + 1..];
      assert s == first + "\n" + more;
      LinesSplit(more, rest);
      OneMoreLine(first, more, rest);
    }
  }

  /** The first line starts as the text does. */
  lemma {:induction false} FirstLineStarts(s: string, front: string)
    requires front != "" && '\n' !in front && StartsWith(s, front)
    ensures Lines(s) != [] && StartsWith(Lines(s)[0], front)
  {
  }

  /** Unicode white space. */
  predicate IsWhitespace(ch: char) {
    || '\t' <= ch <= '\r' || ch == ' ' || ch == '\U{85}' || ch == '\U{A0}' || ch == '\U{1680}'
    || '\U{2000}' <= ch <= '\U{200A}' || ch == '\U{2028}' || ch == '\U{2029}' || ch == '\U{202F}'
    || ch == '\U{205F}' || ch == '\U{3000}'
  }

  function TrimStart(s: string): string {
    if s != "" && IsWhitespace(s[0]) then TrimStart(s[1..]) else s
  }

  function TrimEnd(s: string): string
    decreases |s|
  {
    if s != "" && IsWhitespace(s[|s| - 1]) then TrimEnd(s[..|s| - 1]) else s
  }

  function Trim(s: string): string { TrimEnd(TrimStart(s)) }

  /** Strip every trailing carriage return. */
  function TrimReturns(s: string): string
    decreases |s|
  {
    if s != "" && s[|s| - 1] == '\r' then TrimReturns(s[..|s| - 1]) else s
  }

  /** The code points of white space in the Unicode Character Database. */
  const WHITE: set<int> :=
    {9, 10, 11, 12, 13, 32, 133, 160, 5760, 8192, 8193, 8194, 8195, 8196, 8197, 8198, 8199, 8200, 8201, 8202, 8232,
     8233, 8239, 8287, 12288}

  lemma {:induction false} WhitespaceIff(ch: char)
    ensures IsWhitespace(ch) <==> ch as int in WHITE
  {
  }

  predicate Blank(s: string) { forall i :: 0 <= i < |s| ==> s[i] as int in WHITE }

  predicate SolidEnds(s: string) { s == "" || (s[0] as int !in WHITE && s[|s| - 1] as int !in WHITE) }

  lemma {:induction false} TrimStartSplits(s: string) returns (front: string)
    ensures s == front + TrimStart(s) && Blank(front)
    ensures TrimStart(s) != "" ==> TrimStart(s)[0] as int !in WHITE
  {
    if s == "" {
      front := "";
    } else {
      WhitespaceIff(s[0]);
      if IsWhitespace(s[0]) {
        front := TrimStartSplits(s[1..]);
        front := [s[0]] + front;
      } else {
        front := "";
      }
    }
  }

  lemma {:induction false} TrimEndSplits(s: string) returns (back: string)
    ensures s == TrimEnd(s) + back && Blank(back)
    ensures TrimEnd(s) != "" ==> TrimEnd(s)[|TrimEnd(s)| - 1] as int !in WHITE
    decreases |s|
  {
    if s == "" {
      back := "";
    } else {
      var last := s[|s| - 1];
      WhitespaceIff(last);
      if IsWhitespace(last) {
        back := TrimEndSplits(s[..|s| - 1]);
        back := back + [last];
      } else {
        back := "";
      }
    }
  }

  /** Trimming takes white space from both ends, and all of it. */
  lemma {:induction false} TrimIs(s: string) returns (front: string, back: string)
    ensures s == front + Trim(s) + back && Blank(front) && Blank(back) && SolidEnds(Trim(s))
  {
    front := TrimStartSplits(s);
    back := TrimEndSplits(TrimStart(s));
  }

  /** Stripping takes nothing but carriage returns from the end, and all of them. */
  lemma {:induction false} TrimReturnsIs(s: string) returns (back: string)
    ensures s == TrimReturns(s) + back && forall ch :: ch in back ==> ch as int == 13
    ensures TrimReturns(s) != "" ==> TrimReturns(s)[|TrimReturns(s)| - 1] as int != 13
    decreases |s|
  {
    if s != "" && s[|s| - 1] as int == 13 {
      back := TrimReturnsIs(s[..|s| - 1]);
      back := back + [s[|s| - 1]];
    } else {
      back := "";
    }
  }

  lemma {:induction false} TrimEndIsPrefix(s: string)
    ensures TrimEnd(s) <= s
    ensures TrimEnd(s) == s <==> s == "" || !IsWhitespace(s[|s| - 1])
    decreases |s|
  {
    if s != "" { TrimEndIsPrefix(s[..|s| - 1]); }
  }

  lemma {:induction false} TrimEndBehind(front: string, s: string)
    requires front != "" && !IsWhitespace(front[|front| - 1])
    ensures TrimEnd(front + s) == front + TrimEnd(s)
    decreases |s|
  {
    if s == "" {
      assert front + s == front;
    } else {
      assert (front + s)[..|front + s| - 1] == front + s[..|s| - 1];
      TrimEndBehind(front, s[..|s| - 1]);
    }
  }

  /** Trimming a text that starts with a solid prefix trims only its end. */
  lemma {:induction false} TrimBehind(front: string, s: string)
    requires front != "" && !IsWhitespace(front[0]) && !IsWhitespace(front[|front| - 1])
    ensures Trim(front + s) == front + TrimEnd(s)
  {
    TrimEndBehind(front, s);
  }

  lemma {:induction false} TrimReturnsIsPrefix(s: string)
    ensures TrimReturns(s) <= s
    ensures TrimEnd(TrimReturns(s)) == TrimEnd(s)
    decreases |s|
  {
    if s != "" { TrimReturnsIsPrefix(s[..|s| - 1]); }
  }

  lemma {:induction false} TrimReturnsOf(s: string)
    requires '\r' !in s
    ensures TrimReturns(s) == s && TrimReturns(s + "\r") == s
  {
  }

  /** Removing trailing carriage returns first makes no difference to trimming. */
  lemma {:induction false} TrimAfterReturns(s: string)
    ensures Trim(TrimReturns(s)) == Trim(s)
    decreases |s|
  {
    TrimReturnsIsPrefix(s);
    if s != "" && IsWhitespace(s[0]) {
      TrimAfterReturns(s[1..]);
      TailOfReturns(s);
    }
  }

  lemma {:induction false} TailOfReturns(s: string)
    requires s != ""
    ensures TrimReturns(s) == "" ==> TrimReturns(s[1..]) == ""
    ensures TrimReturns(s) != "" ==> TrimReturns(s)[0] == s[0] && TrimReturns(s)[1..] == TrimReturns(s[1..])
    decreases |s|
  {
    if s[|s| - 1] == '\r' && |s| > 1 {
      assert s[..|s| - 1][1..] == s[1..][..|s| - 2];
      TailOfReturns(s[..|s| - 1]);
    }
  }
}
