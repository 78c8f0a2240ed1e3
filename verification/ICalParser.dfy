/**
 Line unfolding and field extraction from iCalendar text.

 Both are one-pass loops. `ExtractedFields` says declaratively what the extraction loop finds, for any
 lines; `UnfoldInvertsFold` says that unfolding recovers the lines from any folding of them.
 */
module ICalParser {
  import opened Wrappers
  import opened Sequences
  import opened Strings

  datatype IcalFields = IcalFields(
    uid: Option<string>, dtstart: Option<string>, dtend: Option<string>, summary: Option<string>,
    componentType: string)

  // Unfolding ------------------------------------------------------------------------------------------------

  /** The lines finished so far and the one being put together. */
  datatype Unfolding = Unfolding(result: seq<string>, current: string)

  predicate IsContinuation(line: string) { line != "" && (line[0] == ' ' || line[0] == '\t') }

  function Flush(st: Unfolding): seq<string> {
    if st.current == "" then st.result else st.result + [st.current]
  }

  function UnfoldRaw(st: Unfolding, raw: string): Unfolding {
    var line := TrimReturns(raw);
    if IsContinuation(line) then Unfolding(st.result, st.current + line[1..]) else Unfolding(Flush(st), line)
  }

  function UnfoldFrom(st: Unfolding, raws: seq<string>): Unfolding
    decreases |raws|
  {
    if raws == [] then st else UnfoldFrom(UnfoldRaw(st, raws[0]), raws[1..])
  }

  function Unfolded(data: string): seq<string> {
    Flush(UnfoldFrom(Unfolding([], ""), Lines(data)))
  }

  lemma {:induction false} UnfoldAppend(st: Unfolding, raws: seq<string>, more: seq<string>)
    ensures UnfoldFrom(st, raws + more) == UnfoldFrom(UnfoldFrom(st, raws), more)
    decreases |raws|
  {
    if raws == [] {
      assert raws + more == more;
    } else {
      assert (raws + more)[1..] == raws[1..] + more;
      UnfoldAppend(UnfoldRaw(st, raws[0]), raws[1..], more);
    }
  }

  /** Lines finished before do not matter to what follows. */
  lemma {:induction false} UnfoldBehind(before: seq<string>, st: Unfolding, raws: seq<string>)
    ensures var after := UnfoldFrom(st, raws);
            UnfoldFrom(Unfolding(before + st.result, st.current), raws)
                == Unfolding(before + after.result, after.current)
    decreases |raws|
  {
    if raws != [] {
      var next := UnfoldRaw(st, raws[0]);
      Associative(before, st.result, [st.current]);
      assert UnfoldRaw(Unfolding(before + st.result, st.current), raws[0])
          == Unfolding(before + next.result, next.current);
      UnfoldBehind(before, next, raws[1..]);
    }
  }

  /** Raw lines that do not begin with a continuation unfold on their own. */
  lemma {:induction false} UnfoldFresh(st: Unfolding, raws: seq<string>)
    requires raws == [] || !IsContinuation(TrimReturns(raws[0]))
    ensures Flush(UnfoldFrom(st, raws)) == Flush(st) + Flush(UnfoldFrom(Unfolding([], ""), raws))
  {
    if raws == [] {
      NothingBefore(Flush(st));
    } else {
      var next := Unfolding([], TrimReturns(raws[0]));
      NothingBefore(Flush(st));
      UnfoldBehind(Flush(st), next, raws[1..]);
      var after := UnfoldFrom(next, raws[1..]);
      Associative(Flush(st), after.result, [after.current]);
    }
  }

  // Unfolding any text: its lines in groups --------------------------------------------------------------------

  function Stripped(raws: seq<string>): seq<string> {
    if raws == [] then [] else Stripped(raws[..|raws| - 1]) + [TrimReturns(raws[|raws| - 1])]
  }

  function Flat(groups: seq<seq<string>>): seq<string> {
    if groups == [] then [] else Flat(groups[..|groups| - 1]) + groups[|groups| - 1]
  }

  predicate Blanked(line: string) { |line| > 0 && line[0] in " \t" }

  /** Every line that begins with a blank is in the group of the line before it, and no other is. */
  ghost predicate Grouped(groups: seq<seq<string>>) {
    && (forall i :: 0 <= i < |groups| ==> groups[i] != [])
    && (forall i, k :: 0 <= i < |groups| && 0 < k < |groups[i]| ==> Blanked(groups[i][k]))
    && forall i :: 0 < i < |groups| ==> !Blanked(groups[i][0])
  }

  /** The lines of a group without the blanks in front. */
  function Joined(group: seq<string>): string {
    if group == [] then ""
    else
      var last := group[|group| - 1];
      Joined(group[..|group| - 1]) + if Blanked(last) then last[1..] else last
  }

  /** The groups in their order, those without text left out. */
  function Kept(groups: seq<seq<string>>): seq<string> {
    if groups == [] then []
    else
      var last := Joined(groups[|groups| - 1]);
      Kept(groups[..|groups| - 1]) + if last == "" then [] else [last]
  }

  ghost predicate Describes(groups: seq<seq<string>>, st: Unfolding) {
    if groups == [] then st == Unfolding([], "")
    else st == Unfolding(Kept(groups[..|groups| - 1]), Joined(groups[|groups| - 1]))
  }

  lemma {:induction false} FlushIsKept(groups: seq<seq<string>>, st: Unfolding)
    requires Describes(groups, st)
    ensures Flush(st) == Kept(groups)
  {
  }

  lemma {:induction false} LongerGroup(groups: seq<seq<string>>, st: Unfolding, line: string)
    returns (more: seq<seq<string>>)
    requires Grouped(groups) && Describes(groups, st) && Blanked(line)
    ensures Grouped(more) && Flat(more) == Flat(groups) + [line]
    ensures Describes(more, Unfolding(st.result, st.current + line[1..]))
  {
    if groups == [] {
      more := [[line]];
    } else {
      var n := |groups| - 1;
      more := groups[..n] + [groups[n] + [line]];
      assert (groups[n] + [line])[..|groups[n]|] == groups[n] && more[..n] == groups[..n];
      Associative(Flat(groups[..n]), groups[n], [line]);
    }
  }

  lemma {:induction false} NextGroup(groups: seq<seq<string>>, st: Unfolding, line: string)
    returns (more: seq<seq<string>>)
    requires Grouped(groups) && Describes(groups, st) && !Blanked(line)
    ensures Grouped(more) && Flat(more) == Flat(groups) + [line]
    ensures Describes(more, Unfolding(Flush(st), line))
  {
    more := groups + [[line]];
    FlushIsKept(groups, st);
    assert more[..|groups|] == groups && [line][..0] == [];
    NothingBefore(line);
  }

  lemma {:induction false} GroupsOf(raws: seq<string>) returns (groups: seq<seq<string>>)
    ensures Grouped(groups) && Flat(groups) == Stripped(raws)
    ensures Describes(groups, UnfoldFrom(Unfolding([], ""), raws))
    decreases |raws|
  {
    if raws == [] {
      groups := [];
    } else {
      var n := |raws| - 1;
      var st, line := UnfoldFrom(Unfolding([], ""), raws[..n]), TrimReturns(raws[n]);
      groups := GroupsOf(raws[..n]);
      assert raws == raws[..n] + [raws[n]];
      UnfoldAppend(Unfolding([], ""), raws[..n], [raws[n]]);
      NothingBefore([raws[n]]);
      UnfoldOne(st, raws[n], []);
      if Blanked(line) { groups := LongerGroup(groups, st, line); } else { groups := NextGroup(groups, st, line); }
    }
  }

  /** Whatever the text is, unfolding joins its groups of lines, and leaves the empty ones out. */
  lemma {:induction false} UnfoldedIs(data: string) returns (groups: seq<seq<string>>)
    ensures Grouped(groups) && Flat(groups) == Stripped(Lines(data)) && Unfolded(data) == Kept(groups)
  {
    groups := GroupsOf(Lines(data));
    FlushIsKept(groups, UnfoldFrom(Unfolding([], ""), Lines(data)));
  }

  method UnfoldLines(data: string) returns (result: seq<string>)
    ensures result == Unfolded(data)
  {
    result := [];
    var current := "";
    var raws := Lines(data);
    for i := 0 to |raws|
      invariant UnfoldFrom(Unfolding(result, current), raws[i..]) == UnfoldFrom(Unfolding([], ""), raws)
    {
      assert raws[i..][1..] == raws[i + 1..];
      var line := TrimReturns(raws[i]);
      if line != "" && (line[0] == ' ' || line[0] == '\t') {
        current := current + line[1..];
      } else {
        if current != "" { result := result + [current]; }
        current := line;
      }
    }
    assert raws[|raws|..] == [];
    if current != "" { result := result + [current]; }
  }

  // Folding, to state what unfolding undoes -------------------------------------------------------------------

  /** How a physical line ends. */
  datatype Ending = Crlf | Lf | Eof

  /** A piece of a logical line on a physical line of its own; a continuation also has its blank. */
  datatype Piece = Piece(text: string, ending: Ending)

  datatype FoldedLine = FoldedLine(head: Piece, tail: seq<(char, Piece)>)

  function TailText(tail: seq<(char, Piece)>): string {
    if tail == [] then "" else tail[0].1.text + TailText(tail[1..])
  }

  /** The logical line before it was folded. */
  function Whole(line: FoldedLine): string { line.head.text + TailText(line.tail) }

  function Wholes(lines: seq<FoldedLine>): seq<string> {
    if lines == [] then [] else [Whole(lines[0])] + Wholes(lines[1..])
  }

  function TailPieces(tail: seq<(char, Piece)>): seq<Piece> {
    if tail == [] then [] else [tail[0].1.(text := [tail[0].0] + tail[0].1.text)] + TailPieces(tail[1..])
  }

  function PiecesOf(lines: seq<FoldedLine>): seq<Piece> {
    if lines == [] then [] else [lines[0].head] + TailPieces(lines[0].tail) + PiecesOf(lines[1..])
  }

  function Printed(pieces: seq<Piece>): string {
    if pieces == [] then ""
    else
      pieces[0].text + (match pieces[0].ending case Crlf => "\r\n" case Lf => "\n" case Eof => "")
      + Printed(pieces[1..])
  }

  predicate NoBreaks(s: string) { '\n' !in s && '\r' !in s }

  /** A nonempty line without breaks that does not begin with a blank, folded anywhere with any blanks. */
  predicate GoodLine(line: FoldedLine) {
    && NoBreaks(line.head.text)
    && (forall i :: 0 <= i < |line.tail| ==>
                      NoBreaks(line.tail[i].1.text) && (line.tail[i].0 == ' ' || line.tail[i].0 == '\t'))
    && Whole(line) != "" && !IsContinuation(Whole(line))
  }

  /** Only the last physical line may end with the text itself, and then it is not empty. */
  ghost predicate GoodEndings(pieces: seq<Piece>) {
    forall i :: 0 <= i < |pieces| && pieces[i].ending == Eof ==> i == |pieces| - 1 && pieces[i].text != ""
  }

  function RawOf(piece: Piece): string {
    if piece.ending == Crlf then piece.text + "\r" else piece.text
  }

  function RawsOf(pieces: seq<Piece>): seq<string> {
    if pieces == [] then [] else [RawOf(pieces[0])] + RawsOf(pieces[1..])
  }

  lemma {:induction false} LinesOfPrinted(pieces: seq<Piece>)
    requires GoodEndings(pieces) && forall i :: 0 <= i < |pieces| ==> NoBreaks(pieces[i].text)
    ensures Lines(Printed(pieces)) == RawsOf(pieces)
    decreases |pieces|
  {
    if pieces != [] {
      var p := pieces[0];
      assert forall i :: 0 <= i < |pieces[1..]| ==> pieces[1..][i] == pieces[i + 1];
      LinesOfPrinted(pieces[1..]);
      match p.ending
      case Crlf =>
        assert Printed(pieces) == (p.text + "\r") + "\n" + Printed(pieces[1..]);
        FirstLine(p.text + "\r", Printed(pieces[1..]));
      case Lf => FirstLine(p.text, Printed(pieces[1..]));
      case Eof =>
        assert pieces[1..] == [];
        assert Printed(pieces) == p.text;
    }
  }

  lemma {:induction false} RawsOfAppend(pieces: seq<Piece>, more: seq<Piece>)
    ensures RawsOf(pieces + more) == RawsOf(pieces) + RawsOf(more)
  {
    if pieces == [] {
      assert pieces + more == more;
    } else {
      assert (pieces + more)[1..] == pieces[1..] + more;
      RawsOfAppend(pieces[1..], more);
    }
  }

  lemma {:induction false} UnfoldContinuation(st: Unfolding, blank: char, piece: Piece)
    requires NoBreaks(piece.text) && (blank == ' ' || blank == '\t')
    ensures UnfoldRaw(st, RawOf(piece.(text := [blank] + piece.text))) == Unfolding(st.result, st.current + piece.text)
  {
    var text := [blank] + piece.text;
    TrimReturnsOf(text);
    assert text[1..] == piece.text;
  }

  lemma {:induction false} UnfoldTail(st: Unfolding, tail: seq<(char, Piece)>)
    requires forall i :: 0 <= i < |tail| ==> NoBreaks(tail[i].1.text) && (tail[i].0 == ' ' || tail[i].0 == '\t')
    ensures UnfoldFrom(st, RawsOf(TailPieces(tail))) == Unfolding(st.result, st.current + TailText(tail))
    decreases |tail|
  {
    if tail == [] {
      assert st.current + "" == st.current;
    } else {
      var piece := tail[0].1;
      var next := Unfolding(st.result, st.current + piece.text);
      UnfoldContinuation(st, tail[0].0, piece);
      TailRaws(tail);
      UnfoldOne(st, RawOf(piece.(text := [tail[0].0] + piece.text)), RawsOf(TailPieces(tail[1..])));
      UnfoldTail(next, tail[1..]);
      assert (st.current + piece.text) + TailText(tail[1..]) == st.current + (piece.text + TailText(tail[1..]));
    }
  }

  lemma {:induction false} UnfoldOne(st: Unfolding, raw: string, raws: seq<string>)
    ensures UnfoldFrom(st, [raw] + raws) == UnfoldFrom(UnfoldRaw(st, raw), raws)
  {
  }

  lemma {:induction false} TailRaws(tail: seq<(char, Piece)>)
    requires tail != []
    ensures RawsOf(TailPieces(tail)) ==
            [RawOf(tail[0].1.(text := [tail[0].0] + tail[0].1.text))] + RawsOf(TailPieces(tail[1..]))
  {
  }

  lemma {:induction false} UnfoldFoldedLine(st: Unfolding, line: FoldedLine)
    requires GoodLine(line)
    ensures UnfoldFrom(st, RawsOf([line.head] + TailPieces(line.tail))) == Unfolding(Flush(st), Whole(line))
  {
    TailOfCons(line.head, TailPieces(line.tail));
    UnfoldHead(st, line);
    UnfoldOne(st, RawOf(line.head), RawsOf(TailPieces(line.tail)));
    UnfoldTail(Unfolding(Flush(st), line.head.text), line.tail);
  }

  lemma {:induction false} UnfoldFoldedLines(st: Unfolding, lines: seq<FoldedLine>)
    requires forall i :: 0 <= i < |lines| ==> GoodLine(lines[i])
    ensures Flush(UnfoldFrom(st, RawsOf(PiecesOf(lines)))) == Flush(st) + Wholes(lines)
    decreases |lines|
  {
    if lines == [] {
      assert Flush(st) + [] == Flush(st);
    } else {
      var line := lines[0];
      var pieces := [line.head] + TailPieces(line.tail);
      var done := Unfolding(Flush(st), Whole(line));
      UnfoldFoldedLine(st, line);
      RawsOfAppend(pieces, PiecesOf(lines[1..]));
      UnfoldAppend(st, RawsOf(pieces), RawsOf(PiecesOf(lines[1..])));
      UnfoldFoldedLines(done, lines[1..]);
      Associative(Flush(st), [Whole(line)], Wholes(lines[1..]));
    }
  }

  lemma {:induction false} UnfoldHead(st: Unfolding, line: FoldedLine)
    requires GoodLine(line)
    ensures UnfoldRaw(st, RawOf(line.head)) == Unfolding(Flush(st), line.head.text)
  {
    TrimReturnsOf(line.head.text);
    assert line.head.text != "" ==> line.head.text[0] == Whole(line)[0];
  }

  lemma {:induction false} PiecesHaveNoBreaks(lines: seq<FoldedLine>)
    requires forall i :: 0 <= i < |lines| ==> GoodLine(lines[i])
    ensures forall p :: p in PiecesOf(lines) ==> NoBreaks(p.text)
  {
    if lines != [] {
      PiecesHaveNoBreaks(lines[1..]);
      TailHasNoBreaks(lines[0].tail);
    }
  }

  lemma {:induction false} TailHasNoBreaks(tail: seq<(char, Piece)>)
    requires forall i :: 0 <= i < |tail| ==> NoBreaks(tail[i].1.text) && (tail[i].0 == ' ' || tail[i].0 == '\t')
    ensures forall p :: p in TailPieces(tail) ==> NoBreaks(p.text)
  {
    if tail != [] { TailHasNoBreaks(tail[1..]); }
  }

  /** Unfolding recovers the lines whatever the fold points, blanks and line ends were. */
  lemma {:induction false} UnfoldInvertsFold(lines: seq<FoldedLine>)
    requires forall i :: 0 <= i < |lines| ==> GoodLine(lines[i])
    requires GoodEndings(PiecesOf(lines))
    ensures Unfolded(Printed(PiecesOf(lines))) == Wholes(lines)
  {
    PiecesHaveNoBreaks(lines);
    forall i | 0 <= i < |PiecesOf(lines)|
      ensures NoBreaks(PiecesOf(lines)[i].text)
    {
      assert PiecesOf(lines)[i] in PiecesOf(lines);
    }
    LinesOfPrinted(PiecesOf(lines));
    UnfoldFoldedLines(Unfolding([], ""), lines);
  }

  /** Hence the extracted fields do not depend on how the text was folded. */
  lemma {:induction false} FoldingIsIrrelevant(lines: seq<FoldedLine>, others: seq<FoldedLine>)
    requires forall i :: 0 <= i < |lines| ==> GoodLine(lines[i])
    requires forall i :: 0 <= i < |others| ==> GoodLine(others[i])
    requires GoodEndings(PiecesOf(lines)) && GoodEndings(PiecesOf(others))
    requires Wholes(lines) == Wholes(others)
    ensures FieldsOf(Printed(PiecesOf(lines))) == FieldsOf(Printed(PiecesOf(others)))
  {
    UnfoldInvertsFold(lines);
    UnfoldInvertsFold(others);
  }

  // Extraction -------------------------------------------------------------------------------------------------

  /** The value of a property line `NAME:value` or `NAME;params:value`. */
  function ExtractProperty(line: string, name: string): Option<string> {
    if !StartsWith(line, name) then None
    else
      var rest := line[|name|..];
      if StartsWith(rest, ":") then Some(rest[1..])
      else if StartsWith(rest, ";") then
        match IndexOf(rest, ':')
        case Some(i) => Some(rest[i + 1..])
        case None => None
      else None
  }

  /** The line gives the property this value, with or without parameters; a parameter holds no colon. */
  ghost predicate Gives(line: string, name: string, value: string) {
    || line == name + ":" + value
    || exists params :: ':' !in params && line == name + ";" + params + ":" + value
  }

  lemma {:induction false} ExtractPropertyIff(line: string, name: string, value: string)
    ensures ExtractProperty(line, name) == Some(value) <==> Gives(line, name, value)
  {
    if ExtractProperty(line, name) == Some(value) { ExtractedIsGiven(line, name, value); }
    if Gives(line, name, value) { GivenIsExtracted(line, name, value); }
  }

  lemma {:induction false} ExtractedIsGiven(line: string, name: string, value: string)
    requires ExtractProperty(line, name) == Some(value)
    ensures Gives(line, name, value)
  {
    var rest := line[|name|..];
    assert line == name + rest;
    if StartsWith(rest, ":") {
      assert rest == ":" + value;
      Associative(name, ":", value);
    } else {
      var params := ParametersOf(rest, value);
      Regrouped(name, params, value);
    }
  }

  lemma {:induction false} ParametersOf(rest: string, value: string) returns (params: string)
    requires StartsWith(rest, ";") && ':' in rest && rest[IndexOf(rest, ':').value + 1..] == value
    ensures ':' !in params && rest == ";" + params + ":" + value
  {
    var i := IndexOf(rest, ':').value;
    params := rest[1..i];
    assert rest[..i] == ";" + params;
    assert rest == rest[..i] + ":" + rest[i + 1..];
  }

  lemma {:induction false} Regrouped(name: string, params: string, value: string)
    ensures name + (";" + params + ":" + value) == name + ";" + params + ":" + value
  {
  }

  lemma {:induction false} GivenIsExtracted(line: string, name: string, value: string)
    requires Gives(line, name, value)
    ensures ExtractProperty(line, name) == Some(value)
  {
    if line == name + ":" + value {
      GivenPlain(name, value);
    } else {
      var params :| ':' !in params && line == name + ";" + params + ":" + value;
      GivenWithParameters(name, params, value);
    }
  }

  lemma {:induction false} GivenPlain(name: string, value: string)
    ensures ExtractProperty(name + ":" + value, name) == Some(value)
  {
    assert (name + ":" + value)[|name|..] == ":" + value;
  }

  lemma {:induction false} GivenWithParameters(name: string, params: string, value: string)
    requires ':' !in params
    ensures ExtractProperty(name + ";" + params + ":" + value, name) == Some(value)
  {
    var rest := ";" + params + ":" + value;
    Regrouped(name, params, value);
    assert (name + rest)[|name|..] == rest;
    FirstColon(params, value);
  }

  lemma {:induction false} FirstColon(params: string, value: string)
    requires ':' !in params
    ensures var rest := ";" + params + ":" + value;
            IndexOf(rest, ':') == Some(|params| + 1) && rest[|params| + 2..] == value
  {
    var rest := ";" + params + ":" + value;
    assert rest[..|params| + 1] == ";" + params;
    IndexIs(rest, ':', |params| + 1);
  }

  datatype Scan = Scan(fields: IcalFields, inComponent: bool)

  const START: Scan := Scan(IcalFields(None, None, None, None, "VEVENT"), false)

  /** BEGIN and END lines of the two component types: the component that begins, or "" for an end. */
  function Marker(line: string): Option<string> {
    if StartsWith(line, "BEGIN:VEVENT") then Some("VEVENT")
    else if StartsWith(line, "BEGIN:VTODO") then Some("VTODO")
    else if StartsWith(line, "END:VEVENT") || StartsWith(line, "END:VTODO") then Some("")
    else None
  }

  lemma {:induction false} MarkerIff(line: string)
    ensures Marker(line) == Some("VEVENT") <==> |line| >= 12 && line[..12] == "BEGIN:VEVENT"
    ensures Marker(line) == Some("VTODO") <==> |line| >= 11 && line[..11] == "BEGIN:VTODO"
    ensures Marker(line) == Some("") <==>
            (|line| >= 10 && line[..10] == "END:VEVENT") || (|line| >= 9 && line[..9] == "END:VTODO")
    ensures Marker(line).Some? ==> Marker(line).value in {"VEVENT", "VTODO", ""}
  {
    if |line| >= 1 && (line[0] == 'B' || line[0] == 'E') { assert "BEGIN:VEVENT"[7] != "BEGIN:VTODO"[7]; }
  }

  function AfterMarker(st: Scan, line: string): Scan {
    match Marker(line)
    case None => st
    case Some(kind) => if kind == "" then st.(inComponent := false) else Scan(st.fields.(componentType := kind), true)
  }

  function AfterProperty(fields: IcalFields, line: string): IcalFields {
    var uid, dtstart := ExtractProperty(line, "UID"), ExtractProperty(line, "DTSTART");
    var dtend, due := ExtractProperty(line, "DTEND"), ExtractProperty(line, "DUE");
    var summary := ExtractProperty(line, "SUMMARY");
    if uid.Some? then fields.(uid := uid)
    else if dtstart.Some? then fields.(dtstart := dtstart)
    else if dtend.Some? then fields.(dtend := dtend)
    else if due.Some? then if fields.dtend.None? then fields.(dtend := due) else fields
    else if summary.Some? then fields.(summary := summary)
    else fields
  }

  function ScanLine(st: Scan, raw: string): Scan {
    var line := Trim(raw);
    var marked := AfterMarker(st, line);
    if !marked.inComponent && !StartsWith(line, "UID") then marked
    else marked.(fields := AfterProperty(marked.fields, line))
  }

  function ScanLines(st: Scan, lines: seq<string>): Scan
    decreases |lines|
  {
    if lines == [] then st else ScanLines(ScanLine(st, lines[0]), lines[1..])
  }

  function FieldsOf(data: string): IcalFields { ScanLines(START, Unfolded(data)).fields }

  method ExtractFields(data: string) returns (fields: IcalFields)
    ensures fields == FieldsOf(data)
    ensures FoundIn(Unfolded(data), fields)
  {
    fields := IcalFields(None, None, None, None, "VEVENT");
    var inComponent := false;
    var lines := UnfoldLines(data);
    for i := 0 to |lines|
      invariant ScanLines(Scan(fields, inComponent), lines[i..]) == ScanLines(START, lines)
    {
      assert lines[i..][1..] == lines[i + 1..];
      var line := Trim(lines[i]);
      if StartsWith(line, "BEGIN:VEVENT") {
        inComponent := true;
        fields := fields.(componentType := "VEVENT");
      } else if StartsWith(line, "BEGIN:VTODO") {
        inComponent := true;
        fields := fields.(componentType := "VTODO");
      } else if StartsWith(line, "END:VEVENT") || StartsWith(line, "END:VTODO") {
        inComponent := false;
      }
      if !inComponent && !StartsWith(line, "UID") { continue; }
      fields := AfterProperty(fields, line);
    }
    assert lines[|lines|..] == [];
    ExtractedFields(lines);
  }

  lemma {:induction false} ScanAppend(st: Scan, lines: seq<string>, more: seq<string>)
    ensures ScanLines(st, lines + more) == ScanLines(ScanLines(st, lines), more)
    decreases |lines|
  {
    if lines == [] {
      assert lines + more == more;
    } else {
      assert (lines + more)[1..] == lines[1..] + more;
      ScanAppend(ScanLine(st, lines[0]), lines[1..], more);
    }
  }

  // What extraction finds, declaratively --------------------------------------------------------------------------

  /** The last marker up to line `k` begins a component. */
  ghost predicate InComponentAt(lines: seq<string>, k: nat)
    requires k < |lines|
  {
    exists m :: 0 <= m <= k && BeginsAt(lines, m) && forall j :: m < j <= k ==> Marker(Trim(lines[j])).None?
  }

  predicate BeginsAt(lines: seq<string>, m: nat)
    requires m < |lines|
  {
    Marker(Trim(lines[m])).Some? && Marker(Trim(lines[m])).value != ""
  }

  ghost function ValueAt(lines: seq<string>, k: nat, name: string, anywhere: bool): Option<string>
    requires k < |lines|
  {
    if anywhere || InComponentAt(lines, k) then ExtractProperty(Trim(lines[k]), name) else None
  }

  /** `r` is the value of the last line that has one. */
  ghost predicate LastValue(lines: seq<string>, name: string, anywhere: bool, r: Option<string>) {
    match r
    case None => forall k :: 0 <= k < |lines| ==> ValueAt(lines, k, name, anywhere).None?
    case Some(_) =>
      exists k :: 0 <= k < |lines| && ValueAt(lines, k, name, anywhere) == r
                  && forall j :: k < j < |lines| ==> ValueAt(lines, j, name, anywhere).None?
  }

  ghost predicate FirstValue(lines: seq<string>, name: string, r: Option<string>) {
    match r
    case None => forall k :: 0 <= k < |lines| ==> ValueAt(lines, k, name, false).None?
    case Some(_) =>
      exists k :: 0 <= k < |lines| && ValueAt(lines, k, name, false) == r
                  && forall j :: 0 <= j < k ==> ValueAt(lines, j, name, false).None?
  }

  ghost predicate LastComponent(lines: seq<string>, kind: string) {
    || (kind == "VEVENT" && forall k :: 0 <= k < |lines| ==> !BeginsAt(lines, k))
    || exists k :: 0 <= k < |lines| && Marker(Trim(lines[k])) == Some(kind) && kind != ""
                   && forall j :: k < j < |lines| ==> !BeginsAt(lines, j)
  }

  ghost predicate Present(lines: seq<string>, name: string) {
    exists k :: 0 <= k < |lines| && ValueAt(lines, k, name, false).Some?
  }

  /**
   The last UID anywhere; the last DTSTART and SUMMARY inside a component; for the end the last DTEND
   inside a component or else the first DUE there; and the type of the last component begun.
   */
  ghost predicate FoundIn(lines: seq<string>, fields: IcalFields) {
    && LastValue(lines, "UID", true, fields.uid)
    && LastValue(lines, "DTSTART", false, fields.dtstart)
    && LastValue(lines, "SUMMARY", false, fields.summary)
    && (if Present(lines, "DTEND") then LastValue(lines, "DTEND", false, fields.dtend)
        else FirstValue(lines, "DUE", fields.dtend))
    && LastComponent(lines, fields.componentType)
  }

  /** Lines that agree up to `k` agree on whether line `k` is inside a component. */
  lemma {:induction false} SameComponent(lines: seq<string>, others: seq<string>, k: nat)
    requires k < |lines| && k < |others| && forall j :: 0 <= j <= k ==> lines[j] == others[j]
    requires InComponentAt(lines, k)
    ensures InComponentAt(others, k)
  {
    var m :| 0 <= m <= k && BeginsAt(lines, m) && forall j :: m < j <= k ==> Marker(Trim(lines[j])).None?;
    assert BeginsAt(others, m);
    forall j | m < j <= k
      ensures Marker(Trim(others[j])).None?
    {
      assert lines[j] == others[j];
    }
  }

  lemma {:induction false} EarlierValue(lines: seq<string>, line: string, k: nat, name: string, anywhere: bool)
    requires k < |lines|
    ensures ValueAt(lines + [line], k, name, anywhere) == ValueAt(lines, k, name, anywhere)
    ensures BeginsAt(lines + [line], k) == BeginsAt(lines, k)
  {
    var all := lines + [line];
    if InComponentAt(lines, k) { SameComponent(lines, all, k); }
    if InComponentAt(all, k) { SameComponent(all, lines, k); }
  }

  /** Whether the scan is inside a component is what the markers say. */
  lemma {:induction false} ScanTracksComponent(lines: seq<string>, line: string)
    ensures ScanLines(START, lines + [line]).inComponent <==> InComponentAt(lines + [line], |lines|)
    decreases |lines|
  {
    var all, n := lines + [line], |lines|;
    ScanAppend(START, lines, [line]);
    assert [line][1..] == [];
    if Marker(Trim(line)).Some? {
      MarkerDecides(all, n);
    } else if lines != [] {
      var front := lines[..n - 1];
      assert lines == front + [lines[n - 1]];
      ScanTracksComponent(front, lines[n - 1]);
      CarriesOver(lines, line);
    }
  }

  lemma {:induction false} MarkerDecides(lines: seq<string>, n: nat)
    requires n < |lines| && Marker(Trim(lines[n])).Some?
    ensures InComponentAt(lines, n) <==> BeginsAt(lines, n)
  {
  }

  /** A line without a marker is inside a component exactly when the line before it is. */
  lemma {:induction false} CarriesOver(lines: seq<string>, line: string)
    requires lines != [] && Marker(Trim(line)).None?
    ensures InComponentAt(lines + [line], |lines|) <==> InComponentAt(lines, |lines| - 1)
  {
    var all, n := lines + [line], |lines|;
    if InComponentAt(lines, n - 1) {
      SameComponent(lines, all, n - 1);
      StepIsInside(all, n);
    }
    if InComponentAt(all, n) {
      StepIsInside(all, n);
      SameComponent(all, lines, n - 1);
    }
  }

  lemma {:induction false} StepIsInside(lines: seq<string>, n: nat)
    requires 0 < n < |lines| && Marker(Trim(lines[n])).None?
    ensures InComponentAt(lines, n) <==> InComponentAt(lines, n - 1)
  {
  }

  lemma {:induction false} LastValueGrows(lines: seq<string>, line: string, name: string, anywhere: bool,
      r: Option<string>)
    requires LastValue(lines, name, anywhere, r)
    ensures var v := ValueAt(lines + [line], |lines|, name, anywhere);
            LastValue(lines + [line], name, anywhere, if v.Some? then v else r)
  {
    var all, n := lines + [line], |lines|;
    if ValueAt(all, n, name, anywhere).None? {
      var from := -1;
      if r.Some? {
        var k :| 0 <= k < n && ValueAt(lines, k, name, anywhere) == r
                 && forall j :: k < j < n ==> ValueAt(lines, j, name, anywhere).None?;
        EarlierValue(lines, line, k, name, anywhere);
        from := k;
      }
      forall j | from < j < |all|
        ensures ValueAt(all, j, name, anywhere).None?
      {
        if j < n { EarlierValue(lines, line, j, name, anywhere); }
      }
    }
  }

  lemma {:induction false} FirstValueGrows(lines: seq<string>, line: string, name: string, r: Option<string>)
    requires FirstValue(lines, name, r)
    ensures FirstValue(lines + [line], name, if r.Some? then r else ValueAt(lines + [line], |lines|, name, false))
  {
    var all, n := lines + [line], |lines|;
    forall k | 0 <= k < n
      ensures ValueAt(all, k, name, false) == ValueAt(lines, k, name, false)
    {
      EarlierValue(lines, line, k, name, false);
    }
    if r.Some? {
      var k :| 0 <= k < n && ValueAt(lines, k, name, false) == r
               && forall j :: 0 <= j < k ==> ValueAt(lines, j, name, false).None?;
      assert ValueAt(all, k, name, false) == r && forall j :: 0 <= j < k ==> ValueAt(all, j, name, false).None?;
    }
  }

  lemma {:induction false} PresentGrows(lines: seq<string>, line: string, name: string)
    ensures Present(lines + [line], name) <==>
            Present(lines, name) || ValueAt(lines + [line], |lines|, name, false).Some?
  {
    var all, n := lines + [line], |lines|;
    forall k | 0 <= k < n
      ensures ValueAt(all, k, name, false) == ValueAt(lines, k, name, false)
    {
      EarlierValue(lines, line, k, name, false);
    }
  }

  lemma {:induction false} LastComponentGrows(lines: seq<string>, line: string, kind: string)
    requires LastComponent(lines, kind)
    ensures LastComponent(lines + [line], if BeginsAt(lines + [line], |lines|) then Marker(Trim(line)).value else kind)
  {
    var all, n := lines + [line], |lines|;
    forall k | 0 <= k < n
      ensures BeginsAt(all, k) == BeginsAt(lines, k)
    {
      EarlierValue(lines, line, k, "", true);
    }
    if !BeginsAt(all, n) {
      if k :| 0 <= k < |lines| && Marker(Trim(lines[k])) == Some(kind) && kind != ""
              && forall j :: k < j < |lines| ==> !BeginsAt(lines, j) {
        assert Marker(Trim(all[k])) == Some(kind) && forall j :: k < j < |all| ==> !BeginsAt(all, j);
      }
    }
  }

  /** No line is two of the properties at once, and a property line is no marker. */
  lemma {:induction false} OneProperty(line: string)
    ensures ExtractProperty(line, "UID").Some? ==> line[0] == 'U' && StartsWith(line, "UID")
    ensures ExtractProperty(line, "DTSTART").Some? ==> line[0] == 'D' && line[1] == 'T' && line[2] == 'S'
    ensures ExtractProperty(line, "DTEND").Some? ==> line[0] == 'D' && line[1] == 'T' && line[2] == 'E'
    ensures ExtractProperty(line, "DUE").Some? ==> line[0] == 'D' && line[1] == 'U'
    ensures ExtractProperty(line, "SUMMARY").Some? ==> line[0] == 'S'
    ensures StartsWith(line, "UID") ==> line[0] == 'U'
  {
  }

  /** The loop finds what `FoundIn` says, for every list of lines. */
  lemma {:induction false} ExtractedFields(lines: seq<string>)
    ensures FoundIn(lines, ScanLines(START, lines).fields)
    decreases |lines|
  {
    if lines != [] {
      var n := |lines| - 1;
      var front, line := lines[..n], lines[n];
      assert lines == front + [line];
      ExtractedFields(front);
      FoundGrows(front, line);
    }
  }

  lemma {:induction false} FoundGrows(lines: seq<string>, line: string)
    requires FoundIn(lines, ScanLines(START, lines).fields)
    ensures FoundIn(lines + [line], ScanLines(START, lines + [line]).fields)
  {
    var before, all := ScanLines(START, lines), lines + [line];
    var fields := before.fields;
    ScanAppend(START, lines, [line]);
    assert [line][1..] == [];
    ScanTracksComponent(lines, line);
    OneProperty(Trim(line));
    LastValueGrows(lines, line, "UID", true, fields.uid);
    LastValueGrows(lines, line, "DTSTART", false, fields.dtstart);
    LastValueGrows(lines, line, "SUMMARY", false, fields.summary);
    LastComponentGrows(lines, line, fields.componentType);
    PresentGrows(lines, line, "DTEND");
    if Present(lines, "DTEND") {
      LastValueGrows(lines, line, "DTEND", false, fields.dtend);
    } else {
      FirstValueGrows(lines, line, "DUE", fields.dtend);
      if Present(all, "DTEND") {
        AbsentIsNone(lines, "DTEND");
        LastValueGrows(lines, line, "DTEND", false, None);
      }
    }
  }

  lemma {:induction false} AbsentIsNone(lines: seq<string>, name: string)
    requires !Present(lines, name)
    ensures LastValue(lines, name, false, None)
  {
  }
}
