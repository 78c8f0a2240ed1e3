/**
 Printing an event and reading it back.

 The extractor gives the arguments back exactly when they are clean, as long as no line of the
 description or the location can be taken for one of the event's own. Line feeds there are allowed; what
 they can do is shown by `DescriptionOverridesSummary`.
 */
module EventRoundTrip {
  import opened Wrappers
  import opened Sequences
  import opened Strings
  import opened ICalParser
  import opened ICalBuilder

  /** The fields a caller means. */
  function MeantFields(args: EventArgs): IcalFields {
    IcalFields(Some(args.uid), Some(args.dtstart), Some(args.dtend), Some(args.summary), "VEVENT")
  }

  predicate NoTrailingSpace(s: string) { s == "" || !IsWhitespace(s[|s| - 1]) }

  /** What a caller can check beforehand. */
  predicate CleanArgs(args: EventArgs) {
    && CleanText(args.uid) && CleanText(args.dtstart) && CleanText(args.dtend) && CleanText(args.summary)
    && (args.timezone.Some? ==> ':' !in args.timezone.value)
  }

  predicate CleanText(s: string) { NoTrailingSpace(s) && OneLine(s) }

  /** A line that is no marker and none of the five properties. */
  predicate Plain(line: string) {
    var l := Trim(line);
    && Marker(l).None? && ExtractProperty(l, "UID").None? && ExtractProperty(l, "DTSTART").None?
    && ExtractProperty(l, "DTEND").None? && ExtractProperty(l, "DUE").None? && ExtractProperty(l, "SUMMARY").None?
  }

  /** Description and location bring no line that the extractor would read. */
  predicate PlainText(args: EventArgs) {
    forall i :: 0 <= i < |ExtraLines(args)| ==> Plain(ExtraLines(args)[i])
  }

  lemma {:induction false} ScanPlain(st: Scan, lines: seq<string>)
    requires st.inComponent && forall i :: 0 <= i < |lines| ==> Plain(lines[i])
    ensures ScanLines(st, lines) == st
    decreases |lines|
  {
    if lines != [] {
      assert Plain(lines[0]) && ScanLine(st, lines[0]) == st;
      assert forall i :: 0 <= i < |lines[1..]| ==> lines[1..][i] == lines[i + 1];
      ScanPlain(st, lines[1..]);
    }
  }

  // Values hold no line feeds --------------------------------------------------------------------------------

  predicate AllOneLine(lines: seq<string>) { forall i :: 0 <= i < |lines| ==> OneLine(lines[i]) }

  predicate OneLineValue(o: Option<string>) { o.Some? ==> OneLine(o.value) }

  predicate OneLineFields(f: IcalFields) {
    OneLineValue(f.uid) && OneLineValue(f.dtstart) && OneLineValue(f.dtend) && OneLineValue(f.summary)
  }

  lemma {:induction false} LinesAreOneLine(s: string)
    ensures AllOneLine(Lines(s))
    decreases |s|
  {
    if '\n' in s { LinesAreOneLine(s[IndexOf(s, '\n').value + 1..]); }
  }

  lemma {:induction false} UnfoldKeepsOneLine(st: Unfolding, raws: seq<string>)
    requires AllOneLine(st.result) && OneLine(st.current) && AllOneLine(raws)
    ensures AllOneLine(Flush(UnfoldFrom(st, raws)))
    decreases |raws|
  {
    if raws != [] {
      TrimReturnsIsPrefix(raws[0]);
      assert OneLine(TrimReturns(raws[0]));
      assert forall i :: 0 <= i < |raws[1..]| ==> raws[1..][i] == raws[i + 1];
      UnfoldKeepsOneLine(UnfoldRaw(st, raws[0]), raws[1..]);
    }
  }

  lemma {:induction false} TrimKeepsOneLine(s: string)
    requires OneLine(s)
    ensures OneLine(Trim(s))
    decreases |s|
  {
    if s != "" && IsWhitespace(s[0]) {
      TrimKeepsOneLine(s[1..]);
    } else {
      TrimEndIsPrefix(s);
    }
  }

  lemma {:induction false} ValueIsOneLine(line: string, name: string)
    requires OneLine(line)
    ensures OneLineValue(ExtractProperty(line, name))
  {
  }

  lemma {:induction false} ScanKeepsOneLine(st: Scan, lines: seq<string>)
    requires OneLineFields(st.fields) && AllOneLine(lines)
    ensures OneLineFields(ScanLines(st, lines).fields)
    decreases |lines|
  {
    if lines != [] {
      TrimKeepsOneLine(lines[0]);
      PropertyKeepsOneLine(AfterMarker(st, Trim(lines[0])).fields, Trim(lines[0]));
      assert forall i :: 0 <= i < |lines[1..]| ==> lines[1..][i] == lines[i + 1];
      ScanKeepsOneLine(ScanLine(st, lines[0]), lines[1..]);
    }
  }

  lemma {:induction false} PropertyKeepsOneLine(fields: IcalFields, line: string)
    requires OneLineFields(fields) && OneLine(line)
    ensures OneLineFields(AfterProperty(fields, line))
  {
    ValueIsOneLine(line, "UID");
    ValueIsOneLine(line, "DTSTART");
    ValueIsOneLine(line, "DTEND");
    ValueIsOneLine(line, "DUE");
    ValueIsOneLine(line, "SUMMARY");
  }

  /** No text yields a value with a line feed. */
  lemma {:induction false} FieldsAreOneLine(data: string)
    ensures OneLineFields(FieldsOf(data))
  {
    LinesAreOneLine(data);
    UnfoldKeepsOneLine(Unfolding([], ""), Lines(data));
    ScanKeepsOneLine(START, Unfolded(data));
  }

  // The iff ------------------------------------------------------------------------------------------------------

  lemma {:induction false} StampReadPlain(tz: string, stamp: string)
    requires ':' !in tz
    ensures StampRead(Some(tz), stamp) == TrimEnd(stamp)
  {
    var rest := ":" + TrimEnd(stamp);
    assert rest[0] == ':' && rest[1..] == TrimEnd(stamp);
    IndexIs(rest, ':', 0);
    IndexBehind(tz, rest, ':');
    Associative(tz, ":", TrimEnd(stamp));
  }

  lemma {:induction false} StampReadColon(tz: string, stamp: string)
    requires ':' in tz
    ensures StampRead(Some(tz), stamp) == tz[IndexOf(tz, ':').value + 1..] + ":" + TrimEnd(stamp)
  {
    var i := IndexOf(tz, ':').value;
    var text := tz + ":" + TrimEnd(stamp);
    assert text[..i] == tz[..i] && text[i] == ':';
    IndexIs(text, ':', i);
    assert text[i + 1..] == tz[i + 1..] + ":" + TrimEnd(stamp);
  }

  lemma {:induction false} StampReadIff(timezone: Option<string>, stamp: string)
    ensures StampRead(timezone, stamp) == stamp <==>
            NoTrailingSpace(stamp) && (timezone.Some? ==> ':' !in timezone.value)
  {
    TrimEndIsPrefix(stamp);
    if timezone.Some? {
      var tz := timezone.value;
      if ':' !in tz {
        StampReadPlain(tz, stamp);
      } else {
        StampReadColon(tz, stamp);
        ZonePrefixShows(tz[IndexOf(tz, ':').value + 1..], stamp);
      }
    }
  }

  /** Text left over from a zone with a colon can never be taken for the stamp. */
  lemma {:induction false} ZonePrefixShows(front: string, stamp: string)
    ensures front + ":" + TrimEnd(stamp) != stamp
  {
    var t := TrimEnd(stamp);
    var read := front + ":" + t;
    TrimEndIsPrefix(stamp);
    TrimEndStops(stamp);
    if t == stamp {
      assert |read| > |stamp|;
    } else if stamp != "" {
      var last := read[|read| - 1];
      assert last == if t == "" then ':' else t[|t| - 1];
      assert !IsWhitespace(last) && IsWhitespace(stamp[|stamp| - 1]);
    }
  }

  lemma {:induction false} TrimEndStops(s: string)
    ensures NoTrailingSpace(TrimEnd(s))
    decreases |s|
  {
    if s != "" { TrimEndStops(s[..|s| - 1]); }
  }

  /**
   Printing and parsing. As long as no line of description or location reads as a marker or as one of the
   five properties, the extractor gives the arguments back exactly when none of uid, start, end and
   summary ends in white space or holds a line feed, and the zone has no colon.
   */
  lemma {:induction false} RoundTripIff(args: EventArgs, now: string)
    requires OneLine(now) && (args.timezone.Some? ==> OneLine(args.timezone.value)) && PlainText(args)
    ensures FieldsOf(VeventText(args, now)) == MeantFields(args) <==> CleanArgs(args)
  {
    FieldsAreOneLine(VeventText(args, now));
    BuiltFields(args, now);
    if OneLineHeads(args) {
      ScanPlain(Scan(ReadFields(args), true), ExtraLines(args));
      CleanFields(args);
    }
  }

  /** The fields of the event's own lines are those meant exactly for clean arguments. */
  lemma {:induction false} CleanFields(args: EventArgs)
    requires OneLineHeads(args)
    ensures ReadFields(args) == MeantFields(args) <==> CleanArgs(args)
  {
    TrimEndIsPrefix(args.uid);
    TrimEndIsPrefix(args.summary);
    StampReadIff(args.timezone, args.dtstart);
    StampReadIff(args.timezone, args.dtend);
  }

  // Description and location -----------------------------------------------------------------------------------

  lemma {:induction false} LabelIsPlain(front: string, value: string)
    requires front in ["DESCRIPTION:", "LOCATION:"]
    ensures Plain(front + value)
  {
    ColonLine(front, value);
    PlainByLetters(front + TrimEnd(value));
  }

  lemma {:induction false} PlainByLetters(line: string)
    requires |line| > 1 && line[0] !in ['B', 'E', 'U', 'S'] && (line[0] == 'D' ==> line[1] == 'E')
    ensures Marker(line).None? && ExtractProperty(line, "UID").None? && ExtractProperty(line, "DTSTART").None?
    ensures ExtractProperty(line, "DTEND").None? && ExtractProperty(line, "DUE").None?
        && ExtractProperty(line, "SUMMARY").None?
  {
  }

  lemma {:induction false} ReturnedIsPlain(line: string)
    requires Plain(line)
    ensures Plain(TrimReturns(line))
  {
    TrimAfterReturns(line);
  }

  lemma {:induction false} TextIsPlain(args: EventArgs, i: nat)
    requires i < |TextLines(args)|
    ensures Plain(TextLines(args)[i])
  {
    if args.description.Some? { LabelIsPlain("DESCRIPTION:", args.description.value); }
    if args.location.Some? { LabelIsPlain("LOCATION:", args.location.value); }
  }

  /** Description and location without line feeds stay the lines they are. */
  lemma {:induction false} OneLineExtras(args: EventArgs)
    requires args.description.Some? ==> OneLine(args.description.value)
    requires args.location.Some? ==> OneLine(args.location.value)
    ensures ExtraLines(args) == Returned(TextLines(args))
  {
    var lines := TextLines(args);
    assert Solid(lines);
    LogicalSolid(lines);
  }

  /** So they are always plain. */
  lemma {:induction false} OneLineIsPlain(args: EventArgs)
    requires args.description.Some? ==> OneLine(args.description.value)
    requires args.location.Some? ==> OneLine(args.location.value)
    ensures PlainText(args)
  {
    var lines := TextLines(args);
    OneLineExtras(args);
    ReturnedAt(lines);
    forall i | 0 <= i < |ExtraLines(args)|
      ensures Plain(ExtraLines(args)[i])
    {
      TextIsPlain(args, i);
      ReturnedIsPlain(lines[i]);
    }
  }

  lemma {:induction false} ReturnedAt(lines: seq<string>)
    ensures |Returned(lines)| == |lines| && forall i :: 0 <= i < |lines| ==> Returned(lines)[i] == TrimReturns(lines[i])
  {
    if lines != [] { ReturnedAt(lines[1..]); }
  }

  /** The two lines that a description with a summary behind a line feed becomes. */
  lemma {:induction false} SplitDescription(args: EventArgs, front: string, value: string)
    requires args.description == Some(front + "\nSUMMARY:" + value) && args.location == None
    requires OneLine(front) && OneLine(value)
    ensures ExtraLines(args) == [TrimReturns("DESCRIPTION:" + front), TrimReturns("SUMMARY:" + value)]
  {
    var lines := TextLines(args);
    var whole := "DESCRIPTION:" + (front + "\nSUMMARY:" + value);
    assert lines == [whole] && lines[1..] == [] && LogicalLines(lines[1..]) == [];
    assert LogicalLines(lines) == Unfolded(lines[0] + "\r\n") + LogicalLines(lines[1..]);
    SplitText("DESCRIPTION:" + front, "SUMMARY:" + value);
    assert "\nSUMMARY:" == "\n" + "SUMMARY:";
    RegroupText("DESCRIPTION:", front, "\n", "SUMMARY:", value);
  }

  lemma {:induction false} RegroupText(a: string, b: string, c: string, d: string, e: string)
    ensures a + (b + (c + d) + e) == a + b + c + (d + e)
  {
  }

  lemma {:induction false} SplitText(first: string, second: string)
    requires Lettered([first]) && Lettered([second]) && OneLine(first) && OneLine(second)
    ensures Unfolded(first + "\n" + second + "\r\n") == [TrimReturns(first), TrimReturns(second)]
  {
    assert [first][0] == first && [second][0] == second;
    var text, last := first + "\n" + second, second + "\r";
    assert Lettered([text]) by { assert [text][0] == text && text[0] == first[0]; }
    assert text + "\r" == first + "\n" + last;
    FirstLine(first, last);
    assert OneLine(last) && Lines(last) == [last];
    StartsAfresh(text);
    UnfoldTwo(first, last);
    assert last[..|last| - 1] == second;
  }

  lemma {:induction false} UnfoldTwo(first: string, second: string)
    requires first != "" && 'A' <= first[0] <= 'Z' && second != "" && 'A' <= second[0] <= 'Z'
    ensures Flush(UnfoldFrom(Unfolding([], ""), [first, second])) == [TrimReturns(first), TrimReturns(second)]
  {
    TrimReturnsKeepsFirst(first);
    TrimReturnsKeepsFirst(second);
    assert [first, second][1..] == [second] && [second][1..] == [];
    var st := Unfolding([], TrimReturns(first));
    assert UnfoldFrom(Unfolding([], ""), [first, second]) == UnfoldFrom(st, [second]);
    assert UnfoldFrom(st, [second]) == Unfolding([TrimReturns(first)], TrimReturns(second));
  }

  lemma {:induction false} ScanTwo(st: Scan, front: string, value: string)
    requires st.inComponent
    ensures ScanLines(st, [TrimReturns("DESCRIPTION:" + front), TrimReturns("SUMMARY:" + value)])
         == st.(fields := st.fields.(summary := Some(TrimEnd(value))))
  {
    var lines := [TrimReturns("DESCRIPTION:" + front), TrimReturns("SUMMARY:" + value)];
    SameScan(st, "DESCRIPTION:" + front);
    SameScan(st, "SUMMARY:" + value);
    LabelIsPlain("DESCRIPTION:", front);
    ScanSummary(st, value);
    assert lines[1..] == [lines[1]] && [lines[1]][1..] == [];
    assert ScanLines(st, lines) == ScanLines(st, [lines[1]]);
  }

  lemma {:induction false} SameScan(st: Scan, line: string)
    ensures ScanLine(st, TrimReturns(line)) == ScanLine(st, line)
  {
    TrimAfterReturns(line);
  }

  /** A description with a line feed can speak for the summary: the extractor takes the last one. */
  lemma {:induction false} DescriptionOverridesSummary(args: EventArgs, now: string, front: string, value: string)
    requires OneLineHeads(args) && OneLine(now) && OneLine(front) && OneLine(value)
    requires args.description == Some(front + "\nSUMMARY:" + value) && args.location == None
    ensures FieldsOf(VeventText(args, now)) == ReadFields(args).(summary := Some(TrimEnd(value)))
  {
    BuiltFields(args, now);
    SplitDescription(args, front, value);
    ScanTwo(Scan(ReadFields(args), true), front, value);
  }
}
