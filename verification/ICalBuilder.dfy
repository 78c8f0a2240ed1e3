/**
 Building an event and reading its fields back.

 `BuiltFields` computes what the extractor finds in a built text; `EventRoundTrip` says exactly for which
 arguments it gives them back.
 */
module ICalBuilder {
  import opened Wrappers
  import opened Sequences
  import opened Strings
  import opened ICalParser

  datatype EventArgs = EventArgs(
    uid: string, summary: string, dtstart: string, dtend: string,
    description: Option<string>, location: Option<string>, timezone: Option<string>)

  function StdOffset(tz: string): string {
    "TZOFFSETFROM:" +
    if tz == "America/Los_Angeles" || tz == "America/Vancouver" then "-0800"
    else if tz == "America/Denver" || tz == "America/Phoenix" then "-0700"
    else if tz == "America/Chicago" then "-0600"
    else if tz == "America/New_York" || tz == "America/Toronto" then "-0500"
    else if tz == "Europe/London" then "+0000"
    else if tz == "Europe/Paris" || tz == "Europe/Berlin" || tz == "Europe/Rome" then "+0100"
    else if tz == "Asia/Tokyo" then "+0900"
    else if tz == "Australia/Sydney" then "+1100"
    else "+0000"
  }

  function DstOffset(tz: string): string {
    "TZOFFSETTO:" +
    if tz == "America/Los_Angeles" || tz == "America/Vancouver" then "-0700"
    else if tz == "America/Denver" then "-0600"
    else if tz == "America/Chicago" then "-0500"
    else if tz == "America/New_York" || tz == "America/Toronto" then "-0400"
    else if tz == "Europe/London" then "+0100"
    else if tz == "Europe/Paris" || tz == "Europe/Berlin" || tz == "Europe/Rome" then "+0200"
    else if tz == "Asia/Tokyo" || tz == "America/Phoenix" then "+0900"
    else if tz == "Australia/Sydney" then "+1100"
    else "+0000"
  }

  /** A two-digit number. */
  function TwoDigits(a: char, b: char): int { (a as int - '0' as int) * 10 + (b as int - '0' as int) }

  /** The minutes of an offset line `TZOFFSETFROM:` or `TZOFFSETTO:` followed by a sign, hours and minutes. */
  function OffsetMinutes(line: string): int
    requires |line| >= 5
  {
    var n := |line|;
    var minutes := TwoDigits(line[n - 4], line[n - 3]) * 60 + TwoDigits(line[n - 2], line[n - 1]);
    if line[n - 5] == '-' then -minutes else minutes
  }

  predicate IsOffset(line: string, name: string, minutes: int) {
    && |line| == |name| + 5 && StartsWith(line, name) && (line[|name|] == '+' || line[|name|] == '-')
    && OffsetMinutes(line) == minutes
  }

  /** Standard and daylight offset, in hours, of each zone that the builder knows. */
  const ZONES: map<string, (int, int)> :=
    map["America/Los_Angeles" := (-8, -7), "America/Vancouver" := (-8, -7), "America/Denver" := (-7, -6),
        "America/Chicago" := (-6, -5), "America/New_York" := (-5, -4), "America/Toronto" := (-5, -4),
        "Europe/London" := (0, 1), "Europe/Paris" := (1, 2), "Europe/Berlin" := (1, 2), "Europe/Rome" := (1, 2),
        "Asia/Tokyo" := (9, 9), "Australia/Sydney" := (11, 11), "America/Phoenix" := (-7, 9)]

  /**
   The offset lines name these offsets, and none for any other zone. So the daylight line is an hour ahead for
   the zones of North America and Europe, and the same for Tokyo and Sydney; Phoenix gets the one of Tokyo.
   */
  lemma {:induction false} OffsetsAre(tz: string)
    ensures var (std, dst) := if tz in ZONES then ZONES[tz] else (0, 0);
            IsOffset(StdOffset(tz), "TZOFFSETFROM:", std * 60) && IsOffset(DstOffset(tz), "TZOFFSETTO:", dst * 60)
  {
    StdOffsetIs(tz);
    DstOffsetIs(tz);
  }

  lemma {:induction false} StdOffsetIs(tz: string)
    ensures IsOffset(StdOffset(tz), "TZOFFSETFROM:", if tz in ZONES then ZONES[tz].0 * 60 else 0)
  {
  }

  lemma {:induction false} DstOffsetIs(tz: string)
    ensures IsOffset(DstOffset(tz), "TZOFFSETTO:", if tz in ZONES then ZONES[tz].1 * 60 else 0)
  {
  }

  const HEADER: seq<string> := ["BEGIN:VCALENDAR", "VERSION:2.0", "PRODID:-//CalDAV Server//EN"]

  function StandardLines(tz: string): seq<string> {
    ["BEGIN:STANDARD", "DTSTART:19671029T020000", "RRULE:FREQ=YEARLY;BYDAY=1SU;BYMONTH=11",
     StdOffset(tz), DstOffset(tz), "END:STANDARD"]
  }

  function DaylightLines(tz: string): seq<string> {
    ["BEGIN:DAYLIGHT", "DTSTART:20070311T020000", "RRULE:FREQ=YEARLY;BYDAY=2SU;BYMONTH=3",
     DstOffset(tz), StdOffset(tz), "END:DAYLIGHT"]
  }

  function TimezoneLines(timezone: Option<string>): seq<string> {
    match timezone
    case Some(tz) =>
      ["BEGIN:VTIMEZONE", "TZID:" + tz] + StandardLines(tz) + DaylightLines(tz) + ["END:VTIMEZONE"]
    case None => []
  }

  /** What precedes a stamp on its line: the property name, and the zone when there is one. */
  function StampPrefix(name: string, timezone: Option<string>): string {
    match timezone
    case Some(tz) => name + ";TZID=" + tz + ":"
    case None => name + ":"
  }

  function EventLines(args: EventArgs, now: string): seq<string> {
    ["BEGIN:VEVENT", "UID:" + args.uid, "DTSTAMP:" + now,
     StampPrefix("DTSTART", args.timezone) + args.dtstart,
     StampPrefix("DTEND", args.timezone) + args.dtend,
     "SUMMARY:" + args.summary]
  }

  function OptionalLine(name: string, value: Option<string>): seq<string> {
    match value case Some(v) => [name + v] case None => []
  }

  function VeventLines(args: EventArgs, now: string): seq<string> {
    HEADER
    + TimezoneLines(args.timezone)
    + EventLines(args, now)
    + OptionalLine("DESCRIPTION:", args.description)
    + OptionalLine("LOCATION:", args.location)
    + ["END:VEVENT", "END:VCALENDAR"]
  }

  function Join(lines: seq<string>, separator: string): string {
    if lines == [] then "" else if |lines| == 1 then lines[0] else lines[0] + separator + Join(lines[1..], separator)
  }

  function VeventText(args: EventArgs, now: string): string {
    Join(VeventLines(args, now), "\r\n") + "\r\n"
  }

  const CRLF := "\r\n"

  /** The component of a zone: a standard and a daylight part, each with both offsets. */
  function ZoneText(tz: string): string {
    var std, dst := StdOffset(tz), DstOffset(tz);
    ("BEGIN:VTIMEZONE" + CRLF + ("TZID:" + tz) + CRLF)
    + ("BEGIN:STANDARD" + CRLF + "DTSTART:19671029T020000" + CRLF + "RRULE:FREQ=YEARLY;BYDAY=1SU;BYMONTH=11" + CRLF
       + std + CRLF + dst + CRLF + "END:STANDARD" + CRLF)
    + ("BEGIN:DAYLIGHT" + CRLF + "DTSTART:20070311T020000" + CRLF + "RRULE:FREQ=YEARLY;BYDAY=2SU;BYMONTH=3" + CRLF
       + dst + CRLF + std + CRLF + "END:DAYLIGHT" + CRLF)
    + ("END:VTIMEZONE" + CRLF)
  }

  function PreludeText(): string {
    "BEGIN:VCALENDAR" + CRLF + "VERSION:2.0" + CRLF + "PRODID:-//CalDAV Server//EN" + CRLF
  }

  function EventPart(uid: string, summary: string, start: string, end: string, timezone: Option<string>,
      now: string): string {
    var zone := match timezone case Some(tz) => ";TZID=" + tz + ":" case None => ":";
    "BEGIN:VEVENT" + CRLF + ("UID:" + uid) + CRLF + ("DTSTAMP:" + now) + CRLF
    + ("DTSTART" + zone + start) + CRLF + ("DTEND" + zone + end) + CRLF + ("SUMMARY:" + summary) + CRLF
  }

  function ClosingText(): string { "END:VEVENT" + CRLF + "END:VCALENDAR" + CRLF }

  /** The text of an event as section 3.6.1 of RFC 5545 has it, written out. */
  function EventText(uid: string, summary: string, start: string, end: string, description: Option<string>,
      location: Option<string>, timezone: Option<string>, now: string): string {
    PreludeText() + ZonePart(timezone) + EventPart(uid, summary, start, end, timezone, now)
    + TextPart("DESCRIPTION:", description) + TextPart("LOCATION:", location) + ClosingText()
  }

  function ZonePart(timezone: Option<string>): string {
    match timezone case Some(tz) => ZoneText(tz) case None => ""
  }

  function TextPart(name: string, value: Option<string>): string {
    match value case Some(text) => name + text + CRLF case None => ""
  }

  /** Lines, each with its end. */
  function Ended(lines: seq<string>): string {
    if lines == [] then "" else lines[0] + CRLF + Ended(lines[1..])
  }

  lemma {:induction false} EndedAppend(lines: seq<string>, more: seq<string>)
    ensures Ended(lines + more) == Ended(lines) + Ended(more)
  {
    if lines == [] {
      NothingBefore(more);
      NothingBefore(Ended(more));
    } else {
      TailOfAppend(lines, more);
      EndedAppend(lines[1..], more);
      Associative(lines[0] + CRLF, Ended(lines[1..]), Ended(more));
    }
  }

  lemma {:induction false} EndedOne(a: string)
    ensures Ended([a]) == a + CRLF
  {
    assert [a][1..] == [];
    NothingBefore(a + CRLF);
  }

  lemma {:induction false} EndedTwo(a: string, b: string)
    ensures Ended([a, b]) == a + CRLF + b + CRLF
  {
    assert [a, b][1..] == [b];
    EndedOne(b);
    Associative(a + CRLF, b, CRLF);
  }

  lemma {:induction false} EndedThree(a: string, b: string, c: string)
    ensures Ended([a, b, c]) == a + CRLF + b + CRLF + c + CRLF
  {
    assert [a, b, c] == [a, b] + [c];
    EndedAppend([a, b], [c]);
    EndedTwo(a, b);
    EndedOne(c);
    Associative(a + CRLF + b + CRLF, c, CRLF);
  }

  lemma {:induction false} EndedSix(a: string, b: string, c: string, d: string, e: string, f: string)
    ensures Ended([a, b, c, d, e, f]) == a + CRLF + b + CRLF + c + CRLF + d + CRLF + e + CRLF + f + CRLF
  {
    var front := a + CRLF + b + CRLF + c + CRLF;
    assert [a, b, c, d, e, f] == [a, b, c] + [d, e, f];
    EndedAppend([a, b, c], [d, e, f]);
    EndedThree(a, b, c);
    EndedThree(d, e, f);
    BehindFront(front, d + CRLF, e + CRLF, f, CRLF);
    assert d + CRLF + e + CRLF + f + CRLF == d + CRLF + (e + CRLF) + f + CRLF;
    assert front + d + CRLF + e + CRLF + f + CRLF == front + (d + CRLF) + (e + CRLF) + f + CRLF;
  }

  lemma {:induction false} BehindFront(front: string, a: string, b: string, c: string, d: string)
    ensures front + (a + b + c + d) == front + a + b + c + d
  {
  }

  lemma {:induction false} JoinEnds(lines: seq<string>)
    requires lines != []
    ensures Join(lines, CRLF) + CRLF == Ended(lines)
  {
    if |lines| == 1 {
      assert lines == [lines[0]];
      EndedOne(lines[0]);
    } else {
      JoinEnds(lines[1..]);
      Associative(lines[0] + CRLF, Join(lines[1..], CRLF), CRLF);
    }
  }

  lemma {:induction false} ZoneIsWrittenOut(timezone: Option<string>)
    ensures Ended(TimezoneLines(timezone)) == ZonePart(timezone)
  {
    if timezone.Some? {
      var tz := timezone.value;
      var std, dst := StdOffset(tz), DstOffset(tz);
      EndedTwo("BEGIN:VTIMEZONE", "TZID:" + tz);
      EndedSix("BEGIN:STANDARD", "DTSTART:19671029T020000", "RRULE:FREQ=YEARLY;BYDAY=1SU;BYMONTH=11", std, dst,
               "END:STANDARD");
      EndedSix("BEGIN:DAYLIGHT", "DTSTART:20070311T020000", "RRULE:FREQ=YEARLY;BYDAY=2SU;BYMONTH=3", dst, std,
               "END:DAYLIGHT");
      EndedOne("END:VTIMEZONE");
      FourEnded(["BEGIN:VTIMEZONE", "TZID:" + tz], StandardLines(tz), DaylightLines(tz), ["END:VTIMEZONE"]);
    }
  }

  lemma {:induction false} FourEnded(a: seq<string>, b: seq<string>, c: seq<string>, d: seq<string>)
    ensures Ended(a + b + c + d) == Ended(a) + Ended(b) + Ended(c) + Ended(d)
  {
    EndedAppend(a + b + c, d);
    EndedAppend(a + b, c);
    EndedAppend(a, b);
  }

  lemma {:induction false} EventIsWrittenOut(args: EventArgs, now: string)
    ensures Ended(EventLines(args, now)) ==
            EventPart(args.uid, args.summary, args.dtstart, args.dtend, args.timezone, now)
  {
    var zone := match args.timezone case Some(tz) => ";TZID=" + tz + ":" case None => ":";
    PrefixIs("DTSTART", args.timezone);
    PrefixIs("DTEND", args.timezone);
    EndedSix("BEGIN:VEVENT", "UID:" + args.uid, "DTSTAMP:" + now, "DTSTART" + zone + args.dtstart,
             "DTEND" + zone + args.dtend, "SUMMARY:" + args.summary);
  }

  lemma {:induction false} PrefixIs(name: string, timezone: Option<string>)
    ensures StampPrefix(name, timezone) ==
            name + match timezone case Some(tz) => ";TZID=" + tz + ":" case None => ":"
  {
  }

  lemma {:induction false} OptionalIsWrittenOut(name: string, value: Option<string>)
    ensures Ended(OptionalLine(name, value)) == TextPart(name, value)
  {
    if value.Some? { EndedOne(name + value.value); }
  }

  lemma {:induction false} HeadIsWrittenOut(args: EventArgs, now: string)
    ensures Ended(HeadLines(args, now)) ==
            PreludeText() + Ended(TimezoneLines(args.timezone)) + Ended(EventLines(args, now))
  {
    EndedAppend(HEADER + TimezoneLines(args.timezone), EventLines(args, now));
    EndedAppend(HEADER, TimezoneLines(args.timezone));
    EndedThree("BEGIN:VCALENDAR", "VERSION:2.0", "PRODID:-//CalDAV Server//EN");
  }

  lemma {:induction false} EndedVevent(args: EventArgs, now: string)
    ensures Ended(VeventLines(args, now)) ==
            Ended(HeadLines(args, now)) + Ended(OptionalLine("DESCRIPTION:", args.description))
            + Ended(OptionalLine("LOCATION:", args.location)) + Ended(CLOSING)
  {
    FourEnded(HeadLines(args, now), OptionalLine("DESCRIPTION:", args.description),
              OptionalLine("LOCATION:", args.location), CLOSING);
  }

  lemma {:induction false} ClosingIsWrittenOut()
    ensures Ended(CLOSING) == ClosingText()
  {
    EndedTwo("END:VEVENT", "END:VCALENDAR");
  }

  lemma {:induction false} VeventTextEnds(args: EventArgs, now: string)
    ensures VeventText(args, now) == Ended(VeventLines(args, now))
  {
    JoinEnds(VeventLines(args, now));
  }

  /** The text that the lines are joined to. */
  lemma {:induction false} TextIsWrittenOut(args: EventArgs, now: string)
    ensures VeventText(args, now) ==
            EventText(args.uid, args.summary, args.dtstart, args.dtend, args.description, args.location, args.timezone,
                      now)
  {
    VeventTextEnds(args, now);
    EndedVevent(args, now);
    HeadIsWrittenOut(args, now);
    ZoneIsWrittenOut(args.timezone);
    EventIsWrittenOut(args, now);
    OptionalIsWrittenOut("DESCRIPTION:", args.description);
    OptionalIsWrittenOut("LOCATION:", args.location);
    ClosingIsWrittenOut();
  }

  /** Build the text of an event; `now` is the clock's stamp. */
  method BuildVevent(args: EventArgs, now: string) returns (text: string)
    ensures text == VeventText(args, now)
  {
    var lines := PushVevent(args, now);
    text := Join(lines, "\r\n") + "\r\n";
  }

  method PushVevent(args: EventArgs, now: string) returns (lines: seq<string>)
    ensures lines == VeventLines(args, now)
  {
    lines := ["BEGIN:VCALENDAR", "VERSION:2.0", "PRODID:-//CalDAV Server//EN"];
    if args.timezone.Some? { lines := PushTimezone(lines, args.timezone.value); }
    ghost var zoned := HEADER + TimezoneLines(args.timezone);
    assert lines == zoned by { NothingBefore(HEADER); }
    lines := PushEvent(lines, args, now);
    if args.description.Some? { lines := lines + ["DESCRIPTION:" + args.description.value]; }
    ghost var described := zoned + EventLines(args, now) + OptionalLine("DESCRIPTION:", args.description);
    assert lines == described by { NothingBefore(zoned + EventLines(args, now)); }
    if args.location.Some? { lines := lines + ["LOCATION:" + args.location.value]; }
    assert lines == described + OptionalLine("LOCATION:", args.location) by { NothingBefore(described); }
    lines := lines + ["END:VEVENT", "END:VCALENDAR"];
  }

  method PushTimezone(lines: seq<string>, tz: string) returns (more: seq<string>)
    ensures more == lines + TimezoneLines(Some(tz))
  {
    var block := ["BEGIN:VTIMEZONE", "TZID:" + tz];
    block := block + ["BEGIN:STANDARD", "DTSTART:19671029T020000", "RRULE:FREQ=YEARLY;BYDAY=1SU;BYMONTH=11",
                      StdOffset(tz), DstOffset(tz), "END:STANDARD"];
    block := block + ["BEGIN:DAYLIGHT", "DTSTART:20070311T020000", "RRULE:FREQ=YEARLY;BYDAY=2SU;BYMONTH=3",
                      DstOffset(tz), StdOffset(tz), "END:DAYLIGHT"];
    more := lines + (block + ["END:VTIMEZONE"]);
  }

  method PushEvent(lines: seq<string>, args: EventArgs, now: string) returns (more: seq<string>)
    ensures more == lines + EventLines(args, now)
  {
    StampPrefixes(args.timezone);
    var event := ["BEGIN:VEVENT", "UID:" + args.uid, "DTSTAMP:" + now];
    if args.timezone.Some? {
      event := event + ["DTSTART;TZID=" + args.timezone.value + ":" + args.dtstart,
                        "DTEND;TZID=" + args.timezone.value + ":" + args.dtend];
    } else {
      event := event + ["DTSTART:" + args.dtstart, "DTEND:" + args.dtend];
    }
    more := lines + (event + ["SUMMARY:" + args.summary]);
  }

  lemma {:induction false} StampPrefixes(timezone: Option<string>)
    ensures StampPrefix("DTSTART", timezone) ==
            match timezone case Some(tz) => "DTSTART;TZID=" + tz + ":" case None => "DTSTART:"
    ensures StampPrefix("DTEND", timezone) ==
            match timezone case Some(tz) => "DTEND;TZID=" + tz + ":" case None => "DTEND:"
  {
  }

  // Unfolding the built text -----------------------------------------------------------------------------------

  predicate OneLine(s: string) { '\n' !in s }

  /** The arguments in front of the description and the location hold no line feed. */
  predicate OneLineHeads(args: EventArgs) {
    && OneLine(args.uid) && OneLine(args.summary) && OneLine(args.dtstart) && OneLine(args.dtend)
    && (args.timezone.Some? ==> OneLine(args.timezone.value))
  }

  /** Lines that unfolding keeps apart: each starts with a capital letter and holds no line feed. */
  ghost predicate Solid(lines: seq<string>) {
    forall i :: 0 <= i < |lines| ==> lines[i] != "" && 'A' <= lines[i][0] <= 'Z' && OneLine(lines[i])
  }

  function Returned(lines: seq<string>): seq<string> {
    if lines == [] then [] else [TrimReturns(lines[0])] + Returned(lines[1..])
  }

  /** The raw lines of a text joined from these; one with line feeds gives several. */
  function RawLines(lines: seq<string>): seq<string> {
    if lines == [] then [] else Lines(lines[0] + "\r") + RawLines(lines[1..])
  }

  lemma {:induction false} LinesOfJoined(lines: seq<string>)
    requires lines != []
    ensures Lines(Join(lines, "\r\n") + "\r\n") == RawLines(lines)
  {
    var rest := if |lines| == 1 then "" else Join(lines[1..], "\r\n") + "\r\n";
    assert Join(lines, "\r\n") + "\r\n" == (lines[0] + "\r") + "\n" + rest;
    LinesSplit(lines[0] + "\r", rest);
    if |lines| > 1 { LinesOfJoined(lines[1..]); }
  }

  lemma {:induction false} TrimReturnsKeepsFront(s: string, front: string)
    requires front != "" && front[|front| - 1] != '\r' && StartsWith(s, front)
    ensures StartsWith(TrimReturns(s), front)
    decreases |s|
  {
    if s != "" && s[|s| - 1] == '\r' {
      assert |s| > |front|;
      TrimReturnsKeepsFront(s[..|s| - 1], front);
    }
  }

  lemma {:induction false} TrimReturnsKeepsFirst(s: string)
    requires s != "" && s[0] != '\r'
    ensures TrimReturns(s) != "" && TrimReturns(s)[0] == s[0]
  {
    TrimReturnsKeepsFront(s, s[..1]);
  }

  /** Lines that start with a capital letter, so that none continues the one before. */
  predicate Lettered(lines: seq<string>) {
    forall i :: 0 <= i < |lines| ==> lines[i] != "" && 'A' <= lines[i][0] <= 'Z'
  }

  /** What unfolding makes of each line by itself. */
  function LogicalLines(lines: seq<string>): seq<string> {
    if lines == [] then [] else Unfolded(lines[0] + "\r\n") + LogicalLines(lines[1..])
  }

  lemma {:induction false} LogicalAppend(lines: seq<string>, more: seq<string>)
    ensures LogicalLines(lines + more) == LogicalLines(lines) + LogicalLines(more)
  {
    if lines == [] {
      NothingBefore(more);
      NothingBefore(LogicalLines(more));
    } else {
      TailOfAppend(lines, more);
      LogicalAppend(lines[1..], more);
      Associative(Unfolded(lines[0] + "\r\n"), LogicalLines(lines[1..]), LogicalLines(more));
    }
  }

  lemma {:induction false} UnfoldLettered(st: Unfolding, lines: seq<string>)
    requires Lettered(lines)
    ensures Flush(UnfoldFrom(st, RawLines(lines))) == Flush(st) + LogicalLines(lines)
    decreases |lines|
  {
    if lines == [] {
      NothingBefore(Flush(st));
    } else {
      var first, rest := Lines(lines[0] + "\r"), lines[1..];
      StartsAfresh(lines[0]);
      UnfoldAppend(st, first, RawLines(rest));
      UnfoldFresh(st, first);
      UnfoldLettered(UnfoldFrom(st, first), rest);
      Associative(Flush(st), Unfolded(lines[0] + "\r\n"), LogicalLines(rest));
    }
  }

  /** The raw lines of a line that starts with a capital letter: the first is no continuation. */
  lemma {:induction false} StartsAfresh(line: string)
    requires Lettered([line])
    ensures var raws := Lines(line + "\r");
            && raws != [] && !IsContinuation(TrimReturns(raws[0]))
            && Unfolded(line + "\r\n") == Flush(UnfoldFrom(Unfolding([], ""), raws))
  {
    assert [line][0] == line;
    FirstLineStarts(line + "\r", line[..1]);
    TrimReturnsKeepsFirst(Lines(line + "\r")[0]);
    LinesSplit(line + "\r", "");
    assert (line + "\r") + "\n" + "" == line + "\r\n" && Lines("") == [];
    NothingBefore(Lines(line + "\r"));
  }

  /** A text joined from such lines unfolds line by line. */
  lemma {:induction false} UnfoldedJoin(lines: seq<string>)
    requires lines != [] && Lettered(lines)
    ensures Unfolded(Join(lines, "\r\n") + "\r\n") == LogicalLines(lines)
  {
    LinesOfJoined(lines);
    UnfoldLettered(Unfolding([], ""), lines);
    NothingBefore(LogicalLines(lines));
  }

  lemma {:induction false} UnfoldSolidLine(line: string)
    requires Solid([line])
    ensures Unfolded(line + "\r\n") == [TrimReturns(line)]
  {
    assert [line][0] == line;
    var raw := line + "\r";
    var raws := [raw];
    assert Lines(raw) == raws && raws[1..] == [] && raw[..|raw| - 1] == line;
    StartsAfresh(line);
    TrimReturnsKeepsFirst(line);
    assert UnfoldFrom(Unfolding([], ""), raws) == UnfoldRaw(Unfolding([], ""), raw);
  }

  lemma {:induction false} LogicalSolid(lines: seq<string>)
    requires Solid(lines)
    ensures LogicalLines(lines) == Returned(lines)
    decreases |lines|
  {
    if lines != [] {
      UnfoldSolidLine(lines[0]);
      LogicalSolid(lines[1..]);
    }
  }

  lemma {:induction false} SolidAppend(a: seq<string>, b: seq<string>)
    requires Solid(a) && Solid(b)
    ensures Solid(a + b)
  {
  }

  lemma {:induction false} SolidTimezone(timezone: Option<string>)
    requires timezone.Some? ==> OneLine(timezone.value)
    ensures Solid(TimezoneLines(timezone))
  {
    if timezone.Some? {
      var tz := timezone.value;
      SolidStandard(tz);
      SolidDaylight(tz);
      SolidAppend(["BEGIN:VTIMEZONE", "TZID:" + tz], StandardLines(tz));
      SolidAppend(["BEGIN:VTIMEZONE", "TZID:" + tz] + StandardLines(tz), DaylightLines(tz));
    }
  }

  lemma {:induction false} SolidSix(a: string, b: string, c: string, d: string, e: string, f: string)
    requires Solid([a]) && Solid([b]) && Solid([c]) && Solid([d]) && Solid([e]) && Solid([f])
    ensures Solid([a, b, c, d, e, f])
  {
    assert [a][0] == a && [b][0] == b && [c][0] == c && [d][0] == d && [e][0] == e && [f][0] == f;
  }

  lemma {:induction false} SolidStandardEdges()
    ensures Solid(["BEGIN:STANDARD"]) && Solid(["DTSTART:19671029T020000"]) && Solid(["END:STANDARD"])
    ensures Solid(["RRULE:FREQ=YEARLY;BYDAY=1SU;BYMONTH=11"])
  {
  }

  lemma {:induction false} SolidStandard(tz: string)
    ensures Solid(StandardLines(tz))
  {
    SolidOffsets(tz);
    SolidStandardEdges();
    SolidSix("BEGIN:STANDARD", "DTSTART:19671029T020000", "RRULE:FREQ=YEARLY;BYDAY=1SU;BYMONTH=11",
             StdOffset(tz), DstOffset(tz), "END:STANDARD");
  }

  lemma {:induction false} SolidDaylight(tz: string)
    ensures Solid(DaylightLines(tz))
  {
    SolidOffsets(tz);
    SolidSix("BEGIN:DAYLIGHT", "DTSTART:20070311T020000", "RRULE:FREQ=YEARLY;BYDAY=2SU;BYMONTH=3",
             DstOffset(tz), StdOffset(tz), "END:DAYLIGHT");
  }

  lemma {:induction false} SolidOffsets(tz: string)
    ensures Solid([StdOffset(tz)]) && Solid([DstOffset(tz)])
  {
  }

  lemma {:induction false} SolidEvent(args: EventArgs, now: string)
    requires OneLineHeads(args) && OneLine(now)
    ensures Solid(EventLines(args, now))
  {
  }

  const CLOSING: seq<string> := ["END:VEVENT", "END:VCALENDAR"]

  lemma {:induction false} SolidEnds()
    ensures Solid(HEADER) && Solid(CLOSING)
  {
  }

  /** The lines up to the summary. */
  function HeadLines(args: EventArgs, now: string): seq<string> {
    HEADER + TimezoneLines(args.timezone) + EventLines(args, now)
  }

  /** The lines of the description and the location; with line feeds in them they are more in the text. */
  function TextLines(args: EventArgs): seq<string> {
    OptionalLine("DESCRIPTION:", args.description) + OptionalLine("LOCATION:", args.location)
  }

  /** What unfolding makes of the description and the location. */
  function ExtraLines(args: EventArgs): seq<string> { LogicalLines(TextLines(args)) }

  lemma {:induction false} SolidHead(args: EventArgs, now: string)
    requires OneLineHeads(args) && OneLine(now)
    ensures Solid(HeadLines(args, now))
  {
    SolidEnds();
    SolidTimezone(args.timezone);
    SolidEvent(args, now);
    SolidAppend(HEADER, TimezoneLines(args.timezone));
    SolidAppend(HEADER + TimezoneLines(args.timezone), EventLines(args, now));
  }

  lemma {:induction false} ThreeParts(args: EventArgs, now: string)
    ensures VeventLines(args, now) == HeadLines(args, now) + (TextLines(args) + CLOSING)
  {
  }

  lemma {:induction false} LetteredAppend(a: seq<string>, b: seq<string>)
    requires Lettered(a) && Lettered(b)
    ensures Lettered(a + b)
  {
  }

  lemma {:induction false} LetteredText(args: EventArgs, now: string)
    ensures Lettered(HeadLines(args, now)) && Lettered(TextLines(args) + CLOSING)
  {
  }

  /** The unfolded text, for any arguments: what each pushed line unfolds to by itself. */
  lemma {:induction false} UnfoldedText(args: EventArgs, now: string)
    ensures Unfolded(VeventText(args, now)) == LogicalLines(VeventLines(args, now))
  {
    LetteredText(args, now);
    ThreeParts(args, now);
    LetteredAppend(HeadLines(args, now), TextLines(args) + CLOSING);
    UnfoldedJoin(VeventLines(args, now));
  }

  /** With one-line arguments in front: those lines, whatever description and location unfold to, and the end. */
  lemma {:induction false} UnfoldedParts(args: EventArgs, now: string)
    requires OneLineHeads(args) && OneLine(now)
    ensures LogicalLines(VeventLines(args, now)) ==
            Returned(HeadLines(args, now)) + (ExtraLines(args) + Returned(CLOSING))
  {
    SolidHead(args, now);
    SolidEnds();
    ThreeParts(args, now);
    LogicalAppend(HeadLines(args, now), TextLines(args) + CLOSING);
    LogicalAppend(TextLines(args), CLOSING);
    LogicalSolid(HeadLines(args, now));
    LogicalSolid(CLOSING);
  }

  /** The scan trims each line, so trailing carriage returns make no difference to it. */
  lemma {:induction false} ScanReturned(st: Scan, lines: seq<string>)
    ensures ScanLines(st, Returned(lines)) == ScanLines(st, lines)
    decreases |lines|
  {
    if lines != [] {
      TrimAfterReturns(lines[0]);
      assert Returned(lines)[1..] == Returned(lines[1..]);
      ScanReturned(ScanLine(st, lines[0]), lines[1..]);
    }
  }

  // Scanning the built lines --------------------------------------------------------------------------------------

  /** A line that starts a component or a UID looks different in its first letters. */
  predicate Inert(line: string) {
    !StartsWith(Trim(line), "UID") && Marker(Trim(line)).None?
  }

  ghost predicate AllInert(lines: seq<string>) {
    forall i :: 0 <= i < |lines| ==> Inert(lines[i])
  }

  lemma {:induction false} ScanInert(st: Scan, lines: seq<string>)
    requires !st.inComponent && AllInert(lines)
    ensures ScanLines(st, lines) == st
    decreases |lines|
  {
    if lines != [] {
      assert Inert(lines[0]);
      ScanInert(st, lines[1..]);
    }
  }

  lemma {:induction false} ColonLine(front: string, s: string)
    requires front != "" && 'A' <= front[0] <= 'Z' && front[|front| - 1] == ':'
    ensures Trim(front + s) == front + TrimEnd(s)
  {
    TrimBehind(front, s);
  }

  /** Enough of the first letters to tell a line from the markers and from a UID. */
  lemma {:induction false} InertByLetters(line: string)
    requires |line| > 8 && !IsWhitespace(line[0]) && !IsWhitespace(line[|line| - 1]) && line[0] != 'U'
    requires line[0] == 'B' ==> line[6] != 'V' || (line[7] != 'E' && (line[7] != 'T' || line[8] != 'O'))
    requires line[0] == 'E' ==> line[4] != 'V' || (line[5] != 'E' && (line[5] != 'T' || line[6] != 'O'))
    ensures Inert(line)
  {
  }

  lemma {:induction false} HeaderIsInert()
    ensures AllInert(HEADER)
  {
    InertByLetters("BEGIN:VCALENDAR");
    InertByLetters("VERSION:2.0");
    InertByLetters("PRODID:-//CalDAV Server//EN");
    assert HEADER == ["BEGIN:VCALENDAR", "VERSION:2.0", "PRODID:-//CalDAV Server//EN"];
  }

  lemma {:induction false} OffsetIsInert(tz: string)
    ensures Inert(StdOffset(tz)) && Inert(DstOffset(tz))
  {
    InertByLetters(StdOffset(tz));
    InertByLetters(DstOffset(tz));
  }

  lemma {:induction false} InertSix(a: string, b: string, c: string, d: string, e: string, f: string)
    requires Inert(a) && Inert(b) && Inert(c) && Inert(d) && Inert(e) && Inert(f)
    ensures AllInert([a, b, c, d, e, f])
  {
  }

  lemma {:induction false} FixedLinesAreInert()
    ensures Inert("BEGIN:STANDARD") && Inert("DTSTART:19671029T020000")
        && Inert("RRULE:FREQ=YEARLY;BYDAY=1SU;BYMONTH=11")
    ensures Inert("BEGIN:DAYLIGHT") && Inert("DTSTART:20070311T020000")
        && Inert("RRULE:FREQ=YEARLY;BYDAY=2SU;BYMONTH=3")
    ensures Inert("END:STANDARD") && Inert("END:DAYLIGHT")
  {
    InertByLetters("BEGIN:STANDARD");
    InertByLetters("DTSTART:19671029T020000");
    InertByLetters("RRULE:FREQ=YEARLY;BYDAY=1SU;BYMONTH=11");
    InertByLetters("END:STANDARD");
    InertByLetters("BEGIN:DAYLIGHT");
    InertByLetters("DTSTART:20070311T020000");
    InertByLetters("RRULE:FREQ=YEARLY;BYDAY=2SU;BYMONTH=3");
    InertByLetters("END:DAYLIGHT");
  }

  lemma {:induction false} StandardIsInert(tz: string)
    ensures AllInert(StandardLines(tz))
  {
    FixedLinesAreInert();
    OffsetIsInert(tz);
    InertSix("BEGIN:STANDARD", "DTSTART:19671029T020000", "RRULE:FREQ=YEARLY;BYDAY=1SU;BYMONTH=11",
             StdOffset(tz), DstOffset(tz), "END:STANDARD");
  }

  lemma {:induction false} DaylightIsInert(tz: string)
    ensures AllInert(DaylightLines(tz))
  {
    FixedLinesAreInert();
    OffsetIsInert(tz);
    InertSix("BEGIN:DAYLIGHT", "DTSTART:20070311T020000", "RRULE:FREQ=YEARLY;BYDAY=2SU;BYMONTH=3",
             DstOffset(tz), StdOffset(tz), "END:DAYLIGHT");
  }

  /** Outside a component no line of the VTIMEZONE block, its DTSTART lines included, reaches the fields. */
  lemma {:induction false} ScanTimezone(st: Scan, timezone: Option<string>)
    requires !st.inComponent
    ensures ScanLines(st, TimezoneLines(timezone)) == st
  {
    if timezone.Some? {
      var tz := timezone.value;
      ZoneEdgesAreInert(tz);
      StandardIsInert(tz);
      DaylightIsInert(tz);
      InertParts(["BEGIN:VTIMEZONE", "TZID:" + tz], StandardLines(tz), DaylightLines(tz), ["END:VTIMEZONE"]);
    }
    ScanInert(st, TimezoneLines(timezone));
  }

  lemma {:induction false} InertParts(a: seq<string>, b: seq<string>, c: seq<string>, d: seq<string>)
    requires AllInert(a) && AllInert(b) && AllInert(c) && AllInert(d)
    ensures AllInert(a + b + c + d)
  {
  }

  lemma {:induction false} ZoneEdgesAreInert(tz: string)
    ensures AllInert(["BEGIN:VTIMEZONE", "TZID:" + tz]) && AllInert(["END:VTIMEZONE"])
  {
    InertByLetters("BEGIN:VTIMEZONE");
    InertByLetters("END:VTIMEZONE");
    ColonLine("TZID:", tz);
    assert ("TZID:" + TrimEnd(tz))[0] == 'T';
  }

  /** The value the extractor reads off a stamp line: what follows its first colon. */
  function StampRead(timezone: Option<string>, stamp: string): string {
    match timezone
    case None => TrimEnd(stamp)
    case Some(tz) =>
      var text := tz + ":" + TrimEnd(stamp);
      assert text[|tz|] == ':';
      text[IndexOf(text, ':').value + 1..]
  }

  function Started(fields: IcalFields): Scan { Scan(fields.(componentType := "VEVENT"), true) }

  lemma {:induction false} ScanBegin(st: Scan)
    ensures ScanLine(st, "BEGIN:VEVENT") == Started(st.fields)
  {
  }

  lemma {:induction false} ScanUid(st: Scan, uid: string)
    requires st.inComponent
    ensures ScanLine(st, "UID:" + uid) == st.(fields := st.fields.(uid := Some(TrimEnd(uid))))
  {
    ColonLine("UID:", uid);
    var line := "UID:" + TrimEnd(uid);
    assert line[0] == 'U';
    assert line[3..][1..] == TrimEnd(uid) && line[3..][0] == ':';
  }

  /** The clock's stamp is none of the five properties. */
  lemma {:induction false} ScanDtstamp(st: Scan, s: string)
    requires st.inComponent
    ensures ScanLine(st, "DTSTAMP:" + s) == st
  {
    ColonLine("DTSTAMP:", s);
    var line := "DTSTAMP:" + TrimEnd(s);
    assert line[0] == 'D' && line[1] == 'T' && line[2] == 'S' && line[5] == 'M';
    NotStart(line);
    OneProperty(line);
  }

  lemma {:induction false} NotStart(line: string)
    requires |line| > 5 && line[5] == 'M'
    ensures ExtractProperty(line, "DTSTART").None?
  {
  }

  lemma {:induction false} ReadValue(name: string, value: string)
    ensures ExtractProperty(name + ":" + value, name) == Some(value)
  {
  }

  lemma {:induction false} ReadParams(name: string, rest: string, i: nat)
    requires rest != "" && rest[0] == ';' && IndexOf(rest, ':') == Some(i)
    ensures ExtractProperty(name + rest, name) == Some(rest[i + 1..])
  {
  }

  lemma {:induction false} ReadZoned(name: string, text: string)
    requires ':' in text
    ensures ExtractProperty(name + (";TZID=" + text), name) == Some(text[IndexOf(text, ':').value + 1..])
  {
    IndexBehind(";TZID=", text, ':');
    ReadParams(name, ";TZID=" + text, 6 + IndexOf(text, ':').value);
  }

  lemma {:induction false} ReadStamp(name: string, timezone: Option<string>, stamp: string)
    ensures ExtractProperty(StampPrefix(name, timezone) + TrimEnd(stamp), name) == Some(StampRead(timezone, stamp))
  {
    match timezone
    case None => ReadValue(name, TrimEnd(stamp));
    case Some(tz) => ReadZonedStamp(name, tz, TrimEnd(stamp));
  }

  lemma {:induction false} ReadZonedStamp(name: string, tz: string, stamp: string)
    ensures ':' in tz + ":" + stamp
    ensures ExtractProperty(name + ";TZID=" + tz + ":" + stamp, name) ==
            var text := tz + ":" + stamp; Some(text[IndexOf(text, ':').value + 1..])
  {
    ColonBetween(tz, stamp);
    RegroupStamp(name, ";TZID=", tz, ":", stamp);
    ReadZoned(name, tz + ":" + stamp);
  }

  lemma {:induction false} ColonBetween(front: string, back: string)
    ensures ':' in front + ":" + back
  {
  }

  lemma {:induction false} RegroupStamp(a: string, b: string, c: string, d: string, e: string)
    ensures a + b + c + d + e == a + (b + (c + d + e))
  {
  }

  lemma {:induction false} StartLine(fields: IcalFields, line: string, value: string)
    requires ExtractProperty(line, "DTSTART") == Some(value)
    ensures AfterProperty(fields, line) == fields.(dtstart := Some(value)) && Marker(line).None?
  {
    OneProperty(line);
  }

  lemma {:induction false} EndLine(fields: IcalFields, line: string, value: string)
    requires ExtractProperty(line, "DTEND") == Some(value)
    ensures AfterProperty(fields, line) == fields.(dtend := Some(value)) && Marker(line).None?
  {
    OneProperty(line);
  }

  lemma {:induction false} TrimStampLine(name: string, timezone: Option<string>, stamp: string)
    requires name in ["DTSTART", "DTEND"]
    ensures Trim(StampPrefix(name, timezone) + stamp) == StampPrefix(name, timezone) + TrimEnd(stamp)
  {
    ColonLine(StampPrefix(name, timezone), stamp);
  }

  lemma {:induction false} ScanInside(st: Scan, raw: string, line: string)
    requires st.inComponent && Trim(raw) == line && Marker(line).None?
    ensures ScanLine(st, raw) == st.(fields := AfterProperty(st.fields, line))
  {
  }

  lemma {:induction false} ScanStart(st: Scan, timezone: Option<string>, stamp: string)
    requires st.inComponent
    ensures ScanLine(st, StampPrefix("DTSTART", timezone) + stamp)
         == st.(fields := st.fields.(dtstart := Some(StampRead(timezone, stamp))))
  {
    var line := StampPrefix("DTSTART", timezone) + TrimEnd(stamp);
    TrimStampLine("DTSTART", timezone, stamp);
    ReadStamp("DTSTART", timezone, stamp);
    StartLine(st.fields, line, StampRead(timezone, stamp));
    ScanInside(st, StampPrefix("DTSTART", timezone) + stamp, line);
  }

  lemma {:induction false} ScanEnd(st: Scan, timezone: Option<string>, stamp: string)
    requires st.inComponent
    ensures ScanLine(st, StampPrefix("DTEND", timezone) + stamp)
         == st.(fields := st.fields.(dtend := Some(StampRead(timezone, stamp))))
  {
    var line := StampPrefix("DTEND", timezone) + TrimEnd(stamp);
    TrimStampLine("DTEND", timezone, stamp);
    ReadStamp("DTEND", timezone, stamp);
    EndLine(st.fields, line, StampRead(timezone, stamp));
    ScanInside(st, StampPrefix("DTEND", timezone) + stamp, line);
  }

  lemma {:induction false} ScanSummary(st: Scan, summary: string)
    requires st.inComponent
    ensures ScanLine(st, "SUMMARY:" + summary) == st.(fields := st.fields.(summary := Some(TrimEnd(summary))))
  {
    ColonLine("SUMMARY:", summary);
    var line := "SUMMARY:" + TrimEnd(summary);
    OneProperty(line);
    assert line[0] == 'S';
    assert line[7..][0] == ':' && line[7..][1..] == TrimEnd(summary);
  }

  /** The end of the event touches no field. */
  lemma {:induction false} ScanClosing(st: Scan)
    ensures ScanLines(st, CLOSING).fields == st.fields
  {
  }

  /** The fields an extractor finds in a text built from these arguments. */
  function ReadFields(args: EventArgs): IcalFields {
    IcalFields(Some(TrimEnd(args.uid)), Some(StampRead(args.timezone, args.dtstart)),
               Some(StampRead(args.timezone, args.dtend)), Some(TrimEnd(args.summary)), "VEVENT")
  }

  lemma {:induction false} ScanOneMore(st: Scan, lines: seq<string>, line: string)
    ensures ScanLines(st, lines + [line]) == ScanLine(ScanLines(st, lines), line)
  {
    ScanAppend(st, lines, [line]);
    assert [line][1..] == [];
  }

  /** Scanning six lines is six steps. */
  lemma {:induction false} ScanSix(st: Scan, lines: seq<string>)
    requires |lines| == 6
    ensures ScanLines(st, lines) ==
            var half := ScanLine(ScanLine(ScanLine(st, lines[0]), lines[1]), lines[2]);
            ScanLine(ScanLine(ScanLine(half, lines[3]), lines[4]), lines[5])
  {
    ScanThree(st, lines[..3]);
    ScanThree(ScanLines(st, lines[..3]), lines[3..]);
    ScanAppend(st, lines[..3], lines[3..]);
    assert lines == lines[..3] + lines[3..];
  }

  lemma {:induction false} ScanThree(st: Scan, lines: seq<string>)
    requires |lines| == 3
    ensures ScanLines(st, lines) == ScanLine(ScanLine(ScanLine(st, lines[0]), lines[1]), lines[2])
  {
    ScanOneMore(st, lines[..2], lines[2]);
    ScanOneMore(st, lines[..1], lines[1]);
    ScanOneMore(st, [], lines[0]);
    assert lines == lines[..2] + [lines[2]] && lines[..2] == lines[..1] + [lines[1]] && lines[..1] == [] + [lines[0]];
  }

  lemma {:induction false} ScanEvent(args: EventArgs, now: string)
    ensures ScanLines(START, EventLines(args, now)) == Scan(ReadFields(args), true)
  {
    var s1 := Started(START.fields);
    var s2 := s1.(fields := s1.fields.(uid := Some(TrimEnd(args.uid))));
    var s3 := s2.(fields := s2.fields.(dtstart := Some(StampRead(args.timezone, args.dtstart))));
    var s4 := s3.(fields := s3.fields.(dtend := Some(StampRead(args.timezone, args.dtend))));
    ScanSix(START, EventLines(args, now));
    ScanBegin(START);
    ScanUid(s1, args.uid);
    ScanDtstamp(s2, now);
    ScanStart(s2, args.timezone, args.dtstart);
    ScanEnd(s3, args.timezone, args.dtend);
    ScanSummary(s4, args.summary);
  }

  lemma {:induction false} ScanHead(args: EventArgs, now: string)
    ensures ScanLines(START, HeadLines(args, now)) == Scan(ReadFields(args), true)
  {
    var tz, event := TimezoneLines(args.timezone), EventLines(args, now);
    HeaderIsInert();
    ScanInert(START, HEADER);
    ScanTimezone(START, args.timezone);
    ScanAppend(START, HEADER, tz);
    ScanAppend(START, HEADER + tz, event);
    ScanEvent(args, now);
  }

  /** The fields that the lines of a built text leave, each line unfolded by itself. */
  function LineFields(args: EventArgs, now: string): IcalFields {
    ScanLines(START, LogicalLines(VeventLines(args, now))).fields
  }

  /**
   What the extractor finds in a built text. For any arguments: what the lines leave one by one. With one-line
   arguments in front, whatever the optional fields and the zone: the lines that description and location
   unfold to have the last word.
   */
  lemma {:induction false} BuiltFields(args: EventArgs, now: string)
    ensures FieldsOf(VeventText(args, now)) == LineFields(args, now)
    ensures OneLineHeads(args) && OneLine(now) ==>
              LineFields(args, now) == ScanLines(Scan(ReadFields(args), true), ExtraLines(args)).fields
  {
    UnfoldedText(args, now);
    if OneLineHeads(args) && OneLine(now) {
      var head, done := HeadLines(args, now), Scan(ReadFields(args), true);
      UnfoldedParts(args, now);
      ScanAppend(START, Returned(head), ExtraLines(args) + Returned(CLOSING));
      ScanReturned(START, head);
      ScanHead(args, now);
      ScanAppend(done, ExtraLines(args), Returned(CLOSING));
      var last := ScanLines(done, ExtraLines(args));
      ScanReturned(last, CLOSING);
      ScanClosing(last);
    }
  }

  // The uid of a built text -------------------------------------------------------------------------------------

  lemma {:induction false} ScanKeepsUid(st: Scan, lines: seq<string>)
    requires st.fields.uid.Some?
    ensures ScanLines(st, lines).fields.uid.Some?
    decreases |lines|
  {
    if lines != [] { ScanKeepsUid(ScanLine(st, lines[0]), lines[1..]); }
  }

  lemma {:induction false} ScanFindsUid(st: Scan, rest: string)
    ensures ScanLine(st, "UID:" + rest).fields.uid.Some?
  {
    ColonLine("UID:", rest);
    var line := "UID:" + TrimEnd(rest);
    assert line[0] == 'U';
    assert line[3..][1..] == TrimEnd(rest) && line[3..][0] == ':';
  }

  /** The first logical line starts as the text does. */
  lemma {:induction false} FirstLogical(st: Unfolding, raws: seq<string>, front: string)
    requires front != ""
    requires if st.result == [] then StartsWith(st.current, front) else StartsWith(st.result[0], front)
    ensures var lines := Flush(UnfoldFrom(st, raws)); lines != [] && StartsWith(lines[0], front)
    decreases |raws|
  {
    if raws != [] { FirstLogical(UnfoldRaw(st, raws[0]), raws[1..], front); }
  }

  lemma {:induction false} UidLine(uid: string)
    ensures var lines := Unfolded("UID:" + uid + "\r\n"); lines != [] && StartsWith(lines[0], "UID:")
  {
    var text := "UID:" + uid;
    StartsAfresh(text);
    var raws := Lines(text + "\r");
    FirstLineStarts(text + "\r", "UID:");
    TrimReturnsKeepsFront(raws[0], "UID:");
    FirstLogical(Unfolding([], TrimReturns(raws[0])), raws[1..], "UID:");
  }

  /** Whatever lines stand around it, the line of the uid is read. */
  lemma {:induction false} ScanReadsUid(front: seq<string>, uid: string, rest: seq<string>)
    ensures ScanLines(START, LogicalLines(front + (["UID:" + uid] + rest))).fields.uid.Some?
  {
    var line := ["UID:" + uid];
    var read, behind := LogicalLines(line), LogicalLines(rest);
    LogicalAppend(front, line + rest);
    LogicalAppend(line, rest);
    ScanAppend(START, LogicalLines(front), read + behind);
    UidLine(uid);
    assert line[1..] == [] && LogicalLines(line[1..]) == [];
    assert read == Unfolded("UID:" + uid + "\r\n");
    ScanLeadingUid(ScanLines(START, LogicalLines(front)), read + behind);
  }

  lemma {:induction false} ScanLeadingUid(st: Scan, lines: seq<string>)
    requires lines != [] && StartsWith(lines[0], "UID:")
    ensures ScanLines(st, lines).fields.uid.Some?
  {
    var value := lines[0][4..];
    assert lines[0] == "UID:" + value;
    ScanFindsUid(st, value);
    ScanKeepsUid(ScanLine(st, lines[0]), lines[1..]);
  }

  lemma {:induction false} UidPlace(args: EventArgs, now: string)
    returns (front: seq<string>, rest: seq<string>)
    ensures VeventLines(args, now) == front + (["UID:" + args.uid] + rest)
  {
    var event := EventLines(args, now);
    ThreeParts(args, now);
    front := HEADER + TimezoneLines(args.timezone) + event[..1];
    rest := event[2..] + (TextLines(args) + CLOSING);
    assert event == event[..1] + (["UID:" + args.uid] + event[2..]);
  }

  /** However many lines the arguments bring, a built text yields a uid. */
  lemma {:induction false} UidIsRead(args: EventArgs, now: string)
    ensures LineFields(args, now).uid.Some?
  {
    var front, rest := UidPlace(args, now);
    ScanReadsUid(front, args.uid, rest);
  }
}
