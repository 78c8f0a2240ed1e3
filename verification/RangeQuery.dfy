/**
 Time ranges as text.

 A range query compares stamps as strings. On UTC stamps of the form YYYYMMDDThhmmssZ that order is the
 order in time, so the query selects exactly the objects whose interval meets the range.
 */
module RangeQuery {
  import opened Wrappers
  import opened Schema
  import opened Operations
  import opened Ordering
  import opened Store

  // Stamps ---------------------------------------------------------------------------------------------------

  predicate AllDigits(s: string) { forall i :: 0 <= i < |s| ==> '0' <= s[i] <= '9' }

  /** The number a digit string denotes. */
  function Number(s: string): nat
    requires AllDigits(s)
  {
    if s == "" then 0 else Number(s[..|s| - 1]) * 10 + (s[|s| - 1] - '0') as nat
  }

  predicate HasStampShape(s: string) {
    |s| == 16 && (forall i :: 0 <= i < 15 && i != 8 ==> '0' <= s[i] <= '9') && s[8] == 'T' && s[15] == 'Z'
  }

  /** The number in one field of a stamp. */
  function Field(s: string, i: nat, j: nat): nat
    requires HasStampShape(s) && (i <= j <= 8 || 9 <= i <= j <= 15)
  {
    FieldIsDigits(s, i, j);
    Number(s[i..j])
  }

  lemma {:induction false} FieldIsDigits(s: string, i: nat, j: nat)
    requires HasStampShape(s) && (i <= j <= 8 || 9 <= i <= j <= 15)
    ensures AllDigits(s[i..j])
  {
  }

  function Year(s: string): nat requires HasStampShape(s) { Field(s, 0, 4) }
  function Month(s: string): nat requires HasStampShape(s) { Field(s, 4, 6) }
  function Day(s: string): nat requires HasStampShape(s) { Field(s, 6, 8) }
  function Hour(s: string): nat requires HasStampShape(s) { Field(s, 9, 11) }
  function Minute(s: string): nat requires HasStampShape(s) { Field(s, 11, 13) }
  function Second(s: string): nat requires HasStampShape(s) { Field(s, 13, 15) }

  // The Gregorian calendar -------------------------------------------------------------------------------------

  predicate IsLeap(y: nat) { y % 4 == 0 && (y % 100 != 0 || y % 400 == 0) }

  function MonthLength(y: nat, m: nat): nat {
    if m == 2 then if IsLeap(y) then 29 else 28
    else if m == 4 || m == 6 || m == 9 || m == 11 then 30 else 31
  }

  /** The days of year `y` before the first of month `m`. */
  function DaysBeforeMonth(y: nat, m: nat): nat {
    if m <= 1 then 0 else DaysBeforeMonth(y, m - 1) + MonthLength(y, m - 1)
  }

  function DaysBeforeYear(y: nat): nat {
    if y == 0 then 0 else DaysBeforeYear(y - 1) + DaysBeforeMonth(y - 1, 13)
  }

  /** A stamp that names a second of the calendar. */
  predicate IsStamp(s: string) {
    && HasStampShape(s)
    && 1 <= Month(s) <= 12 && 1 <= Day(s) <= MonthLength(Year(s), Month(s))
    && Hour(s) < 24 && Minute(s) < 60 && Second(s) < 60
  }

  /** Days and seconds since the beginning of year 0. */
  function DayOf(s: string): nat
    requires IsStamp(s)
  {
    DaysBeforeYear(Year(s)) + DaysBeforeMonth(Year(s), Month(s)) + Day(s) - 1
  }

  function SecondOfDay(s: string): nat
    requires IsStamp(s)
  {
    Hour(s) * 3600 + Minute(s) * 60 + Second(s)
  }

  function Instant(s: string): nat
    requires IsStamp(s)
  {
    DayOf(s) * 86400 + SecondOfDay(s)
  }

  // Text order is time order ---------------------------------------------------------------------------------------

  lemma {:induction false} LessOfBlocks(a: string, b: string, a': string, b': string)
    requires |a| == |b|
    ensures Less(a + a', b + b') <==> Less(a, b) || (a == b && Less(a', b'))
  {
    if a == "" {
      assert a + a' == a' && b + b' == b';
    } else {
      assert (a + a')[1..] == a[1..] + a' && (b + b')[1..] == b[1..] + b';
      assert a == [a[0]] + a[1..] && b == [b[0]] + b[1..];
      LessOfBlocks(a[1..], b[1..], a', b');
    }
  }

  lemma {:induction false} LessOfNumbers(a: string, b: string)
    requires |a| == |b| && AllDigits(a) && AllDigits(b)
    ensures Less(a, b) <==> Number(a) < Number(b)
    ensures a == b <==> Number(a) == Number(b)
    decreases |a|
  {
    if a != "" {
      var n := |a| - 1;
      assert a == a[..n] + [a[n]] && b == b[..n] + [b[n]];
      LessOfNumbers(a[..n], b[..n]);
      LessOfBlocks(a[..n], b[..n], [a[n]], [b[n]]);
      assert Less([a[n]], [b[n]]) <==> a[n] < b[n] by { assert [a[n]][1..] == [] && [b[n]][1..] == []; }
    }
  }

  predicate DateBefore(a: string, b: string)
    requires HasStampShape(a) && HasStampShape(b)
  {
    || Year(a) < Year(b)
    || (Year(a) == Year(b) && Month(a) < Month(b))
    || (Year(a) == Year(b) && Month(a) == Month(b) && Day(a) < Day(b))
  }

  predicate SameDate(a: string, b: string)
    requires HasStampShape(a) && HasStampShape(b)
  {
    Year(a) == Year(b) && Month(a) == Month(b) && Day(a) == Day(b)
  }

  predicate TimeBefore(a: string, b: string)
    requires HasStampShape(a) && HasStampShape(b)
  {
    || Hour(a) < Hour(b)
    || (Hour(a) == Hour(b) && Minute(a) < Minute(b))
    || (Hour(a) == Hour(b) && Minute(a) == Minute(b) && Second(a) < Second(b))
  }

  /** The stamp order field by field. */
  predicate FieldsBefore(a: string, b: string)
    requires HasStampShape(a) && HasStampShape(b)
  {
    DateBefore(a, b) || (SameDate(a, b) && TimeBefore(a, b))
  }

  lemma {:induction false} LessOfField(a: string, b: string, i: nat, j: nat)
    requires HasStampShape(a) && HasStampShape(b) && (i <= j <= 8 || 9 <= i <= j <= 15)
    ensures Less(a[i..], b[i..]) <==>
            Field(a, i, j) < Field(b, i, j) || (Field(a, i, j) == Field(b, i, j) && Less(a[j..], b[j..]))
  {
    FieldIsDigits(a, i, j);
    FieldIsDigits(b, i, j);
    assert a[i..] == a[i..j] + a[j..] && b[i..] == b[i..j] + b[j..];
    LessOfNumbers(a[i..j], b[i..j]);
    LessOfBlocks(a[i..j], b[i..j], a[j..], b[j..]);
  }

  lemma {:induction false} LessSameChar(a: string, b: string, i: nat)
    requires i < |a| == |b| && a[i] == b[i]
    ensures Less(a[i..], b[i..]) <==> Less(a[i + 1..], b[i + 1..])
  {
  }

  lemma {:induction false} DateOrder(a: string, b: string)
    requires HasStampShape(a) && HasStampShape(b)
    ensures Less(a, b) <==> DateBefore(a, b) || (SameDate(a, b) && Less(a[8..], b[8..]))
  {
    assert a[0..] == a && b[0..] == b;
    LessOfField(a, b, 0, 4);
    LessOfField(a, b, 4, 6);
    LessOfField(a, b, 6, 8);
  }

  lemma {:induction false} TimeOrder(a: string, b: string)
    requires HasStampShape(a) && HasStampShape(b)
    ensures Less(a[9..], b[9..]) <==> TimeBefore(a, b)
  {
    LessOfField(a, b, 9, 11);
    LessOfField(a, b, 11, 13);
    LessOfField(a, b, 13, 15);
    LessSameChar(a, b, 15);
    assert a[16..] == "" && b[16..] == "";
  }

  lemma {:induction false} TextOrderIsFieldOrder(a: string, b: string)
    requires HasStampShape(a) && HasStampShape(b)
    ensures Less(a, b) <==> FieldsBefore(a, b)
  {
    DateOrder(a, b);
    LessSameChar(a, b, 8);
    TimeOrder(a, b);
  }

  lemma {:induction false} MonthsInOrder(y: nat, m: nat, m': nat)
    requires 1 <= m < m'
    ensures DaysBeforeMonth(y, m) + MonthLength(y, m) <= DaysBeforeMonth(y, m')
  {
    if m + 1 < m' { MonthsInOrder(y, m, m' - 1); }
  }

  lemma {:induction false} YearsInOrder(y: nat, y': nat)
    requires y < y'
    ensures DaysBeforeYear(y) + DaysBeforeMonth(y, 13) <= DaysBeforeYear(y')
  {
    if y + 1 < y' { YearsInOrder(y, y' - 1); }
  }

  lemma {:induction false} FieldsBeforeIsEarlier(a: string, b: string)
    requires IsStamp(a) && IsStamp(b) && FieldsBefore(a, b)
    ensures Instant(a) < Instant(b)
  {
    if Year(a) < Year(b) {
      YearsInOrder(Year(a), Year(b));
      MonthsInOrder(Year(a), Month(a), 13);
      assert DayOf(a) < DayOf(b);
    } else if Month(a) < Month(b) {
      MonthsInOrder(Year(a), Month(a), Month(b));
      assert DayOf(a) < DayOf(b);
    }
    assert DayOf(a) < DayOf(b) || (DayOf(a) == DayOf(b) && SecondOfDay(a) < SecondOfDay(b));
  }

  /** Comparing stamps as text compares the instants they name. */
  lemma {:induction false} TextOrderIsTimeOrder(a: string, b: string)
    requires IsStamp(a) && IsStamp(b)
    ensures Less(a, b) <==> Instant(a) < Instant(b)
  {
    TextOrderIsFieldOrder(a, b);
    TextOrderIsFieldOrder(b, a);
    LessTotal(a, b);
    if FieldsBefore(a, b) { FieldsBeforeIsEarlier(a, b); }
    if FieldsBefore(b, a) { FieldsBeforeIsEarlier(b, a); }
  }

  // The range query ---------------------------------------------------------------------------------------------

  /** Both stamps are present and in the fixed form. */
  predicate Stamped(o: CalendarObject) {
    o.fields.dtstart.Some? && o.fields.dtend.Some? && IsStamp(o.fields.dtstart.value) && IsStamp(o.fields.dtend.value)
  }

  predicate Within(t: nat, from: nat, to: nat) { from <= t < to }

  /** Some instant lies in both half-open intervals. */
  ghost predicate Overlaps(a: nat, b: nat, s: nat, e: nat) {
    exists t :: Within(t, a, b) && Within(t, s, e)
  }

  /** The condition of section 9.9 of RFC 4791 for an event with an end: it starts before and ends after. */
  predicate Meets(o: CalendarObject, start: string, end: string)
    requires Stamped(o) && IsStamp(start) && IsStamp(end)
  {
    Instant(start) < Instant(o.fields.dtend.value) && Instant(o.fields.dtstart.value) < Instant(end)
  }

  lemma {:induction false} InRangeIsMeets(o: CalendarObject, start: string, end: string)
    requires Stamped(o) && IsStamp(start) && IsStamp(end)
    ensures InRange(o, start, end) <==> Meets(o, start, end)
    ensures Instant(o.fields.dtstart.value) < Instant(o.fields.dtend.value) && Instant(start) < Instant(end) ==>
              (InRange(o, start, end) <==>
               Overlaps(Instant(o.fields.dtstart.value), Instant(o.fields.dtend.value), Instant(start), Instant(end)))
  {
    TextOrderIsTimeOrder(o.fields.dtstart.value, end);
    TextOrderIsTimeOrder(start, o.fields.dtend.value);
    var a, b := Instant(o.fields.dtstart.value), Instant(o.fields.dtend.value);
    var s, e := Instant(start), Instant(end);
    if a < b && s < e && a < e && s < b {
      var t := if a < s then s else a;
      assert Within(t, a, b) && Within(t, s, e);
    }
  }

  /**
   On a calendar whose objects either miss a stamp or have two in the fixed form, the rows of a range
   query are the rows of the full listing that meet the range in time, in the same order.
   */
  lemma {:induction false} RangeQueryIsExact(db: Db, c: string, start: string, end: string, all: seq<CalendarObject>)
    requires IsStamp(start) && IsStamp(end)
    requires forall o :: o in ObjectsOf(db, c) ==>
                           o.fields.dtstart.None? || o.fields.dtend.None? || Stamped(o)
    requires Listing(all, ObjectsOf(db, c), StartOf)
    ensures Listing(Filter(all, o => Stamped(o) && Meets(o, start, end)),
                    set o | o in ObjectsOf(db, c) && InRange(o, start, end) :: o, StartOf)
  {
    var keep := (o: CalendarObject) => Stamped(o) && Meets(o, start, end);
    FilterKeepsListing(all, ObjectsOf(db, c), StartOf, keep);
    forall o | o in ObjectsOf(db, c)
      ensures keep(o) <==> InRange(o, start, end)
    {
      if Stamped(o) { InRangeIsMeets(o, start, end); }
    }
    assert (set o | o in ObjectsOf(db, c) && InRange(o, start, end) :: o)
        == (set o | o in ObjectsOf(db, c) && keep(o) :: o);
  }

  /**
   So the rows that a range query returns are those rows of the full listing, and in the same order when
   no two of them start at the same time; SQL leaves the order of equal starts open.
   */
  lemma {:induction false} RangeRowsAreListed(
    db: Db, c: string, start: string, end: string, all: seq<CalendarObject>, rows: seq<CalendarObject>)
    requires IsStamp(start) && IsStamp(end)
    requires forall o :: o in ObjectsOf(db, c) ==>
                           o.fields.dtstart.None? || o.fields.dtend.None? || Stamped(o)
    requires Listing(all, ObjectsOf(db, c), StartOf)
    requires Listing(rows, set o | o in ObjectsOf(db, c) && InRange(o, start, end) :: o, StartOf)
    ensures forall o :: o in rows <==> o in all && Stamped(o) && Meets(o, start, end)
    ensures DistinctKeys(set o | o in ObjectsOf(db, c) && InRange(o, start, end) :: o, StartOf) ==>
              rows == Filter(all, o => Stamped(o) && Meets(o, start, end))
  {
    var keep := (o: CalendarObject) => Stamped(o) && Meets(o, start, end);
    var found := set o | o in ObjectsOf(db, c) && InRange(o, start, end) :: o;
    RangeQueryIsExact(db, c, start, end, all);
    assert Listing(Filter(all, keep), found, StartOf);
    forall o
      ensures o in rows <==> o in all && keep(o)
    {
      FilterMember(all, keep, o);
    }
    if DistinctKeys(found, StartOf) { ListingUnique(rows, Filter(all, keep), found, StartOf); }
  }
}
