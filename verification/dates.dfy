/**
 * Calendar dates as the bot reads and writes them: `strptime` with the
 * formats "%Y-%m-%d" and "%Y-%m-%d %H:%M:%S", `strftime("%d.%m.%Y")`,
 * date comparison and the day count behind `(end - start).days`.
 *
 * Python's `strptime` turns the format into a regular expression: `%Y` is
 * four digits, `%m` is `1[0-2]|0[1-9]|[1-9]`, `%d` is
 * `3[01]|[12]\d|0[1-9]|[1-9]| [1-9]`, `%H` is `2[0-3]|[0-1]\d|\d`, `%M` is
 * `[0-5]\d|\d`, `%S` is `6[0-1]|[0-5]\d|\d`, and a blank in the format
 * matches one or more whitespace characters. The whole string must be
 * consumed, and the fields must then form a real date and time (year at
 * least 1, the day within its month, seconds below 60).
 */
module Dates {
  import opened Base
  import opened Strings

  datatype Date = Date(year: int, month: int, day: int)

  datatype DateTime = DateTime(date: Date, hour: int, minute: int, second: int)

  predicate IsLeap(y: int) {
    y % 4 == 0 && (y % 100 != 0 || y % 400 == 0)
  }

  function DaysInMonth(y: int, m: int): (n: int)
    requires 1 <= m <= 12
    ensures 28 <= n <= 31
  {
    if m == 2 then (if IsLeap(y) then 29 else 28)
    else if m == 4 || m == 6 || m == 9 || m == 11 then 30
    else 31
  }

  /** What `datetime.date(year, month, day)` accepts. */
  predicate ValidDate(d: Date) {
    1 <= d.year <= 9999 && 1 <= d.month <= 12 && 1 <= d.day <= DaysInMonth(d.year, d.month)
  }

  /** `a <= b` on `date` objects. */
  predicate DateLe(a: Date, b: Date) {
    a.year < b.year
    || (a.year == b.year && (a.month < b.month || (a.month == b.month && a.day <= b.day)))
  }

  lemma DateLeTotal(a: Date, b: Date)
    ensures DateLe(a, b) || DateLe(b, a)
    ensures DateLe(a, b) && DateLe(b, a) ==> a == b
  {
  }

  // ---------------------------------------------------------------------
  // Day numbers (`date.toordinal()`)

  function DaysBeforeYear(y: int): int
    requires y >= 1
  {
    var p := y - 1;
    p * 365 + p / 4 - p / 100 + p / 400
  }

  /** Days in the months of year `y` before month `m`. */
  function DaysBeforeMonth(y: int, m: int): (n: int)
    requires 1 <= m <= 12
    ensures 0 <= n <= 335
  {
    var leap := if IsLeap(y) then 1 else 0;
    if m == 1 then 0 else if m == 2 then 31
    else [59, 90, 120, 151, 181, 212, 243, 273, 304, 334][m - 3] + leap
  }

  lemma MonthStep(y: int, m: int)
    requires 1 <= m < 12
    ensures DaysBeforeMonth(y, m + 1) == DaysBeforeMonth(y, m) + DaysInMonth(y, m)
  {
  }

  /** `date.toordinal()`: 1 for 0001-01-01. */
  function DayNumber(d: Date): int
    requires ValidDate(d)
  {
    DaysBeforeYear(d.year) + DaysBeforeMonth(d.year, d.month) + d.day
  }

  /** The calendar day after `d` (for years before 9999). */
  function NextDay(d: Date): (e: Date)
    requires ValidDate(d) && d.year < 9999
    ensures ValidDate(e)
  {
    if d.day < DaysInMonth(d.year, d.month) then Date(d.year, d.month, d.day + 1)
    else if d.month < 12 then Date(d.year, d.month + 1, 1)
    else Date(d.year + 1, 1, 1)
  }

  /** Going from year y - 1 to y adds one to the quotient by k exactly when k divides y. */
  lemma DivStep4(y: int)
    ensures y / 4 == (y - 1) / 4 + (if y % 4 == 0 then 1 else 0)
  {
  }

  lemma DivStep100(y: int)
    ensures y / 100 == (y - 1) / 100 + (if y % 100 == 0 then 1 else 0)
    ensures y % 100 == 0 ==> y % 4 == 0
  {
    if y % 100 == 0 {
      var k := y / 100;
      assert y == 4 * (25 * k);
    }
  }

  lemma DivStep400(y: int)
    ensures y / 400 == (y - 1) / 400 + (if y % 400 == 0 then 1 else 0)
    ensures y % 400 == 0 ==> y % 100 == 0
  {
    if y % 400 == 0 {
      var k := y / 400;
      assert y == 100 * (4 * k);
    }
  }

  lemma YearLength(y: int)
    requires y >= 1
    ensures DaysBeforeYear(y + 1) == DaysBeforeYear(y) + (if IsLeap(y) then 366 else 365)
  {
    DivStep4(y);
    DivStep100(y);
    DivStep400(y);
  }

  /** The day count advances by exactly one from each day to the next. */
  lemma DayNumberNext(d: Date)
    requires ValidDate(d) && d.year < 9999
    ensures DayNumber(NextDay(d)) == DayNumber(d) + 1
  {
    if d.day == DaysInMonth(d.year, d.month) {
      if d.month == 12 {
        YearLength(d.year);
      } else {
        MonthStep(d.year, d.month);
      }
    }
  }

  /** The day count respects the calendar order. */
  lemma {:induction false} DayNumberMonotone(a: Date, b: Date)
    requires ValidDate(a) && ValidDate(b)
    ensures DateLe(a, b) <==> DayNumber(a) <= DayNumber(b)
  {
    if a.year < b.year {
      YearBound(a);
      DaysBeforeYearMonotone(a.year + 1, b.year);
    } else if b.year < a.year {
      YearBound(b);
      DaysBeforeYearMonotone(b.year + 1, a.year);
    } else if a.month < b.month {
      DaysBeforeMonthMonotone(a.year, a.month, b.month);
    } else if b.month < a.month {
      DaysBeforeMonthMonotone(a.year, b.month, a.month);
    }
  }

  lemma YearBound(d: Date)
    requires ValidDate(d)
    ensures DayNumber(d) <= DaysBeforeYear(d.year + 1)
  {
    YearLength(d.year);
    DaysBeforeMonthMonotone(d.year, d.month, 12);
  }

  lemma {:induction false} DaysBeforeYearMonotone(y: int, z: int)
    requires 1 <= y <= z
    ensures DaysBeforeYear(y) <= DaysBeforeYear(z)
    decreases z - y
  {
    if y < z {
      YearLength(y);
      DaysBeforeYearMonotone(y + 1, z);
    }
  }

  lemma {:induction false} DaysBeforeMonthMonotone(y: int, m: int, n: int)
    requires 1 <= m <= n <= 12
    ensures DaysBeforeMonth(y, m) + (if m < n then DaysInMonth(y, m) else 0) <= DaysBeforeMonth(y, n)
    decreases n - m
  {
    if m < n {
      MonthStep(y, n - 1);
      if m < n - 1 {
        DaysBeforeMonthMonotone(y, m, n - 1);
      }
    }
  }

  // ---------------------------------------------------------------------
  // strptime fields

  predicate NonZeroDigit(c: char) { '1' <= c <= '9' }

  /** A `%m` field: `1[0-2]`, `0[1-9]` or `[1-9]`. */
  predicate MonthField(t: string) {
    (|t| == 1 && NonZeroDigit(t[0]))
    || (|t| == 2 && ((t[0] == '1' && '0' <= t[1] <= '2') || (t[0] == '0' && NonZeroDigit(t[1]))))
  }

  /** A `%d` field: `3[01]`, `[12]\d`, `0[1-9]`, `[1-9]` or a blank then `[1-9]`. */
  predicate DayField(t: string) {
    (|t| == 1 && NonZeroDigit(t[0]))
    || (|t| == 2 && ((t[0] == '3' && '0' <= t[1] <= '1')
                     || ('1' <= t[0] <= '2' && IsDigitChar(t[1]))
                     || (t[0] == '0' && NonZeroDigit(t[1]))
                     || (t[0] == ' ' && NonZeroDigit(t[1]))))
  }

  /** The number a one- or two-character field denotes (a leading blank counts as 0). */
  function FieldValue(t: string): (n: nat)
    requires 1 <= |t| <= 2 && IsDigitChar(t[|t| - 1]) && (|t| == 2 ==> (IsDigitChar(t[0]) || t[0] == ' '))
    ensures n < 100
  {
    if |t| == 1 || t[0] == ' ' then DigitValue(t[|t| - 1])
    else TwoDigits(t[0], t[1])
  }

  /** `datetime.strptime(s, "%Y-%m-%d").date()`, None for a ValueError. */
  function ParseIsoDate(s: string): (r: Option<Date>)
    ensures r.Some? ==> ValidDate(r.value)
  {
    if |s| < 5 || !IsDigits(s[..4]) || s[4] != '-' then None
    else match SplitFirst(s[5..], '-')
      case None => None
      case Some((m, d)) =>
        if MonthField(m) && DayField(d) then
          var date := Date(DigitsValue(s[..4]), FieldValue(m), FieldValue(d));
          if ValidDate(date) then Some(date) else None
        else None
  }

  /** Four zero-padded digits for 0..9999. */
  function Pad4(n: nat): (s: string)
    requires n < 10000
    ensures |s| == 4 && IsDigits(s) && DigitsValue(s) == n
  {
    var s := Pad2(n / 100) + Pad2(n % 100);
    DigitsValuePad2(n / 100);
    DigitsValuePad2(n % 100);
    DigitsValueConcat(Pad2(n / 100), Pad2(n % 100));
    s
  }

  /** The canonical "YYYY-MM-DD" text of a date (`date.isoformat()`). */
  function IsoString(d: Date): (s: string)
    requires ValidDate(d)
    ensures |s| == 10
  {
    Pad4(d.year) + "-" + Pad2(d.month) + "-" + Pad2(d.day)
  }

  lemma Pad2Fields(n: nat)
    requires 1 <= n < 100
    ensures n <= 12 ==> MonthField(Pad2(n))
    ensures n <= 31 ==> DayField(Pad2(n))
    ensures HourField(Pad2(n)) <==> n < 24
    ensures MinuteField(Pad2(n)) <==> n < 60
    ensures FieldValue(Pad2(n)) == n
  {
  }

  /** Parsing the canonical text of a date gives the date back. */
  lemma ParseIsoString(d: Date)
    requires ValidDate(d)
    ensures ParseIsoDate(IsoString(d)) == Some(d)
  {
    var s := IsoString(d);
    var y, m, dd := Pad4(d.year), Pad2(d.month), Pad2(d.day);
    assert s == y + "-" + m + "-" + dd;
    assert s[..4] == y && s[4] == '-';
    var t := s[5..];
    assert t == m + "-" + dd;
    SplitFirstAt(t, '-', 2);
    assert t[..2] == m && t[3..] == dd;
    Pad2Fields(d.month);
    Pad2Fields(d.day);
  }

  /** A date that parses is written back in canonical form when its text had two-digit fields. */
  lemma {:induction false} ParsedCanonical(s: string)
    requires |s| == 10 && ParseIsoDate(s).Some?
    requires s[5] != ' ' && s[8] != ' '
    ensures IsoString(ParseIsoDate(s).value) == s
  {
    var d := ParseIsoDate(s).value;
    var t := s[5..];
    match SplitFirst(t, '-')
    case Some((m, dd)) =>
      assert t == m + "-" + dd;
      assert |m| + |dd| == 4;
      assert |m| == 2 && |dd| == 2;
      assert s == s[..4] + "-" + m + "-" + dd;
      NatToStrDigits4(s[..4]);
      Pad2OfField(m);
      Pad2OfField(dd);
  }

  /** A two-digit field is written back as it was read. */
  lemma Pad2OfField(t: string)
    requires |t| == 2 && IsDigitChar(t[0]) && IsDigitChar(t[1])
    ensures FieldValue(t) < 100 && Pad2(FieldValue(t)) == t
  {
    assert IsDigits(t);
    Pad2OfDigits(t);
    DigitsValueTwo(t);
  }

  lemma NatToStrDigits4(y: string)
    requires |y| == 4 && IsDigits(y)
    ensures DigitsValue(y) < 10000 && Pad4(DigitsValue(y)) == y
  {
    var hi, lo := y[..2], y[2..];
    assert y == hi + lo;
    DigitsValueConcat(hi, lo);
    assert Pow10(2) == 100;
    Pad2OfDigits(hi);
    Pad2OfDigits(lo);
    var v := DigitsValue(y);
    assert v == DigitsValue(hi) * 100 + DigitsValue(lo);
    DivMod100(DigitsValue(hi), DigitsValue(lo));
  }

  lemma DivMod100(hi: nat, lo: nat)
    requires lo < 100
    ensures (hi * 100 + lo) / 100 == hi && (hi * 100 + lo) % 100 == lo
  {
  }

  // ---------------------------------------------------------------------
  // Timestamps "%Y-%m-%d %H:%M:%S"

  /** A `%H` field: `2[0-3]`, `[0-1]\d` or one digit. */
  predicate HourField(t: string) {
    (|t| == 1 && IsDigitChar(t[0]))
    || (|t| == 2 && ((t[0] == '2' && '0' <= t[1] <= '3') || ('0' <= t[0] <= '1' && IsDigitChar(t[1]))))
  }

  /** A `%M` field: `[0-5]\d` or one digit. */
  predicate MinuteField(t: string) {
    (|t| == 1 && IsDigitChar(t[0])) || (|t| == 2 && '0' <= t[0] <= '5' && IsDigitChar(t[1]))
  }

  /** A `%S` field: `6[0-1]`, `[0-5]\d` or one digit. */
  predicate SecondField(t: string) {
    MinuteField(t) || (|t| == 2 && t[0] == '6' && '0' <= t[1] <= '1')
  }

  /** The position of the first whitespace character, or |s|. */
  function FirstSpace(s: string): (i: nat)
    ensures i <= |s| && (i < |s| ==> IsSpace(s[i]))
    ensures forall j :: 0 <= j < i ==> !IsSpace(s[j])
  {
    if s == [] || IsSpace(s[0]) then 0 else 1 + FirstSpace(s[1..])
  }

  /** The clock part "H:M:S" of a timestamp, as (hour, minute, second). */
  function ParseClock(c: string): (r: Option<(int, int, int)>)
    ensures r.Some? ==> 0 <= r.value.0 < 24 && 0 <= r.value.1 < 60 && 0 <= r.value.2 < 60
  {
    match SplitFirst(c, ':')
    case None => None
    case Some((h, ms)) =>
      match SplitFirst(ms, ':')
      case None => None
      case Some((m, sec)) =>
        if HourField(h) && MinuteField(m) && SecondField(sec) && FieldValue(sec) < 60 then
          Some((FieldValue(h), FieldValue(m), FieldValue(sec)))
        else None
  }

  /**
   * `datetime.strptime(s, "%Y-%m-%d %H:%M:%S")`, None for a ValueError.
   * The date part ends at the first whitespace character.
   */
  function ParseTimestamp(s: string): (r: Option<DateTime>)
    ensures r.Some? ==>
      (ValidDate(r.value.date) && 0 <= r.value.hour < 24
       && 0 <= r.value.minute < 60 && 0 <= r.value.second < 60)
  {
    var i := FirstSpace(s);
    var rest := StripLeft(s[i..]);
    if i == |s| then None
    else
      var d, c := ParseIsoDate(s[..i]), ParseClock(rest);
      if d.None? || c.None? then None else Some(DateTime(d.value, c.value.0, c.value.1, c.value.2))
  }

  /** The canonical "YYYY-MM-DD HH:MM:SS" text, as SQLite's CURRENT_TIMESTAMP writes it. */
  function TimestampString(t: DateTime): string
    requires ValidDate(t.date) && 0 <= t.hour < 24 && 0 <= t.minute < 60 && 0 <= t.second < 60
  {
    IsoString(t.date) + " " + Pad2(t.hour) + ":" + Pad2(t.minute) + ":" + Pad2(t.second)
  }

  lemma ParseTimestampString(t: DateTime)
    requires ValidDate(t.date) && 0 <= t.hour < 24 && 0 <= t.minute < 60 && 0 <= t.second < 60
    ensures ParseTimestamp(TimestampString(t)) == Some(t)
  {
    var iso := IsoString(t.date);
    var clock := Pad2(t.hour) + ":" + Pad2(t.minute) + ":" + Pad2(t.second);
    assert TimestampString(t) == iso + " " + clock;
    IsoHasNoSpace(t.date);
    TimestampParts(iso, clock);
    ParseIsoString(t.date);
    ParseClockString(t.hour, t.minute, t.second);
  }

  /** A date without blanks, one blank and a clock that starts with a digit are parsed part by part. */
  lemma TimestampParts(iso: string, clock: string)
    requires forall j :: 0 <= j < |iso| ==> !IsSpace(iso[j])
    requires |clock| > 0 && IsDigitChar(clock[0])
    ensures ParseTimestamp(iso + " " + clock)
      == (var d, c := ParseIsoDate(iso), ParseClock(clock);
          if d.None? || c.None? then None else Some(DateTime(d.value, c.value.0, c.value.1, c.value.2)))
  {
    var s := iso + " " + clock;
    FirstSpaceAt(s, |iso|);
    assert s[..|iso|] == iso;
    assert s[|iso|..][1..] == clock;
    StripLeftKeeps(clock);
  }

  lemma IsoHasNoSpace(d: Date)
    requires ValidDate(d)
    ensures forall j :: 0 <= j < 10 ==> !IsSpace(IsoString(d)[j])
  {
  }

  lemma ParseClockString(h: nat, m: nat, sec: nat)
    requires h < 24 && m < 60 && sec < 60
    ensures ParseClock(Pad2(h) + ":" + Pad2(m) + ":" + Pad2(sec)) == Some((h, m, sec))
  {
    var hs, ms, ss := Pad2(h), Pad2(m), Pad2(sec);
    assert hs + ":" + ms + ":" + ss == hs + ":" + (ms + ":" + ss);
    SplitAfterPair(hs, ms + ":" + ss);
    SplitAfterPair(ms, ss);
    Pad2ClockFields(h);
    Pad2ClockFields(m);
    Pad2ClockFields(sec);
  }

  /** A two-character field without a colon is cut off at the colon after it. */
  lemma SplitAfterPair(a: string, rest: string)
    requires |a| == 2 && a[0] != ':' && a[1] != ':'
    ensures SplitFirst(a + ":" + rest, ':') == Some((a, rest))
  {
    var s := a + ":" + rest;
    assert s[..2] == a && s[3..] == rest;
    SplitFirstAt(s, ':', 2);
  }

  /** Two padded digits read back as a clock field. */
  lemma Pad2ClockFields(n: nat)
    requires n < 100
    ensures Pad2(n)[0] != ':' && Pad2(n)[1] != ':'
    ensures HourField(Pad2(n)) <==> n < 24
    ensures MinuteField(Pad2(n)) <==> n < 60
    ensures n < 60 ==> SecondField(Pad2(n))
    ensures FieldValue(Pad2(n)) == n
  {
  }

  lemma {:induction false} FirstSpaceAt(s: string, i: nat)
    requires i < |s| && IsSpace(s[i]) && forall j :: 0 <= j < i ==> !IsSpace(s[j])
    ensures FirstSpace(s) == i
  {
    if i > 0 {
      FirstSpaceAt(s[1..], i - 1);
    }
  }

  // ---------------------------------------------------------------------
  // strftime("%d.%m.%Y")

  /**
   * `date.strftime("%d.%m.%Y")`: two-digit day and month; the year as its
   * decimal digits (the C library does not pad years below 1000).
   */
  function FormatDayMonthYear(d: Date): (s: string)
    requires ValidDate(d)
    ensures |s| >= 7 && s[2] == '.' && s[5] == '.'
    ensures s[..2] == Pad2(d.day) && s[3..5] == Pad2(d.month) && s[6..] == NatToStr(d.year)
  {
    Pad2(d.day) + "." + Pad2(d.month) + "." + NatToStr(d.year)
  }
}
