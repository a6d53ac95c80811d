/**
 * Date helpers of the diary (src/utils/date_helpers.py): date-range
 * callback strings, period names, the entry-date window, HH:MM checks and
 * display formatting. "Now" is a parameter (`today`).
 */
module DateHelpers {
  import opened Base
  import opened Strings
  import opened Dates

  const AllTime := "date_range_all"

  // ---------------------------------------------------------------------
  // parse_date_range

  /**
   * `parse_date_range(date_range)`: "date_range_all" gives no bounds;
   * otherwise the third and fourth '_'-separated parts are the start and
   * end, the end being absent with exactly three parts, and both being
   * absent with fewer.
   */
  function ParseDateRange(dateRange: string): (r: (Option<string>, Option<string>))
    ensures r.0.None? ==> r.1.None?
    ensures r.0.Some? ==> '_' !in r.0.value && dateRange != AllTime
    ensures r.1.Some? ==> '_' !in r.1.value
  {
    if dateRange == AllTime then (None, None)
    else
      var parts := Split(dateRange, '_');
      if |parts| >= 3 then (Some(parts[2]), if |parts| > 3 then Some(parts[3]) else None)
      else (None, None)
  }

  /** The bounds come back out of a callback string built from them. */
  lemma ParseDateRangeOfCallback(a: string, b: string, start: string, end: string)
    requires '_' !in a && '_' !in b && '_' !in start && '_' !in end
    ensures ParseDateRange(a + "_" + b + "_" + start + "_" + end) == (Some(start), Some(end))
  {
    SplitParts(a, b, start, end);
    SplitOfAllTime();
  }

  /** Without a fourth part the end is absent. */
  lemma ParseDateRangeOpenEnd(a: string, b: string, start: string)
    requires '_' !in a && '_' !in b && '_' !in start
    requires a + "_" + b + "_" + start != AllTime
    ensures ParseDateRange(a + "_" + b + "_" + start) == (Some(start), None)
  {
    assert a + "_" + b + "_" + start == a + ['_'] + (b + ['_'] + start);
    SplitBy3(a, b, start);
  }

  /** With fewer than three parts neither bound is present. */
  lemma ParseDateRangeShort(a: string, b: string)
    requires '_' !in a && '_' !in b
    ensures ParseDateRange(a + "_" + b) == (None, None)
    ensures ParseDateRange(a) == (None, None)
  {
    SplitNoSep(b, '_');
    SplitConcat(a, b, '_');
    SplitNoSep(a, '_');
  }

  lemma SplitParts(a: string, b: string, c: string, d: string)
    requires '_' !in a && '_' !in b && '_' !in c && '_' !in d
    ensures Split(a + "_" + b + "_" + c + "_" + d, '_') == [a, b, c, d]
  {
    var cd := c + ['_'] + d;
    var bcd := b + ['_'] + cd;
    var abcd := a + ['_'] + bcd;
    assert a + "_" + b + "_" + c + "_" + d == abcd;
    SplitBy4(a, b, c, d);
  }

  lemma SplitBy4(a: string, b: string, c: string, d: string)
    requires '_' !in a && '_' !in b && '_' !in c && '_' !in d
    ensures Split(a + ['_'] + (b + ['_'] + (c + ['_'] + d)), '_') == [a, b, c, d]
  {
    var cd := c + ['_'] + d;
    var bcd := b + ['_'] + cd;
    SplitNoSep(d, '_');
    SplitConcat(c, d, '_');
    SplitConcat(b, cd, '_');
    SplitConcat(a, bcd, '_');
  }

  lemma SplitOfAllTime()
    ensures Split(AllTime, '_') == ["date", "range", "all"]
  {
    var a, b, c := "date", "range", "all";
    assert AllTime == a + ['_'] + (b + ['_'] + c);
    SplitBy3(a, b, c);
  }

  lemma SplitBy3(a: string, b: string, c: string)
    requires '_' !in a && '_' !in b && '_' !in c
    ensures Split(a + ['_'] + (b + ['_'] + c), '_') == [a, b, c]
  {
    SplitNoSep(c, '_');
    SplitConcat(b, c, '_');
    SplitConcat(a, b + ['_'] + c, '_');
  }

  // ---------------------------------------------------------------------
  // get_period_name

  /**
   * The ways `get_period_name` fails: fewer than three parts leave `start`
   * and `end` unbound (UnboundLocalError); a date part that does not parse
   * raises ValueError.
   */
  datatype PeriodError = UnboundDates | InvalidDate

  /** The label for a span of `days` days between the given date texts. */
  function PeriodLabel(days: int, startText: string, endText: Option<string>): string {
    if days == 6 then "за последнюю неделю"
    else if days == 29 then "за последний месяц"
    else if days == 89 then "за последние 3 месяца"
    else "с " + startText + " по " + (if endText.Some? then endText.value else "None")
  }

  /**
   * `get_period_name(date_range)` with today's date passed in: an empty or
   * missing end part means today.
   */
  function GetPeriodName(dateRange: string, today: Date): (r: Result<string, PeriodError>)
    requires ValidDate(today)
    ensures dateRange == AllTime ==> r == Ok("за все время")
    ensures dateRange != AllTime && |Split(dateRange, '_')| < 3 ==> r == Err(UnboundDates)
    ensures (dateRange != AllTime && |Split(dateRange, '_')| >= 3
             && ParseIsoDate(Split(dateRange, '_')[2]).None?) ==> r == Err(InvalidDate)
  {
    if dateRange == AllTime then Ok("за все время")
    else
      var parts := Split(dateRange, '_');
      if |parts| < 3 then Err(UnboundDates)
      else
        var startText := parts[2];
        var endText := if |parts| > 3 then Some(parts[3]) else None;
        match ParseIsoDate(startText)
        case None => Err(InvalidDate)
        case Some(start) =>
          var end := if endText.Some? && endText.value != "" then ParseIsoDate(endText.value) else Some(today);
          match end
          case None => Err(InvalidDate)
          case Some(e) => Ok(PeriodLabel(DayNumber(e) - DayNumber(start), startText, endText))
  }

  /** `n` days after `d`. */
  function AddDays(d: Date, n: nat): (e: Date)
    requires ValidDate(d) && d.year + n < 9999
    ensures ValidDate(e) && e.year <= d.year + n
    decreases n
  {
    if n == 0 then d else AddDays(NextDay(d), n - 1)
  }

  lemma {:induction false} DayNumberAddDays(d: Date, n: nat)
    requires ValidDate(d) && d.year + n < 9999
    ensures DayNumber(AddDays(d, n)) == DayNumber(d) + n
    decreases n
  {
    if n > 0 {
      DayNumberNext(d);
      DayNumberAddDays(NextDay(d), n - 1);
    }
  }

  /** The name for a four-part range whose date parts both parse. */
  lemma PeriodNameOfParts(s: string, parts: seq<string>, start: Date, end: Date, today: Date)
    requires ValidDate(today) && ValidDate(start) && ValidDate(end)
    requires Split(s, '_') == parts && |parts| == 4 && s != AllTime
    requires ParseIsoDate(parts[2]) == Some(start) && ParseIsoDate(parts[3]) == Some(end)
    ensures GetPeriodName(s, today) == Ok(PeriodLabel(DayNumber(end) - DayNumber(start), parts[2], Some(parts[3])))
  {
    assert parts[3] != "";
  }

  /**
   * For an explicit start and end date the name depends only on how many
   * days apart they are: 6, 29 and 89 days give the week, month and
   * three-month names, anything else "с {start} по {end}".
   */
  lemma PeriodNameOfDates(start: Date, end: Date, today: Date)
    requires ValidDate(start) && ValidDate(end) && ValidDate(today)
    ensures var days := DayNumber(end) - DayNumber(start);
      GetPeriodName("date_range_" + IsoString(start) + "_" + IsoString(end), today)
      == Ok(if days == 6 then "за последнюю неделю"
            else if days == 29 then "за последний месяц"
            else if days == 89 then "за последние 3 месяца"
            else "с " + IsoString(start) + " по " + IsoString(end))
  {
    var a, b := IsoString(start), IsoString(end);
    var s := "date_range_" + a + "_" + b;
    IsoHasNoUnderscore(start);
    IsoHasNoUnderscore(end);
    assert s == "date" + "_" + "range" + "_" + a + "_" + b;
    SplitParts("date", "range", a, b);
    SplitOfAllTime();
    ParseIsoString(start);
    ParseIsoString(end);
    PeriodNameOfParts(s, ["date", "range", a, b], start, end, today);
  }

  /** A start date and the date a week, a month or a quarter later are named as such. */
  lemma PeriodNameOfSpan(start: Date, n: nat, today: Date)
    requires ValidDate(start) && ValidDate(today) && start.year + n < 9999
    requires n == 6 || n == 29 || n == 89
    ensures GetPeriodName("date_range_" + IsoString(start) + "_" + IsoString(AddDays(start, n)), today)
         == Ok(if n == 6 then "за последнюю неделю" else if n == 29 then "за последний месяц" else "за последние 3 месяца")
  {
    DayNumberAddDays(start, n);
    PeriodNameOfDates(start, AddDays(start, n), today);
  }

  lemma IsoHasNoUnderscore(d: Date)
    requires ValidDate(d)
    ensures '_' !in IsoString(d)
  {
    var s := IsoString(d);
    assert forall j :: 0 <= j < |s| ==> s[j] == '-' || IsDigitChar(s[j]);
  }

  // ---------------------------------------------------------------------
  // is_valid_entry_date

  const MinEntryDate := Date(2020, 1, 1)

  /** `a > b` on dates, compared field by field. */
  predicate DateAfter(a: Date, b: Date) {
    a.year > b.year || (a.year == b.year && (a.month > b.month || (a.month == b.month && a.day > b.day)))
  }

  /**
   * `is_valid_entry_date(date_str)` with today's date passed in: None, the
   * empty string and unparseable text are invalid; so is a date after today
   * or before 2020-01-01.
   */
  function IsValidEntryDate(dateStr: Option<string>, today: Date): (r: bool)
    ensures r <==> (dateStr.Some? && ParseIsoDate(dateStr.value).Some?
                    && DateLe(MinEntryDate, ParseIsoDate(dateStr.value).value)
                    && DateLe(ParseIsoDate(dateStr.value).value, today))
  {
    if dateStr.None? || dateStr.value == "" then false
    else match ParseIsoDate(dateStr.value)
      case None => false
      case Some(target) =>
        if DateAfter(target, today) then false
        else if DateAfter(MinEntryDate, target) then false
        else true
  }

  /** Every day from 2020-01-01 to today, written canonically, is accepted. */
  lemma EntryDateWindow(d: Date, today: Date)
    requires ValidDate(d) && DateLe(MinEntryDate, d) && DateLe(d, today)
    ensures IsValidEntryDate(Some(IsoString(d)), today)
  {
    ParseIsoString(d);
  }

  // ---------------------------------------------------------------------
  // is_valid_time_format

  /** The pattern `([0-1][0-9]|2[0-3]):[0-5][0-9]` matched by the whole of `t`. */
  predicate StrictClock(t: string) {
    |t| == 5 && t[2] == ':'
    && (('0' <= t[0] <= '1' && IsDigitChar(t[1])) || (t[0] == '2' && '0' <= t[1] <= '3'))
    && '0' <= t[3] <= '5' && IsDigitChar(t[4])
  }

  /**
   * `is_valid_time_format(time_str)`: the anchored pattern (Python's `$`
   * also matches before one final newline), then `int` of both halves and a
   * range check.
   */
  function IsValidTimeFormat(s: string): (r: bool)
    ensures r ==> var t := if |s| == 6 then s[..5] else s;
      |t| == 5 && IsDigits(t[..2]) && IsDigits(t[3..])
      && DigitsValue(t[..2]) < 24 && DigitsValue(t[3..]) < 60
      && t == Pad2(DigitsValue(t[..2])) + ":" + Pad2(DigitsValue(t[3..]))
      && (|s| == 6 ==> s[5] == '\n')
  {
    if !(StrictClock(s) || (|s| == 6 && s[5] == '\n' && StrictClock(s[..5]))) then false
    else
      var parts := Split(s, ':');
      if |parts| != 2 then false
      else
        var hour, minute := ParseInt(parts[0]), ParseInt(parts[1]);
        var inRange := hour.Some? && minute.Some? && 0 <= hour.value <= 23 && 0 <= minute.value <= 59;
        if |s| == 6 then (ClockHalvesNewline(s); ClockHalves(s[..5]); inRange)
        else (ClockHalves(s); inRange)
  }

  /** What the pattern accepts splits into two parsed halves. */
  lemma ClockHalves(s: string)
    requires StrictClock(s)
    ensures Split(s, ':') == [s[..2], s[3..]]
      && ParseInt(s[..2]) == Some(DigitsValue(s[..2]) as int)
      && ParseInt(s[3..]) == Some(DigitsValue(s[3..]) as int)
      && IsDigits(s[..2]) && IsDigits(s[3..])
      && DigitsValue(s[..2]) < 24 && DigitsValue(s[3..]) < 60
      && s == Pad2(DigitsValue(s[..2])) + ":" + Pad2(DigitsValue(s[3..]))
  {
    ClockSplit(s);
    ClockFields(s);
    ParseIntOfDigits(s[..2]);
    ParseIntOfDigits(s[3..]);
  }

  /**
   * With the one final newline that `$` lets through: the split and the
   * two `int` readings are those of the text without it.
   */
  lemma ClockHalvesNewline(s: string)
    requires |s| == 6 && s[5] == '\n' && StrictClock(s[..5])
    ensures Split(s, ':') == [s[..2], s[3..]]
    ensures ParseInt(s[..2]) == ParseInt(s[..5][..2]) && ParseInt(s[3..]) == ParseInt(s[..5][3..])
  {
    var t := s[..5];
    assert s[..2] == t[..2];
    assert ':' !in s[3..];
    ClockSplit(s);
    ClockFields(t);
    assert s[3..] == t[3..] + "\n";
    ParseIntNewline(t[3..]);
    ParseIntOfDigits(t[3..]);
  }

  lemma ClockSplit(s: string)
    requires |s| >= 3 && s[2] == ':' && ':' !in s[..2] && ':' !in s[3..]
    ensures Split(s, ':') == [s[..2], s[3..]]
  {
    assert s == s[..2] + [':'] + s[3..];
    SplitConcat(s[..2], s[3..], ':');
    SplitNoSep(s[3..], ':');
  }

  lemma ClockFields(t: string)
    requires StrictClock(t)
    ensures IsDigits(t[..2]) && IsDigits(t[3..])
    ensures DigitsValue(t[..2]) < 24 && DigitsValue(t[3..]) < 60
    ensures t == Pad2(DigitsValue(t[..2])) + ":" + Pad2(DigitsValue(t[3..]))
  {
    DigitsValueTwo(t[..2]);
    DigitsValueTwo(t[3..]);
    Pad2OfDigits(t[..2]);
    Pad2OfDigits(t[3..]);
    assert t == t[..2] + ":" + t[3..];
  }

  /** `int` ignores one trailing newline. */
  lemma ParseIntNewline(d: string)
    requires IsDigits(d)
    ensures ParseInt(d + "\n") == Some(DigitsValue(d) as int)
  {
    StripNewline(d);
    ParseIntOfDigits(d);
    ParseIntOfSameStrip(d + "\n", d);
  }

  lemma StripNewline(d: string)
    requires IsDigits(d)
    ensures Strip(d + "\n") == d
  {
    var s := d + "\n";
    assert s[0] == d[0];
    StripLeftKeeps(s);
    StripRightNewline(d);
  }

  /** Every hour 00-23 and minute 00-59, zero-padded, is accepted. */
  lemma PaddedClockAccepted(h: nat, m: nat)
    requires h < 24 && m < 60
    ensures IsValidTimeFormat(Pad2(h) + ":" + Pad2(m))
  {
    var s := Pad2(h) + ":" + Pad2(m);
    assert s[..2] == Pad2(h) && s[3..] == Pad2(m);
    ClockHalves(s);
    DigitsValuePad2(h);
    DigitsValuePad2(m);
  }

  /** `$` also matches before a final newline, and `int` strips it. */
  lemma PaddedClockNewlineAccepted(h: nat, m: nat)
    requires h < 24 && m < 60
    ensures IsValidTimeFormat(Pad2(h) + ":" + Pad2(m) + "\n")
  {
    var t := Pad2(h) + ":" + Pad2(m);
    PaddedClockAccepted(h, m);
    NewlineAccepted(t);
  }

  /** A final newline does not change the verdict on a time the pattern accepts. */
  lemma NewlineAccepted(t: string)
    requires StrictClock(t)
    ensures IsValidTimeFormat(t + "\n") == IsValidTimeFormat(t)
  {
    var s := t + "\n";
    assert s[..5] == t;
    ClockHalvesNewline(s);
    ClockHalves(t);
  }

  // ---------------------------------------------------------------------
  // format_date

  /** `format_date(date_str)` with the default output format "%d.%m.%Y". */
  function FormatDate(dateStr: string): (r: string)
    ensures ParseIsoDate(dateStr).None? ==> r == dateStr
  {
    match ParseIsoDate(dateStr)
    case None => dateStr
    case Some(d) => FormatDayMonthYear(d)
  }

  /**
   * On canonical "YYYY-MM-DD" text (year 1000 or later) `format_date`
   * only rearranges the three fields into "DD.MM.YYYY".
   */
  lemma FormatDateRearranges(d: Date)
    requires ValidDate(d) && d.year >= 1000
    ensures var s := IsoString(d);
      FormatDate(s) == s[8..10] + "." + s[5..7] + "." + s[..4]
  {
    var s := IsoString(d);
    ParseIsoString(d);
    assert s[8..10] == Pad2(d.day) && s[5..7] == Pad2(d.month) && s[..4] == Pad4(d.year);
    YearDigits(d.year);
  }

  /** A year of four digits prints as its padded form. */
  lemma YearDigits(y: nat)
    requires 1000 <= y < 10000
    ensures NatToStr(y) == Pad4(y)
  {
    var p := Pad4(y);
    assert p[0] != '0' by {
      assert p[..2] == Pad2(y / 100);
      assert p[0] == Pad2(y / 100)[0];
    }
    NatToStrOfDigits(p);
  }
}
