/**
 * The combined analytics command (src/handlers/combined_analytics_handlers.py):
 * its argument parser, the mood face, the no-data reply and the
 * good-day/bad-day comparison of positive impressions.
 */
module CombinedAnalyticsHandlers {
  import opened Base
  import opened Strings
  import opened Sorting

  // ---------------------------------------------------------------------
  // parse_analytics_args

  const DefaultPeriod := 7

  /** How many arguments the loop consumes at position `i`: two for `--period` and an integer, else one. */
  function Width(args: seq<string>, nums: seq<Option<int>>, i: nat): (w: nat)
    requires |nums| == |args| && i < |args|
    ensures 1 <= w <= 2 && i + w <= |args|
    ensures w == 2 <==> (args[i] == "--period" && i + 1 < |args| && nums[i + 1].Some?)
  {
    if args[i] == "--period" && i + 1 < |args| && nums[i + 1].Some? then 2 else 1
  }

  /** The period after the loop has run from position `i` with `period` so far. */
  function ScanFrom(args: seq<string>, nums: seq<Option<int>>, i: nat, period: int): int
    requires |nums| == |args|
    decreases |args| - i
  {
    if i >= |args| then period
    else if Width(args, nums, i) == 2 then ScanFrom(args, nums, i + 2, nums[i + 1].value)
    else ScanFrom(args, nums, i + 1, period)
  }

  /** The loop started at `i` stops at position `k`. */
  predicate Reaches(args: seq<string>, nums: seq<Option<int>>, i: nat, k: nat)
    requires |nums| == |args|
    decreases |args| - i
  {
    i == k || (i < k && i < |args| && Reaches(args, nums, i + Width(args, nums, i), k))
  }

  /** `parse_analytics_args(args)['period_days']` */
  method ParseAnalyticsArgs(args: seq<string>) returns (periodDays: int)
    ensures periodDays == ScanFrom(args, Ints(args), 0, DefaultPeriod)
  {
    ghost var nums := Ints(args);
    periodDays := DefaultPeriod;
    var i := 0;
    while i < |args|
      invariant 0 <= i <= |args|
      invariant ScanFrom(args, nums, i, periodDays) == ScanFrom(args, nums, 0, DefaultPeriod)
      decreases |args| - i
    {
      ScanStep(args, i, periodDays);
      var arg := args[i];
      if arg == "--period" && i + 1 < |args| {
        match ParseInt(args[i + 1])
        case Some(n) =>
          periodDays := n;
          i := i + 2;
        case None =>
          i := i + 1;
      } else {
        i := i + 1;
      }
    }
  }

  /** One step of the loop, with `int()` applied to the argument after a `--period`. */
  lemma ScanStep(args: seq<string>, i: nat, period: int)
    requires i < |args|
    ensures ScanFrom(args, Ints(args), i, period)
      == if args[i] == "--period" && i + 1 < |args| && ParseInt(args[i + 1]).Some?
         then ScanFrom(args, Ints(args), i + 2, ParseInt(args[i + 1]).value)
         else ScanFrom(args, Ints(args), i + 1, period)
  {
    if i + 1 < |args| {
      IntsAt(args, i + 1);
    }
  }

  /**
   * The period is the starting one or a value read right after a
   * `--period` somewhere in the arguments.
   */
  lemma {:induction false} PeriodFromValues(args: seq<string>, nums: seq<Option<int>>, i: nat, period: int)
    requires |nums| == |args|
    ensures var r := ScanFrom(args, nums, i, period);
      r == period || exists j :: 0 < j < |args| && args[j - 1] == "--period" && nums[j] == Some(r)
    decreases |args| - i
  {
    if i < |args| {
      if Width(args, nums, i) == 2 {
        var n := nums[i + 1].value;
        PeriodFromValues(args, nums, i + 2, n);
        var r := ScanFrom(args, nums, i, period);
        if r == n {
          assert args[(i + 1) - 1] == "--period" && nums[i + 1] == Some(r);
        }
      } else {
        PeriodFromValues(args, nums, i + 1, period);
      }
    }
  }

  /**
   * The period is the default or an integer that follows a `--period`
   * somewhere in the arguments.
   */
  lemma PeriodFromArgs(args: seq<string>, i: nat, period: int)
    ensures var r := ScanFrom(args, Ints(args), i, period);
      r == period || exists j :: 0 < j < |args| && args[j - 1] == "--period" && ParseInt(args[j]) == Some(r)
  {
    var nums := Ints(args);
    PeriodFromValues(args, nums, i, period);
    var r := ScanFrom(args, nums, i, period);
    if r != period {
      var j :| 0 < j < |args| && args[j - 1] == "--period" && nums[j] == Some(r);
      IntsAt(args, j);
    }
  }

  /** Without `--period` anywhere the period is the default 7 days. */
  lemma NoFlagDefault(args: seq<string>)
    requires forall j :: 0 <= j < |args| ==> args[j] != "--period"
    ensures ScanFrom(args, Ints(args), 0, DefaultPeriod) == 7
  {
    PeriodFromValues(args, Ints(args), 0, DefaultPeriod);
  }

  /** A final `--period N` with an integer N the loop reaches wins. */
  lemma LastPeriodWins(args: seq<string>, i: nat, period: int, n: int)
    requires |args| >= 2 && args[|args| - 2] == "--period" && args[|args| - 1] == IntToStr(n)
    requires Reaches(args, Ints(args), i, |args| - 2)
    ensures ScanFrom(args, Ints(args), i, period) == n
  {
    var nums := Ints(args);
    IntsAtIntToStr(args, |args| - 1, n);
    LastPeriodValueWins(args, nums, i, period);
  }

  /** The same for any final argument, whatever value it is read as. */
  lemma {:induction false} LastPeriodValueWins(args: seq<string>, nums: seq<Option<int>>, i: nat, period: int)
    requires |nums| == |args| && |args| >= 2 && args[|args| - 2] == "--period" && nums[|args| - 1].Some?
    requires Reaches(args, nums, i, |args| - 2)
    ensures ScanFrom(args, nums, i, period) == nums[|args| - 1].value
    decreases |args| - i
  {
    if i < |args| - 2 {
      if Width(args, nums, i) == 2 {
        LastPeriodValueWins(args, nums, i + 2, nums[i + 1].value);
      } else {
        LastPeriodValueWins(args, nums, i + 1, period);
      }
    }
  }

  /** `--period` followed by a non-integer is skipped alone: the next token is looked at on its own. */
  lemma NonIntegerSkipsFlag(args: seq<string>, i: nat, period: int)
    requires i + 1 < |args| && args[i] == "--period" && ParseInt(args[i + 1]).None?
    ensures ScanFrom(args, Ints(args), i, period) == ScanFrom(args, Ints(args), i + 1, period)
  {
    IntsAt(args, i + 1);
  }

  /** `--period --period N`: the first flag is skipped, the second takes the N. */
  lemma RepeatedFlag(args: seq<string>, n: int)
    requires |args| == 3 && args[0] == "--period" && args[1] == "--period" && args[2] == IntToStr(n)
    ensures ScanFrom(args, Ints(args), 0, DefaultPeriod) == n
  {
    var nums := Ints(args);
    IntsAt(args, 1);
    IntsAt(args, 2);
    FlagIsNotInt();
    ParseIntOfIntToStr(n);
    RepeatedFlagValues(args, nums);
  }

  lemma RepeatedFlagValues(args: seq<string>, nums: seq<Option<int>>)
    requires |args| == 3 && args[0] == "--period" && args[1] == "--period"
    requires |nums| == 3 && nums[1].None? && nums[2].Some?
    ensures ScanFrom(args, nums, 0, DefaultPeriod) == nums[2].value
  {
    assert Width(args, nums, 1) == 2 && ScanFrom(args, nums, 1, DefaultPeriod) == nums[2].value;
    assert Width(args, nums, 0) == 1;
  }

  /** `int("--period")` raises: a flag is never read as the period. */
  lemma FlagIsNotInt()
    ensures ParseInt("--period").None?
  {
    StripOfTrimmed("--period");
    assert "--period"[1..] == "-period";
    assert !IsDigitChar("-period"[0]);
  }

  // ---------------------------------------------------------------------
  // _get_mood_emoji

  /** The four faces, from the best mood down. */
  datatype MoodFace = Beaming | Smiling | Neutral | Sad

  /** `_get_mood_emoji(mood_score)` */
  function MoodEmoji(score: real): (f: MoodFace)
    ensures f == Beaming <==> score >= 8.0
    ensures f == Smiling <==> 6.0 <= score < 8.0
    ensures f == Neutral <==> 4.0 <= score < 6.0
    ensures f == Sad <==> score < 4.0
  {
    if score >= 8.0 then Beaming
    else if score >= 6.0 then Smiling
    else if score >= 4.0 then Neutral
    else Sad
  }

  /** How good a face is: 3 for the best. */
  function Rank(f: MoodFace): nat {
    match f
    case Beaming => 3
    case Smiling => 2
    case Neutral => 1
    case Sad => 0
  }

  /** A better score never gets a worse face. */
  lemma MoodEmojiMonotone(s: real, t: real)
    requires s <= t
    ensures Rank(MoodEmoji(s)) <= Rank(MoodEmoji(t))
  {
  }

  // ---------------------------------------------------------------------
  // The no-data reply

  /** The totals `get_activity_overview` reports for the period. */
  datatype ActivityOverview = ActivityOverview(
    totalImpressions: nat, totalSurveys: nat, totalEntries: nat, avgMoodScore: Option<real>)

  /** The reply to `/combined_analytics`, up to its wording. */
  datatype Reply =
    | NoData(periodDays: int)
    | Summary(periodDays: int, moodFace: Option<MoodFace>, comparison: Option<(real, real)>)

  /**
   * The reply for an overview and the days of the correlation query: no
   * data exactly when all three totals are zero; otherwise the mood face
   * when there is an average mood, and the good/bad-day comparison.
   */
  function CombinedReply(periodDays: int, o: ActivityOverview, days: seq<CorrelationDay>): (r: Reply)
    ensures r.NoData? <==> o.totalImpressions == 0 && o.totalSurveys == 0 && o.totalEntries == 0
    ensures r.periodDays == periodDays
    ensures r.Summary? ==> (r.moodFace.Some? <==> o.avgMoodScore.Some?)
    ensures r.Summary? && o.avgMoodScore.Some? ==> r.moodFace == Some(MoodEmoji(o.avgMoodScore.value))
    ensures r.Summary? && r.comparison.Some? ==>
      GoodCount(WithMood(days)) > 0 && BadCount(WithMood(days)) > 0
  {
    if o.totalImpressions == 0 && o.totalSurveys == 0 && o.totalEntries == 0 then NoData(periodDays)
    else
      var face := if o.avgMoodScore.Some? then Some(MoodEmoji(o.avgMoodScore.value)) else None;
      Summary(periodDays, face, Comparison(WithMood(days)))
  }

  // ---------------------------------------------------------------------
  // Good and bad days

  /** A day of `get_correlation_data`: its mood, if recorded, and its positive impressions. */
  datatype CorrelationDay = CorrelationDay(moodScore: Option<int>, positiveCount: nat)

  predicate HasMood(d: CorrelationDay) { d.moodScore.Some? }

  /** Mood 7 or more. */
  predicate GoodDay(d: CorrelationDay) { d.moodScore.Some? && d.moodScore.value >= 7 }

  /** Mood 4 or less. */
  predicate BadDay(d: CorrelationDay) { d.moodScore.Some? && d.moodScore.value <= 4 }

  /** `[d for d in correlation_data if d['mood_score'] is not None]` */
  function WithMood(days: seq<CorrelationDay>): (r: seq<CorrelationDay>)
    ensures forall i :: 0 <= i < |r| ==> HasMood(r[i])
    ensures |r| <= |days|
  {
    Filter(days, HasMood)
  }

  function GoodCount(days: seq<CorrelationDay>): nat {
    if days == [] then 0 else GoodCount(days[..|days| - 1]) + (if GoodDay(days[|days| - 1]) then 1 else 0)
  }

  function GoodSum(days: seq<CorrelationDay>): nat {
    if days == [] then 0
    else GoodSum(days[..|days| - 1]) + (if GoodDay(days[|days| - 1]) then days[|days| - 1].positiveCount else 0)
  }

  function BadCount(days: seq<CorrelationDay>): nat {
    if days == [] then 0 else BadCount(days[..|days| - 1]) + (if BadDay(days[|days| - 1]) then 1 else 0)
  }

  function BadSum(days: seq<CorrelationDay>): nat {
    if days == [] then 0
    else BadSum(days[..|days| - 1]) + (if BadDay(days[|days| - 1]) then days[|days| - 1].positiveCount else 0)
  }

  /** Days with a mood of 5 or 6: neither good nor bad. */
  function MiddleCount(days: seq<CorrelationDay>): nat {
    if days == [] then 0
    else MiddleCount(days[..|days| - 1]) + (if HasMood(days[|days| - 1]) && !GoodDay(days[|days| - 1]) && !BadDay(days[|days| - 1]) then 1 else 0)
  }

  /** The two averages, reported only when there is at least one good and one bad day. */
  function Comparison(days: seq<CorrelationDay>): (r: Option<(real, real)>)
    ensures r.Some? <==> GoodCount(days) > 0 && BadCount(days) > 0
  {
    if GoodCount(days) > 0 && BadCount(days) > 0 then
      Some((GoodSum(days) as real / GoodCount(days) as real, BadSum(days) as real / BadCount(days) as real))
    else None
  }

  /**
   * The loop over the days with a mood: sums and counts of positive
   * impressions on good and bad days, then the two averages when both
   * groups are non-empty.
   */
  method GoodBadComparison(correlationData: seq<CorrelationDay>) returns (r: Option<(real, real)>)
    ensures r == Comparison(WithMood(correlationData))
  {
    var days := WithMood(correlationData);
    var goodSum, badSum, goodCount, badCount := 0, 0, 0, 0;
    for n := 0 to |days|
      invariant goodSum == GoodSum(days[..n]) && goodCount == GoodCount(days[..n])
      invariant badSum == BadSum(days[..n]) && badCount == BadCount(days[..n])
    {
      assert days[..n + 1][..n] == days[..n];
      var day := days[n];
      if day.moodScore.value >= 7 {
        goodSum := goodSum + day.positiveCount;
        goodCount := goodCount + 1;
      } else if day.moodScore.value <= 4 {
        badSum := badSum + day.positiveCount;
        badCount := badCount + 1;
      }
    }
    assert days[..|days|] == days;
    if goodCount > 0 && badCount > 0 {
      r := Some((goodSum as real / goodCount as real, badSum as real / badCount as real));
    } else {
      r := None;
    }
  }

  /** Every day with a mood is exactly one of good, bad or in between. */
  lemma {:induction false} DaysPartition(days: seq<CorrelationDay>)
    ensures GoodCount(days) + BadCount(days) + MiddleCount(days) == |WithMood(days)|
  {
    if days != [] {
      var init, last := days[..|days| - 1], days[|days| - 1];
      DaysPartition(init);
      WithMoodSnoc(init, last);
      assert init + [last] == days;
    }
  }

  /** One more day adds one to the days with a mood exactly when it has one. */
  lemma WithMoodSnoc(init: seq<CorrelationDay>, last: CorrelationDay)
    ensures |WithMood(init + [last])| == |WithMood(init)| + (if HasMood(last) then 1 else 0)
  {
    FilterSnoc(init, last, HasMood);
  }

  /** Filtering one more element adds it exactly when it passes. */
  lemma FilterSnoc<T(!new)>(s: seq<T>, x: T, p: T -> bool)
    ensures |Filter(s + [x], p)| == |Filter(s, p)| + (if p(x) then 1 else 0)
  {
    FilterConcat(s, [x], p);
    assert Filter([x], p) == if p(x) then [x] else [];
  }

  /** The positive impressions of the good (bad) days are at most `most` per day. */
  lemma {:induction false} SumsBounded(days: seq<CorrelationDay>, most: nat)
    requires forall i :: 0 <= i < |days| ==> days[i].positiveCount <= most
    ensures GoodSum(days) <= GoodCount(days) * most
    ensures BadSum(days) <= BadCount(days) * most
  {
    if days != [] {
      var init := days[..|days| - 1];
      var last := days[|days| - 1];
      SumsBounded(init, most);
      assert last.positiveCount <= most;
      CountStep(GoodCount(init), GoodDay(last), most);
      CountStep(BadCount(init), BadDay(last), most);
    }
  }

  /** One more counted day adds `most` to the bound. */
  lemma CountStep(count: nat, counted: bool, most: nat)
    ensures (count + if counted then 1 else 0) * most == count * most + (if counted then most else 0)
  {
  }

  /** Division by a positive count keeps a bound that holds per day. */
  lemma AverageAtMost(sum: nat, count: nat, most: nat)
    requires count > 0 && sum <= count * most
    ensures 0.0 <= sum as real / count as real <= most as real
  {
    var c := count as real;
    assert sum as real <= c * most as real;
    assert (sum as real / c) * c == sum as real;
  }

  /** Each average is at most the largest positive count of its days. */
  lemma ComparisonBounded(days: seq<CorrelationDay>, most: nat)
    requires forall i :: 0 <= i < |days| ==> days[i].positiveCount <= most
    requires Comparison(days).Some?
    ensures 0.0 <= Comparison(days).value.0 <= most as real
    ensures 0.0 <= Comparison(days).value.1 <= most as real
  {
    SumsBounded(days, most);
    AverageAtMost(GoodSum(days), GoodCount(days), most);
    AverageAtMost(BadSum(days), BadCount(days), most);
  }
}
