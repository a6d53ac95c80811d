/**
 * The impression statistics command (src/handlers/impression_analytics.py):
 * its argument parser and the counters behind the report (categories,
 * tags, time of day, the intensity series).
 */
module ImpressionAnalytics {
  import opened Base
  import opened Strings
  import opened Sorting
  import opened Counting
  import opened Dates

  // ---------------------------------------------------------------------
  // parse_analytics_args

  datatype AnalyticsArgs = AnalyticsArgs(
    periodDays: int,
    dateFrom: Option<string>,
    dateTo: Option<string>,
    category: Option<string>,
    detailed: bool)

  const DefaultArgs := AnalyticsArgs(7, None, None, None, false)

  /** The flags that take the argument after them as their value. */
  predicate ValueFlag(arg: string) {
    arg == "--period" || arg == "--from" || arg == "--to" || arg == "--category"
  }

  /** How many arguments the scan consumes at position `i`: two for a flag with its value, else one. */
  function Width(args: seq<string>, nums: seq<Option<int>>, i: nat): (w: nat)
    requires |nums| == |args| && i < |args|
    ensures 1 <= w <= 2 && i + w <= |args|
    ensures w == 2 <==> (i + 1 < |args| && ValueFlag(args[i]) && (args[i] == "--period" ==> nums[i + 1].Some?))
  {
    var arg := args[i];
    if i + 1 < |args| && (arg == "--from" || arg == "--to" || arg == "--category") then 2
    else if i + 1 < |args| && arg == "--period" && nums[i + 1].Some? then 2
    else 1
  }

  /** What the argument at position `i` does to the options; `nums` holds what `int()` reads. */
  function Apply(args: seq<string>, nums: seq<Option<int>>, i: nat, p: AnalyticsArgs): AnalyticsArgs
    requires |nums| == |args| && i < |args|
  {
    var arg := args[i];
    if arg == "--period" && i + 1 < |args| then
      match nums[i + 1]
      case Some(n) => p.(periodDays := n)
      case None => p
    else if arg == "--from" && i + 1 < |args| then p.(dateFrom := Some(args[i + 1]))
    else if arg == "--to" && i + 1 < |args| then p.(dateTo := Some(args[i + 1]))
    else if arg == "--category" && i + 1 < |args| then p.(category := Some(args[i + 1]))
    else if arg == "--detailed" then p.(detailed := true)
    else p
  }

  /** The options after scanning `args` from position `i`. */
  function ScanFrom(args: seq<string>, nums: seq<Option<int>>, i: nat, p: AnalyticsArgs): AnalyticsArgs
    requires |nums| == |args|
    decreases |args| - i
  {
    if i >= |args| then p else ScanFrom(args, nums, i + Width(args, nums, i), Apply(args, nums, i, p))
  }

  /** The scan started at `i` stops at position `k`. */
  predicate Reaches(args: seq<string>, nums: seq<Option<int>>, i: nat, k: nat)
    requires |nums| == |args|
    decreases |args| - i
  {
    i == k || (i < k && i < |args| && Reaches(args, nums, i + Width(args, nums, i), k))
  }

  /**
   * `parse_analytics_args`: the defaults (7 days, no dates, no category,
   * not detailed) updated by the arguments the scan reaches.
   */
  method ParseAnalyticsArgs(args: seq<string>) returns (p: AnalyticsArgs)
    ensures p == ScanFrom(args, Ints(args), 0, DefaultArgs)
  {
    ghost var nums := Ints(args);
    p := DefaultArgs;
    var i := 0;
    while i < |args|
      invariant 0 <= i <= |args|
      invariant ScanFrom(args, nums, i, p) == ScanFrom(args, nums, 0, DefaultArgs)
      decreases |args| - i
    {
      if i + 1 < |args| {
        IntsAt(args, i + 1);
      }
      ghost var next := Apply(args, nums, i, p);
      ghost var after := i + Width(args, nums, i);
      assert ScanFrom(args, nums, i, p) == ScanFrom(args, nums, after, next);
      var arg := args[i];
      if arg == "--period" && i + 1 < |args| {
        match ParseInt(args[i + 1])
        case Some(n) =>
          p := p.(periodDays := n);
          i := i + 2;
        case None =>
          i := i + 1;
      } else if arg == "--from" && i + 1 < |args| {
        p := p.(dateFrom := Some(args[i + 1]));
        i := i + 2;
      } else if arg == "--to" && i + 1 < |args| {
        p := p.(dateTo := Some(args[i + 1]));
        i := i + 2;
      } else if arg == "--category" && i + 1 < |args| {
        p := p.(category := Some(args[i + 1]));
        i := i + 2;
      } else if arg == "--detailed" {
        p := p.(detailed := true);
        i := i + 1;
      } else {
        i := i + 1;
      }
    }
  }

  predicate Recognised(arg: string) {
    ValueFlag(arg) || arg == "--detailed"
  }

  /** Arguments none of which is a flag change nothing: unknown tokens are skipped. */
  lemma {:induction false} UnknownSkipped(args: seq<string>, nums: seq<Option<int>>, i: nat, p: AnalyticsArgs)
    requires |nums| == |args|
    requires forall j :: 0 <= j < |args| ==> !Recognised(args[j])
    ensures ScanFrom(args, nums, i, p) == p
    decreases |args| - i
  {
    if i < |args| {
      UnknownSkipped(args, nums, i + 1, p);
    }
  }

  /** Without flags that take a value, the scan visits every position. */
  lemma {:induction false} ReachesWithoutValueFlags(args: seq<string>, nums: seq<Option<int>>, i: nat, k: nat)
    requires |nums| == |args| && i <= k <= |args|
    requires forall j :: i <= j < k ==> !ValueFlag(args[j])
    ensures Reaches(args, nums, i, k)
    decreases k - i
  {
    if i < k {
      assert Width(args, nums, i) == 1;
      ReachesWithoutValueFlags(args, nums, i + 1, k);
    }
  }

  /**
   * A final `--category v` the scan reaches overrides every earlier
   * category; likewise for `--from` and `--to`.
   */
  lemma {:induction false} LastCategoryWins(args: seq<string>, nums: seq<Option<int>>, i: nat, p: AnalyticsArgs, v: string)
    requires |nums| == |args| && |args| >= 2 && args[|args| - 2] == "--category" && args[|args| - 1] == v
    requires Reaches(args, nums, i, |args| - 2)
    ensures ScanFrom(args, nums, i, p).category == Some(v)
    decreases |args| - i
  {
    if i < |args| - 2 {
      LastCategoryWins(args, nums, i + Width(args, nums, i), Apply(args, nums, i, p), v);
    }
  }

  lemma {:induction false} LastFromWins(args: seq<string>, nums: seq<Option<int>>, i: nat, p: AnalyticsArgs, v: string)
    requires |nums| == |args| && |args| >= 2 && args[|args| - 2] == "--from" && args[|args| - 1] == v
    requires Reaches(args, nums, i, |args| - 2)
    ensures ScanFrom(args, nums, i, p).dateFrom == Some(v)
    decreases |args| - i
  {
    if i < |args| - 2 {
      LastFromWins(args, nums, i + Width(args, nums, i), Apply(args, nums, i, p), v);
    }
  }

  lemma {:induction false} LastToWins(args: seq<string>, nums: seq<Option<int>>, i: nat, p: AnalyticsArgs, v: string)
    requires |nums| == |args| && |args| >= 2 && args[|args| - 2] == "--to" && args[|args| - 1] == v
    requires Reaches(args, nums, i, |args| - 2)
    ensures ScanFrom(args, nums, i, p).dateTo == Some(v)
    decreases |args| - i
  {
    if i < |args| - 2 {
      LastToWins(args, nums, i + Width(args, nums, i), Apply(args, nums, i, p), v);
    }
  }

  /** A final `--period N` with an integer N the scan reaches sets the period. */
  lemma LastPeriodWins(args: seq<string>, i: nat, p: AnalyticsArgs, n: int)
    requires |args| >= 2 && args[|args| - 2] == "--period" && args[|args| - 1] == IntToStr(n)
    requires Reaches(args, Ints(args), i, |args| - 2)
    ensures ScanFrom(args, Ints(args), i, p).periodDays == n
  {
    var nums := Ints(args);
    IntsAtIntToStr(args, |args| - 1, n);
    LastPeriodValueWins(args, nums, i, p);
  }

  /** The same for any final argument read as an integer: the period is its value. */
  lemma {:induction false} LastPeriodValueWins(args: seq<string>, nums: seq<Option<int>>, i: nat, p: AnalyticsArgs)
    requires |nums| == |args| && |args| >= 2 && args[|args| - 2] == "--period" && nums[|args| - 1].Some?
    requires Reaches(args, nums, i, |args| - 2)
    ensures ScanFrom(args, nums, i, p).periodDays == nums[|args| - 1].value
    decreases |args| - i
  {
    if i < |args| - 2 {
      LastPeriodValueWins(args, nums, i + Width(args, nums, i), Apply(args, nums, i, p));
    }
  }

  /** A non-integer after `--period` consumes only the flag: the scan moves to the value. */
  lemma NonIntegerPeriodSkipsFlag(args: seq<string>, i: nat, p: AnalyticsArgs)
    requires i + 1 < |args| && args[i] == "--period" && ParseInt(args[i + 1]).None?
    ensures ScanFrom(args, Ints(args), i, p) == ScanFrom(args, Ints(args), i + 1, p)
  {
    var nums := Ints(args);
    IntsAt(args, i + 1);
    PeriodWithoutValue(args, nums, i, p);
  }

  lemma PeriodWithoutValue(args: seq<string>, nums: seq<Option<int>>, i: nat, p: AnalyticsArgs)
    requires |nums| == |args| && i + 1 < |args| && args[i] == "--period" && nums[i + 1].None?
    ensures ScanFrom(args, nums, i, p) == ScanFrom(args, nums, i + 1, p)
  {
    assert Width(args, nums, i) == 1;
  }

  /** A value flag takes the next argument even when that is another flag. */
  lemma FlagTakenAsValue(args: seq<string>, nums: seq<Option<int>>, x: string)
    requires |nums| == |args| == 3 && args[0] == "--from" && args[1] == "--category" && args[2] == x
    ensures ScanFrom(args, nums, 0, DefaultArgs)
      == DefaultArgs.(dateFrom := Some("--category"), category := None, detailed := x == "--detailed")
  {
    var q := DefaultArgs.(dateFrom := Some("--category"));
    assert Width(args, nums, 0) == 2 && Apply(args, nums, 0, DefaultArgs) == q;
    assert Width(args, nums, 2) == 1 && ScanFrom(args, nums, 2, q) == Apply(args, nums, 2, q);
  }

  // ---------------------------------------------------------------------
  // Impressions as the analytics see them

  /** The `category` key: missing, present with None, or a name. */
  datatype CategoryField = MissingCategory | NullCategory | CategoryName(name: string)

  datatype ImpressionView = ImpressionView(
    category: CategoryField,
    intensity: Option<int>,         // None for a missing key or None
    tags: seq<string>,
    createdAt: Option<string>)      // None for a missing key

  /** `imp.get('category', 'neutral')`: None is a group of its own. */
  function GroupKey(imp: ImpressionView): (k: Option<string>)
    ensures k == Some("neutral") <==> imp.category in {MissingCategory, CategoryName("neutral")}
    ensures k.None? <==> imp.category.NullCategory?
  {
    match imp.category
    case MissingCategory => Some("neutral")
    case NullCategory => None
    case CategoryName(c) => Some(c)
  }

  // ---------------------------------------------------------------------
  // calculate_category_stats

  function GroupCount(imps: seq<ImpressionView>, k: Option<string>): nat {
    if imps == [] then 0
    else GroupCount(imps[..|imps| - 1], k) + (if GroupKey(imps[|imps| - 1]) == k then 1 else 0)
  }

  function GroupIntensities(imps: seq<ImpressionView>, k: Option<string>): seq<int> {
    if imps == [] then []
    else
      var last := imps[|imps| - 1];
      GroupIntensities(imps[..|imps| - 1], k)
        + (if GroupKey(last) == k && last.intensity.Some? then [last.intensity.value] else [])
  }

  function Sum(xs: seq<int>): int {
    if xs == [] then 0 else Sum(xs[..|xs| - 1]) + xs[|xs| - 1]
  }

  /** `sum(xs) / len(xs)`, 0 for no values (exact arithmetic, not floating point). */
  function Average(xs: seq<int>): real {
    if xs == [] then 0.0 else Sum(xs) as real / |xs| as real
  }

  lemma {:induction false} SumBounds(xs: seq<int>, lo: int, hi: int)
    requires forall i :: 0 <= i < |xs| ==> lo <= xs[i] <= hi
    ensures |xs| * lo <= Sum(xs) <= |xs| * hi
  {
    if xs != [] {
      SumBounds(xs[..|xs| - 1], lo, hi);
      assert |xs| * lo == (|xs| - 1) * lo + lo;
      assert |xs| * hi == (|xs| - 1) * hi + hi;
    }
  }

  /** The average lies between any bounds on the values. */
  lemma AverageBounds(xs: seq<int>, lo: int, hi: int)
    requires xs != []
    requires forall i :: 0 <= i < |xs| ==> lo <= xs[i] <= hi
    ensures lo as real <= Average(xs) <= hi as real
  {
    SumBounds(xs, lo, hi);
    var n := |xs| as real;
    assert n * lo as real <= Sum(xs) as real <= n * hi as real;
    assert Average(xs) * n == Sum(xs) as real;
  }

  /** One group of `calculate_category_stats`. */
  datatype CategoryGroup = CategoryGroup(count: nat, intensities: seq<int>, avgIntensity: real)

  predicate HasKey(imps: seq<ImpressionView>, k: Option<string>) {
    exists i :: 0 <= i < |imps| && GroupKey(imps[i]) == k
  }

  /** The groups of the impressions, as the loop's defaultdict holds them: key to (count, intensities). */
  function Groups(imps: seq<ImpressionView>): map<Option<string>, (nat, seq<int>)> {
    if imps == [] then map[]
    else
      var g := Groups(imps[..|imps| - 1]);
      var imp := imps[|imps| - 1];
      var key := GroupKey(imp);
      var (count, values) := if key in g then g[key] else (0, []);
      g[key := (count + 1, if imp.intensity.Some? then values + [imp.intensity.value] else values)]
  }

  /** The groups hold exactly the keys that occur, each with its count and intensities. */
  lemma {:induction false} GroupsMeaning(imps: seq<ImpressionView>, k: Option<string>)
    ensures k in Groups(imps) <==> HasKey(imps, k)
    ensures k in Groups(imps) ==> Groups(imps)[k] == (GroupCount(imps, k), GroupIntensities(imps, k))
    ensures k !in Groups(imps) ==> GroupCount(imps, k) == 0 && GroupIntensities(imps, k) == []
  {
    if imps != [] {
      GroupsMeaning(imps[..|imps| - 1], k);
      HasKeySnoc(imps, k);
      if GroupKey(imps[|imps| - 1]) == k {
        GroupsHit(imps, k);
      } else {
        GroupsMiss(imps, k);
      }
    }
  }

  /** A key occurs in a list when it occurs before the last impression or is the last one's. */
  lemma HasKeySnoc(imps: seq<ImpressionView>, k: Option<string>)
    requires imps != []
    ensures HasKey(imps, k) <==> HasKey(imps[..|imps| - 1], k) || GroupKey(imps[|imps| - 1]) == k
  {
    var init := imps[..|imps| - 1];
    if HasKey(imps, k) && GroupKey(imps[|imps| - 1]) != k {
      var i :| 0 <= i < |imps| && GroupKey(imps[i]) == k;
      assert init[i] == imps[i];
    }
    if HasKey(init, k) {
      var i :| 0 <= i < |init| && GroupKey(init[i]) == k;
      assert imps[i] == init[i];
    }
  }

  /** The last impression's group gains it. */
  lemma GroupsHit(imps: seq<ImpressionView>, k: Option<string>)
    requires imps != [] && GroupKey(imps[|imps| - 1]) == k
    requires var init := imps[..|imps| - 1];
      (k in Groups(init) ==> Groups(init)[k] == (GroupCount(init, k), GroupIntensities(init, k)))
      && (k !in Groups(init) ==> GroupCount(init, k) == 0 && GroupIntensities(init, k) == [])
    ensures k in Groups(imps) && Groups(imps)[k] == (GroupCount(imps, k), GroupIntensities(imps, k))
  {
    var init, last := imps[..|imps| - 1], imps[|imps| - 1];
    var g := Groups(init);
    var (count, values) := if k in g then g[k] else (0, []);
    var vs := if last.intensity.Some? then values + [last.intensity.value] else values;
    assert Groups(imps) == g[k := (count + 1, vs)];
    assert GroupCount(imps, k) == count + 1;
    assert GroupIntensities(imps, k) == vs;
  }

  /** The other groups are left as they were. */
  lemma GroupsMiss(imps: seq<ImpressionView>, k: Option<string>)
    requires imps != [] && GroupKey(imps[|imps| - 1]) != k
    ensures var init := imps[..|imps| - 1];
      (k in Groups(imps) <==> k in Groups(init))
      && (k in Groups(init) ==> Groups(imps)[k] == Groups(init)[k])
      && GroupCount(imps, k) == GroupCount(init, k)
      && GroupIntensities(imps, k) == GroupIntensities(init, k)
  {
    var init, last := imps[..|imps| - 1], imps[|imps| - 1];
    assert Groups(imps) == Groups(init)[GroupKey(last) := Groups(imps)[GroupKey(last)]];
  }

  /**
   * `calculate_category_stats`: one group per category key that occurs,
   * holding the number of impressions, their non-None intensities in
   * order and the average of those (0 when there are none).
   */
  method CategoryStats(imps: seq<ImpressionView>) returns (stats: map<Option<string>, CategoryGroup>)
    ensures forall k :: k in stats <==> HasKey(imps, k)
    ensures forall k :: k in stats ==>
      stats[k] == CategoryGroup(GroupCount(imps, k), GroupIntensities(imps, k), Average(GroupIntensities(imps, k)))
  {
    var groups: map<Option<string>, (nat, seq<int>)> := map[];
    for n := 0 to |imps|
      invariant groups == Groups(imps[..n])
    {
      assert imps[..n + 1][..n] == imps[..n];
      var imp := imps[n];
      var key := GroupKey(imp);
      var (count, values) := if key in groups then groups[key] else (0, []);
      if imp.intensity.Some? {
        values := values + [imp.intensity.value];
      }
      groups := groups[key := (count + 1, values)];
    }
    assert imps[..|imps|] == imps;
    stats := map k | k in groups :: CategoryGroup(groups[k].0, groups[k].1, Average(groups[k].1));
    forall k ensures k in stats <==> HasKey(imps, k)
      ensures k in stats ==>
        stats[k] == CategoryGroup(GroupCount(imps, k), GroupIntensities(imps, k), Average(GroupIntensities(imps, k)))
    {
      GroupsMeaning(imps, k);
    }
  }

  /** A group's count is how many times its key occurs among the impressions' keys. */
  lemma {:induction false} GroupCountIsMultiplicity(imps: seq<ImpressionView>, k: Option<string>)
    ensures GroupCount(imps, k) == multiset(MapSeq(imps, GroupKey))[k]
  {
    if imps != [] {
      GroupCountIsMultiplicity(imps[..|imps| - 1], k);
      MapSeqSnocMultiset(imps, GroupKey);
    }
  }

  /** The group counts are `Counter` counts of the keys, so they add up to the number of impressions. */
  lemma CategoryCountsAddUp(imps: seq<ImpressionView>, k: Option<string>)
    ensures GroupCount(imps, k) == CountOf(Tally(MapSeq(imps, GroupKey)), k)
    ensures Total(Tally(MapSeq(imps, GroupKey))) == |imps|
  {
    GroupCountIsMultiplicity(imps, k);
    TallyCounts(MapSeq(imps, GroupKey), k);
    TallyTotal(MapSeq(imps, GroupKey));
  }

  // ---------------------------------------------------------------------
  // calculate_tag_frequency

  function AllTags(imps: seq<ImpressionView>): seq<string> {
    if imps == [] then [] else AllTags(imps[..|imps| - 1]) + imps[|imps| - 1].tags
  }

  /** `calculate_tag_frequency`: `Counter(all_tags).most_common(10)`. */
  method TagFrequency(imps: seq<ImpressionView>) returns (r: seq<(string, nat)>)
    ensures r == Take(MostCommon(AllTags(imps)), 10)
  {
    var all: seq<string> := [];
    for n := 0 to |imps|
      invariant all == AllTags(imps[..n])
    {
      assert imps[..n + 1][..n] == imps[..n];
      if imps[n].tags != [] {
        all := all + imps[n].tags;
      }
    }
    assert imps[..|imps|] == imps;
    r := Take(MostCommon(all), 10);
  }

  /**
   * At most ten pairs, counts not increasing, each the number of times
   * its tag occurs.
   */
  lemma TagFrequencyShape(imps: seq<ImpressionView>, i: nat)
    requires i < |Take(MostCommon(AllTags(imps)), 10)|
    ensures |Take(MostCommon(AllTags(imps)), 10)| <= 10
    ensures var r := Take(MostCommon(AllTags(imps)), 10);
      r[i].0 in AllTags(imps) && r[i].1 == multiset(AllTags(imps))[r[i].0]
      && forall j :: i < j < |r| ==> r[i].1 >= r[j].1
  {
    MostCommonEntries(AllTags(imps), i);
  }

  // ---------------------------------------------------------------------
  // calculate_time_of_day_distribution

  datatype DayPeriod = Night | Morning | Afternoon | Evening

  /** `TIME_PERIODS`, in the order the loop tries them: [start, end) hours. */
  const TimePeriods: seq<(DayPeriod, int, int)> :=
    [(Night, 0, 6), (Morning, 6, 12), (Afternoon, 12, 18), (Evening, 18, 24)]

  /** The period of an hour of the day, as a closed form. */
  function Bucket(hour: int): DayPeriod
    requires 0 <= hour < 24
  {
    if hour < 6 then Night else if hour < 12 then Morning else if hour < 18 then Afternoon else Evening
  }

  /** The four periods partition the day: an hour lies in a period exactly when it is the hour's bucket. */
  lemma PeriodsPartition(hour: int)
    requires 0 <= hour < 24
    ensures forall j :: 0 <= j < |TimePeriods| ==>
      (TimePeriods[j].1 <= hour < TimePeriods[j].2 <==> TimePeriods[j].0 == Bucket(hour))
  {
  }

  /** The inner loop: the first period of the table that holds the hour. */
  method PeriodOfHour(hour: int) returns (p: Option<DayPeriod>)
    ensures p == if 0 <= hour < 24 then Some(Bucket(hour)) else None
  {
    p := None;
    var j := 0;
    while j < |TimePeriods| && p.None?
      invariant 0 <= j <= |TimePeriods|
      invariant p.None? ==> forall m :: 0 <= m < j ==> !(TimePeriods[m].1 <= hour < TimePeriods[m].2)
      invariant p.Some? ==> 0 < j && TimePeriods[j - 1].1 <= hour < TimePeriods[j - 1].2 && p.value == TimePeriods[j - 1].0
      decreases |TimePeriods| - j
    {
      var (period, start, end) := TimePeriods[j];
      if start <= hour < end {
        p := Some(period);
      }
      j := j + 1;
    }
    if 0 <= hour < 24 {
      PeriodsPartition(hour);
      var m := if hour < 6 then 0 else if hour < 12 then 1 else if hour < 18 then 2 else 3;
      assert TimePeriods[m].1 <= hour < TimePeriods[m].2;
    }
  }

  /** The hour of `created_at`, None when the key is missing or does not parse. */
  function HourOf(imp: ImpressionView): (h: Option<int>)
    ensures h.Some? ==> 0 <= h.value < 24
  {
    match imp.createdAt
    case None => None
    case Some(s) =>
      match ParseTimestamp(s)
      case None => None
      case Some(t) => Some(t.hour)
  }

  /** The hours of the impressions' timestamps, in order. */
  function Hours(imps: seq<ImpressionView>): (hs: seq<Option<int>>)
    ensures |hs| == |imps|
  {
    if imps == [] then [] else Hours(imps[..|imps| - 1]) + [HourOf(imps[|imps| - 1])]
  }

  /** The hour at each position is the hour of the impression there, and always an hour of the day. */
  lemma {:induction false} HoursAt(imps: seq<ImpressionView>, i: nat)
    requires i < |imps|
    ensures Hours(imps)[i] == HourOf(imps[i])
    ensures Hours(imps)[i].Some? ==> 0 <= Hours(imps)[i].value < 24
  {
    if i < |imps| - 1 {
      HoursAt(imps[..|imps| - 1], i);
    }
  }

  /** An hour of the day that falls in period `p`. */
  predicate InPeriod(h: Option<int>, p: DayPeriod) {
    h.Some? && 0 <= h.value < 24 && Bucket(h.value) == p
  }

  /** How many of the hours fall in period `p`. */
  function PeriodCount(hs: seq<Option<int>>, p: DayPeriod): nat {
    if hs == [] then 0
    else PeriodCount(hs[..|hs| - 1], p) + (if InPeriod(hs[|hs| - 1], p) then 1 else 0)
  }

  /** How many of the hours are known. */
  function DatedCount(hs: seq<Option<int>>): nat {
    if hs == [] then 0 else DatedCount(hs[..|hs| - 1]) + (if hs[|hs| - 1].Some? then 1 else 0)
  }

  /** The four period counts as a dictionary. */
  function Distribution(hs: seq<Option<int>>): map<DayPeriod, nat> {
    map[Night := PeriodCount(hs, Night), Morning := PeriodCount(hs, Morning),
        Afternoon := PeriodCount(hs, Afternoon), Evening := PeriodCount(hs, Evening)]
  }

  /**
   * `calculate_time_of_day_distribution`: all four periods are present,
   * each counting the impressions whose timestamp hour falls in it.
   */
  method TimeOfDayDistribution(imps: seq<ImpressionView>) returns (d: map<DayPeriod, nat>)
    ensures d.Keys == {Night, Morning, Afternoon, Evening}
    ensures forall p :: p in d ==> d[p] == PeriodCount(Hours(imps), p)
  {
    ghost var hs := Hours(imps);
    d := map[Night := 0, Morning := 0, Afternoon := 0, Evening := 0];
    for n := 0 to |imps|
      invariant d == Distribution(hs[..n])
    {
      var h := HourOf(imps[n]);
      HoursAt(imps, n);
      CountStep(hs, n);
      d := AddHour(d, h);
    }
    assert hs[..|imps|] == hs;
  }

  /** One hour counted into a distribution: its period gains one. */
  function Tick(d: map<DayPeriod, nat>, h: Option<int>): map<DayPeriod, nat>
    requires d.Keys == {Night, Morning, Afternoon, Evening}
  {
    if h.Some? && 0 <= h.value < 24 then d[Bucket(h.value) := d[Bucket(h.value)] + 1] else d
  }

  /** The loop body: the hour's period, looked up in the table, gains one. */
  method AddHour(d: map<DayPeriod, nat>, h: Option<int>) returns (d': map<DayPeriod, nat>)
    requires d.Keys == {Night, Morning, Afternoon, Evening}
    ensures d' == Tick(d, h)
  {
    d' := d;
    if h.Some? {
      var period := PeriodOfHour(h.value);
      if period.Some? {
        d' := d[period.value := d[period.value] + 1];
      }
    }
  }

  /** One more hour adds one to its own period and leaves the other three alone. */
  lemma CountStep(hs: seq<Option<int>>, n: nat)
    requires n < |hs|
    ensures Distribution(hs[..n + 1]) == Tick(Distribution(hs[..n]), hs[n])
  {
    assert hs[..n + 1][..n] == hs[..n];
    assert hs[..n + 1][n] == hs[n];
  }

  /** The four counts add up to the number of impressions with a parseable timestamp. */
  lemma {:induction false} DistributionAddsUp(hs: seq<Option<int>>)
    requires forall i :: 0 <= i < |hs| && hs[i].Some? ==> 0 <= hs[i].value < 24
    ensures PeriodCount(hs, Night) + PeriodCount(hs, Morning)
      + PeriodCount(hs, Afternoon) + PeriodCount(hs, Evening) == DatedCount(hs)
  {
    if hs != [] {
      DistributionAddsUp(hs[..|hs| - 1]);
    }
  }

  // ---------------------------------------------------------------------
  // calculate_intensity_trend

  /** `x.get('created_at', '')` */
  function CreatedKey(imp: ImpressionView): string {
    if imp.createdAt.Some? then imp.createdAt.value else ""
  }

  predicate ByCreatedAt(a: ImpressionView, b: ImpressionView) {
    StrLe(CreatedKey(a), CreatedKey(b))
  }

  lemma ByCreatedAtOrder()
    ensures IsTotalPreorder(ByCreatedAt)
  {
    forall a: ImpressionView, b: ImpressionView ensures ByCreatedAt(a, b) || ByCreatedAt(b, a) {
      StrLeTotal(CreatedKey(a), CreatedKey(b));
    }
    forall a: ImpressionView, b: ImpressionView, c: ImpressionView | ByCreatedAt(a, b) && ByCreatedAt(b, c)
      ensures ByCreatedAt(a, c) {
      StrLeTrans(CreatedKey(a), CreatedKey(b), CreatedKey(c));
    }
  }

  /** `sorted(impressions, key=created_at)`: stable, so equal timestamps keep their order. */
  function Chronological(imps: seq<ImpressionView>): (r: seq<ImpressionView>)
    ensures SortedBy(r, ByCreatedAt) && multiset(r) == multiset(imps)
  {
    ByCreatedAtOrder();
    SortBy(imps, ByCreatedAt)
  }

  /** The (created_at, intensity) reading of one impression: none when its intensity is None. */
  function Reading(imp: ImpressionView): seq<(string, int)> {
    if imp.intensity.Some? then [(CreatedKey(imp), imp.intensity.value)] else []
  }

  /** The readings of the impressions that have an intensity, in order. */
  function Readings(imps: seq<ImpressionView>): seq<(string, int)> {
    if imps == [] then [] else Reading(imps[0]) + Readings(imps[1..])
  }

  function ReadingValue(x: (string, int)): int {
    x.1
  }

  /**
   * `calculate_intensity_trend`: the non-None intensities, taken from the
   * impressions in ascending created_at order.
   */
  method IntensityTrend(imps: seq<ImpressionView>) returns (r: seq<int>)
    ensures r == MapSeq(Readings(Chronological(imps)), ReadingValue)
  {
    if imps == [] {
      return [];
    }
    var sorted := Chronological(imps);
    r := [];
    var n := |sorted|;
    while n > 0
      invariant 0 <= n <= |sorted|
      invariant r == MapSeq(Readings(sorted[n..]), ReadingValue)
      decreases n
    {
      n := n - 1;
      TrendStep(sorted, n);
      if sorted[n].intensity.Some? {
        r := [sorted[n].intensity.value] + r;
      }
    }
    assert sorted[0..] == sorted;
  }

  /** Stepping back one impression puts its intensity, if any, in front. */
  lemma TrendStep(s: seq<ImpressionView>, n: nat)
    requires n < |s|
    ensures MapSeq(Readings(s[n..]), ReadingValue)
      == (if s[n].intensity.Some? then [s[n].intensity.value] else []) + MapSeq(Readings(s[n + 1..]), ReadingValue)
  {
    assert s[n..][0] == s[n] && s[n..][1..] == s[n + 1..];
    MapSeqConcat(Reading(s[n]), Readings(s[n + 1..]), ReadingValue);
  }

  lemma {:induction false} ReadingsFrom(imps: seq<ImpressionView>, x: (string, int))
    requires x in Readings(imps)
    ensures exists j :: 0 <= j < |imps| && x.0 == CreatedKey(imps[j])
  {
    if imps[0].intensity.Some? && x == (CreatedKey(imps[0]), imps[0].intensity.value) {
    } else {
      ReadingsFrom(imps[1..], x);
      var j :| 0 <= j < |imps[1..]| && x.0 == CreatedKey(imps[1..][j]);
      assert imps[j + 1] == imps[1..][j];
    }
  }

  /** The readings of a chronological list are in ascending created_at order. */
  lemma {:induction false} ReadingsSorted(imps: seq<ImpressionView>)
    requires SortedBy(imps, ByCreatedAt)
    ensures forall i, j :: 0 <= i < j < |Readings(imps)| ==> StrLe(Readings(imps)[i].0, Readings(imps)[j].0)
  {
    if imps != [] {
      var rest := Readings(imps[1..]);
      assert SortedBy(imps[1..], ByCreatedAt) by {
        forall i, j | 0 <= i < j < |imps[1..]| ensures ByCreatedAt(imps[1..][i], imps[1..][j]) {
          assert imps[1..][i] == imps[i + 1] && imps[1..][j] == imps[j + 1];
        }
      }
      ReadingsSorted(imps[1..]);
      if imps[0].intensity.Some? {
        var r := Readings(imps);
        assert r == [(CreatedKey(imps[0]), imps[0].intensity.value)] + rest;
        forall i, j | 0 <= i < j < |r| ensures StrLe(r[i].0, r[j].0) {
          if i == 0 {
            assert r[j] in rest by { assert r[j] == rest[j - 1]; }
            ReadingsFrom(imps[1..], r[j]);
            var m :| 0 <= m < |imps[1..]| && r[j].0 == CreatedKey(imps[1..][m]);
            assert imps[1..][m] == imps[m + 1];
          } else {
            assert r[i] == rest[i - 1] && r[j] == rest[j - 1];
          }
        }
      }
    }
  }

  lemma {:induction false} ReadingsConcat(a: seq<ImpressionView>, b: seq<ImpressionView>)
    ensures Readings(a + b) == Readings(a) + Readings(b)
  {
    if a == [] {
      assert a + b == b;
    } else {
      assert (a + b)[0] == a[0] && (a + b)[1..] == a[1..] + b;
      ReadingsConcat(a[1..], b);
      assert Readings(a + b) == Reading(a[0]) + (Readings(a[1..]) + Readings(b));
    }
  }

  /** Reordering the impressions reorders their readings and nothing more. */
  lemma {:induction false} ReadingsPermutation(a: seq<ImpressionView>, b: seq<ImpressionView>)
    requires multiset(a) == multiset(b)
    ensures multiset(Readings(a)) == multiset(Readings(b))
    decreases |a|
  {
    if a != [] {
      var x := a[0];
      assert x in multiset(b);
      var j :| 0 <= j < |b| && b[j] == x;
      var b' := b[..j] + b[j + 1..];
      assert b == b[..j] + [x] + b[j + 1..];
      assert a == [x] + a[1..];
      assert multiset(b) == multiset(b[..j]) + multiset{x} + multiset(b[j + 1..]);
      assert multiset(a) == multiset{x} + multiset(a[1..]);
      assert multiset(b') == multiset(b[..j]) + multiset(b[j + 1..]);
      assert multiset(a[1..]) == multiset(a) - multiset{x};
      assert multiset(b') == multiset(b) - multiset{x};
      ReadingsPermutation(a[1..], b');
      ReadingsConcat(b[..j] + [x], b[j + 1..]);
      ReadingsConcat(b[..j], [x]);
      ReadingsConcat(b[..j], b[j + 1..]);
      ReadingsConcat([x], a[1..]);
      assert a == [x] + a[1..];
    }
  }

  /**
   * The trend holds every intensity of the input exactly once, ordered by
   * created_at.
   */
  lemma TrendIsChronological(imps: seq<ImpressionView>)
    ensures multiset(Readings(Chronological(imps))) == multiset(Readings(imps))
    ensures var r := Readings(Chronological(imps));
      forall i, j :: 0 <= i < j < |r| ==> StrLe(r[i].0, r[j].0)
  {
    ReadingsPermutation(Chronological(imps), imps);
    ReadingsSorted(Chronological(imps));
  }
}
