/**
 * The insight builders of the mood analytics
 * (src/analytics/pattern_detection.py): how the results of the
 * correlation, trend and pattern analyses turn into insights, and the
 * Russian names of the diary's factors.
 */
module PatternDetection {
  import opened Base
  import opened Strings

  const SuccessStatus := "success"

  /** One insight, up to its message text. */
  datatype Insight =
    | CorrelationInsight(positive: bool, factor: string, factorRu: string, correlation: real)
    | WeeklyPattern(bestDay: string, worstDay: string)
    | RecentTrend(upward: bool)
    | WeekendEffect(weekendBetter: bool)
    | Cyclicality(cycleDays: int)

  // ---------------------------------------------------------------------
  // get_russian_factor_name

  /** `factor_names`: the factor in the instrumental case, as the messages use it. */
  const FactorNames: map<string, string> := map[
    "mood" := "настроением",
    "sleep" := "качеством сна",
    "balance" := "ровностью настроения",
    "mania" := "уровнем мании",
    "depression" := "уровнем депрессии",
    "anxiety" := "уровнем тревоги",
    "irritability" := "раздражительностью",
    "productivity" := "работоспособностью",
    "sociability" := "общительностью"]

  /** `get_russian_factor_name(factor)`: the Russian name, or the factor itself when it has none. */
  function RussianFactorName(factor: string): (name: string)
    ensures factor !in FactorNames ==> name == factor
    ensures factor in FactorNames ==> name == FactorNames[factor] && name in FactorNames.Values
  {
    if factor in FactorNames then FactorNames[factor] else factor
  }

  /** The nine known factors have nine different names, none of them a factor's own name. */
  lemma FactorNamesDistinct(a: string, b: string)
    requires a in FactorNames && b in FactorNames && a != b
    ensures RussianFactorName(a) != RussianFactorName(b)
    ensures RussianFactorName(a) !in FactorNames
  {
    FactorNamesDiffer(a, b);
    FactorNameIsNotAFactor(a);
  }

  lemma FactorNamesDiffer(a: string, b: string)
    requires a in FactorNames && b in FactorNames && a != b
    ensures FactorNames[a] != FactorNames[b]
  {
  }

  lemma FactorNameIsNotAFactor(a: string)
    requires a in FactorNames
    ensures FactorNames[a] !in FactorNames
  {
  }

  // ---------------------------------------------------------------------
  // _analyze_correlation_insights

  /** An entry of `correlations['positive']` or `correlations['negative']`. */
  datatype FactorCorrelation = FactorCorrelation(factor: string, correlation: real)

  datatype CorrelationResults = CorrelationResults(
    status: string, positive: seq<FactorCorrelation>, negative: seq<FactorCorrelation>)

  /** The insight for one correlation. */
  function InsightOf(c: FactorCorrelation, positive: bool): Insight {
    CorrelationInsight(positive, c.factor, RussianFactorName(c.factor), c.correlation)
  }

  /** Strong enough: above 0.6 for the positive list, below -0.6 for the negative one. */
  predicate Strong(c: FactorCorrelation, positive: bool) {
    if positive then c.correlation > 0.6 else c.correlation < -0.6
  }

  /** The insights of one list, in its order: one per strong correlation. */
  function StrongInsights(cs: seq<FactorCorrelation>, positive: bool): seq<Insight> {
    if cs == [] then []
    else
      var last := cs[|cs| - 1];
      StrongInsights(cs[..|cs| - 1], positive) + (if Strong(last, positive) then [InsightOf(last, positive)] else [])
  }

  /**
   * A correlation's insight is emitted exactly when the correlation is in
   * the list and strong, and every insight of a list has that list's sign.
   */
  lemma {:induction false} StrongInsightsMeaning(cs: seq<FactorCorrelation>, positive: bool, c: FactorCorrelation)
    ensures InsightOf(c, positive) in StrongInsights(cs, positive) <==> c in cs && Strong(c, positive)
    ensures forall x :: x in StrongInsights(cs, positive) ==> x.CorrelationInsight? && x.positive == positive
    ensures |StrongInsights(cs, positive)| <= |cs|
  {
    if cs != [] {
      var init := cs[..|cs| - 1];
      var last := cs[|cs| - 1];
      StrongInsightsMeaning(init, positive, c);
      assert cs == init + [last];
      if c == last {
        assert c in cs;
      }
    }
  }

  /**
   * `_analyze_correlation_insights(corr_results)`: nothing unless the
   * status is 'success'; then the strong positive correlations, in order,
   * followed by the strong negative ones, in order.
   */
  method AnalyzeCorrelationInsights(r: CorrelationResults) returns (insights: seq<Insight>)
    ensures r.status != SuccessStatus ==> insights == []
    ensures r.status == SuccessStatus ==>
      insights == StrongInsights(r.positive, true) + StrongInsights(r.negative, false)
  {
    insights := [];
    if r.status != SuccessStatus {
      return;
    }
    for n := 0 to |r.positive|
      invariant insights == StrongInsights(r.positive[..n], true)
    {
      assert r.positive[..n + 1][..n] == r.positive[..n];
      var c := r.positive[n];
      if c.correlation > 0.6 {
        insights := insights + [CorrelationInsight(true, c.factor, RussianFactorName(c.factor), c.correlation)];
      }
    }
    assert r.positive[..|r.positive|] == r.positive;
    var positives := insights;
    for n := 0 to |r.negative|
      invariant insights == positives + StrongInsights(r.negative[..n], false)
    {
      assert r.negative[..n + 1][..n] == r.negative[..n];
      var c := r.negative[n];
      if c.correlation < -0.6 {
        insights := insights + [CorrelationInsight(false, c.factor, RussianFactorName(c.factor), c.correlation)];
      }
    }
    assert r.negative[..|r.negative|] == r.negative;
  }

  /** The insights of a successful correlation analysis: positives first, then negatives. */
  function CorrelationInsights(r: CorrelationResults): seq<Insight> {
    if r.status != SuccessStatus then [] else StrongInsights(r.positive, true) + StrongInsights(r.negative, false)
  }

  predicate PositiveInsight(x: Insight) {
    x.CorrelationInsight? && x.positive
  }

  /**
   * Every positive insight comes before every negative one, and an
   * insight is emitted for a correlation exactly when the status is
   * 'success' and the correlation is strong.
   */
  lemma CorrelationInsightsOrder(r: CorrelationResults, c: FactorCorrelation)
    ensures forall x :: x in CorrelationInsights(r) ==> x.CorrelationInsight?
    ensures forall i, j :: (0 <= i < j < |CorrelationInsights(r)| && PositiveInsight(CorrelationInsights(r)[j])
      ==> PositiveInsight(CorrelationInsights(r)[i]))
    ensures InsightOf(c, true) in CorrelationInsights(r)
      <==> r.status == SuccessStatus && c in r.positive && c.correlation > 0.6
    ensures InsightOf(c, false) in CorrelationInsights(r)
      <==> r.status == SuccessStatus && c in r.negative && c.correlation < -0.6
  {
    if r.status == SuccessStatus {
      var ps := StrongInsights(r.positive, true);
      var ns := StrongInsights(r.negative, false);
      StrongInsightsMeaning(r.positive, true, c);
      StrongInsightsMeaning(r.negative, false, c);
      var all := ps + ns;
      forall k | 0 <= k < |all| ensures all[k].CorrelationInsight? && (PositiveInsight(all[k]) <==> k < |ps|) {
        if k < |ps| {
          assert all[k] == ps[k] && all[k] in ps;
        } else {
          assert all[k] == ns[k - |ps|] && all[k] in ns;
        }
      }
      assert InsightOf(c, true) !in ns;
      assert InsightOf(c, false) !in ps;
    }
  }

  // ---------------------------------------------------------------------
  // _analyze_trend_insights

  /** A best or worst weekday: its name and average mood. */
  datatype DayMood = DayMood(day: string, value: real)

  datatype TrendResults = TrendResults(
    status: string,
    weeklyAvailable: bool, bestDay: DayMood, worstDay: DayMood,
    recentAvailable: bool, moodTrend: string)

  /**
   * `_analyze_trend_insights(trend_results)`: nothing unless the status is
   * 'success'; a weekly insight when the best weekday beats the worst by
   * more than 2; a recent insight for an 'upward' or a 'downward' trend.
   */
  function AnalyzeTrendInsights(t: TrendResults): (insights: seq<Insight>)
    ensures t.status != SuccessStatus ==> insights == []
    ensures WeeklyPattern(Lower(t.bestDay.day), Lower(t.worstDay.day)) in insights
      <==> t.status == SuccessStatus && t.weeklyAvailable && t.bestDay.value - t.worstDay.value > 2.0
    ensures forall x :: x in insights && x.WeeklyPattern? ==> x == WeeklyPattern(Lower(t.bestDay.day), Lower(t.worstDay.day))
    ensures RecentTrend(true) in insights
      <==> t.status == SuccessStatus && t.recentAvailable && t.moodTrend == "upward"
    ensures RecentTrend(false) in insights
      <==> t.status == SuccessStatus && t.recentAvailable && t.moodTrend == "downward"
    ensures |insights| <= 2
    ensures |insights| == 2 ==> insights[0].WeeklyPattern? && insights[1].RecentTrend?
  {
    if t.status != SuccessStatus then []
    else
      var weekly :=
        if t.weeklyAvailable && t.bestDay.value - t.worstDay.value > 2.0
        then [WeeklyPattern(Lower(t.bestDay.day), Lower(t.worstDay.day))]
        else [];
      var recent :=
        if t.recentAvailable && t.moodTrend == "upward" then [RecentTrend(true)]
        else if t.recentAvailable && t.moodTrend == "downward" then [RecentTrend(false)]
        else [];
      weekly + recent
  }

  /** A 'stable' recent trend gives no recent insight. */
  lemma StableTrendSilent(t: TrendResults)
    requires t.moodTrend == "stable"
    ensures forall x :: x in AnalyzeTrendInsights(t) ==> x.WeeklyPattern?
  {
  }

  // ---------------------------------------------------------------------
  // _analyze_pattern_insights

  datatype PatternResults = PatternResults(
    status: string, weekendMood: real, weekdayMood: real, cyclicalityDetected: bool, cycleDays: int)

  /** How many weekend-effect insights a list holds. */
  function WeekendEffects(xs: seq<Insight>): nat {
    if xs == [] then 0 else (if xs[0].WeekendEffect? then 1 else 0) + WeekendEffects(xs[1..])
  }

  /**
   * `_analyze_pattern_insights(pattern_results)`: nothing unless the
   * status is 'success'; a weekend insight when the weekend mood beats the
   * weekday mood by more than 2, or else the other way round; a
   * cyclicality insight, with its period, when one was detected.
   */
  function AnalyzePatternInsights(p: PatternResults): (insights: seq<Insight>)
    ensures p.status != SuccessStatus ==> insights == []
    ensures WeekendEffect(true) in insights
      <==> p.status == SuccessStatus && p.weekendMood - p.weekdayMood > 2.0
    ensures WeekendEffect(false) in insights
      <==> p.status == SuccessStatus && p.weekdayMood - p.weekendMood > 2.0
    ensures Cyclicality(p.cycleDays) in insights <==> p.status == SuccessStatus && p.cyclicalityDetected
    ensures forall x :: x in insights && x.Cyclicality? ==> x.cycleDays == p.cycleDays
    ensures |insights| <= 2
    ensures |insights| == 2 ==> insights[0].WeekendEffect? && insights[1].Cyclicality?
    ensures |insights| == 1 ==> insights[0].WeekendEffect? || insights[0].Cyclicality?
  {
    if p.status != SuccessStatus then []
    else
      var weekend :=
        if p.weekendMood - p.weekdayMood > 2.0 then [WeekendEffect(true)]
        else if p.weekdayMood - p.weekendMood > 2.0 then [WeekendEffect(false)]
        else [];
      var cycle := if p.cyclicalityDetected then [Cyclicality(p.cycleDays)] else [];
      weekend + cycle
  }

  /** At most one weekend-effect insight, whatever the moods. */
  lemma AtMostOneWeekendEffect(p: PatternResults)
    ensures WeekendEffects(AnalyzePatternInsights(p)) <= 1
  {
    var xs := AnalyzePatternInsights(p);
    if |xs| == 2 {
      assert xs[1..][0] == xs[1];
      assert xs[1..][1..] == [];
      assert WeekendEffects(xs[1..]) == 0;
    } else if |xs| == 1 {
      assert xs[1..] == [];
    }
  }
}
