/**
 * The survey statistics command (src/handlers/survey_analytics.py): its
 * argument parser, the yes/no and choice tallies, and the two keyword
 * detectors that pick out the questions of a CBT or addiction journal.
 */
module SurveyAnalytics {
  import opened Base
  import opened Strings
  import opened Sorting
  import opened Counting

  // ---------------------------------------------------------------------
  // parse_survey_args

  /** `(survey_name, options)`: `periodDays` is None for the empty options dict. */
  datatype SurveyArgs = SurveyArgs(name: Option<string>, periodDays: Option<int>)

  /** What a scan of arguments keeps: the unconsumed words and the last integer period. */
  datatype Scan = Scan(names: seq<string>, period: Option<int>)

  /** A scan of `first` followed by a scan of what comes after it. */
  function Then(first: Scan, next: Scan): Scan {
    Scan(first.names + next.names, if next.period.Some? then next.period else first.period)
  }

  /**
   * The scan of `parse_survey_args`, left to right: `--period N` with an
   * integer N consumes both, with a non-integer N only the flag; every
   * other word, a final `--period` included, joins the name.
   */
  function ScanArgs(args: seq<string>): (r: Scan)
    ensures |r.names| <= |args|
    ensures forall x :: x in r.names ==> x in args
    decreases |args|
  {
    if args == [] then Scan([], None)
    else if args[0] == "--period" && |args| > 1 then
      match ParseInt(args[1])
      case Some(n) =>
        var rest := ScanArgs(args[2..]);
        assert forall x :: x in rest.names ==> x in args by {
          forall x | x in rest.names ensures x in args {
            var k :| 0 <= k < |args[2..]| && args[2..][k] == x;
            assert args[k + 2] == x;
          }
        }
        Then(Scan([], Some(n)), rest)
      case None =>
        var rest := ScanArgs(args[1..]);
        assert forall x :: x in rest.names ==> x in args by {
          forall x | x in rest.names ensures x in args {
            var k :| 0 <= k < |args[1..]| && args[1..][k] == x;
            assert args[k + 1] == x;
          }
        }
        rest
    else
      var rest := ScanArgs(args[1..]);
      assert forall x :: x in rest.names ==> x in args by {
        forall x | x in rest.names ensures x in args {
          var k :| 0 <= k < |args[1..]| && args[1..][k] == x;
          assert args[k + 1] == x;
        }
      }
      Then(Scan([args[0]], None), rest)
  }

  lemma ThenAssoc(a: Scan, b: Scan, c: Scan)
    ensures Then(Then(a, b), c) == Then(a, Then(b, c))
  {
    assert (a.names + b.names) + c.names == a.names + (b.names + c.names);
  }

  lemma ThenEmpty(a: Scan)
    ensures Then(a, Scan([], None)) == a
  {
    assert a.names + [] == a.names;
  }

  /**
   * `parse_survey_args`: no arguments give no name and no options;
   * otherwise the name is the space-join of the unconsumed words (None if
   * there are none) and the period is the last integer given, 30 by
   * default.
   */
  method ParseSurveyArgs(args: seq<string>) returns (r: SurveyArgs)
    ensures args == [] ==> r == SurveyArgs(None, None)
    ensures args != [] ==> r.periodDays == Some(if ScanArgs(args).period.Some? then ScanArgs(args).period.value else 30)
    ensures args != [] ==> r.name == (if ScanArgs(args).names == [] then None else Some(Join(ScanArgs(args).names, " ")))
  {
    if args == [] {
      return SurveyArgs(None, None);
    }
    var period: Option<int> := None;
    var names: seq<string> := [];
    var i := 0;
    while i < |args|
      invariant 0 <= i <= |args|
      invariant Then(Scan(names, period), ScanArgs(args[i..])) == ScanArgs(args)
      decreases |args| - i
    {
      var rest := args[i..];
      assert rest[0] == args[i];
      if args[i] == "--period" && i + 1 < |args| {
        assert rest[1] == args[i + 1];
        match ParseInt(args[i + 1])
        case Some(n) =>
          assert rest[2..] == args[i + 2..];
          ThenAssoc(Scan(names, period), Scan([], Some(n)), ScanArgs(args[i + 2..]));
          assert Then(Scan(names, period), Scan([], Some(n))) == Scan(names, Some(n));
          period := Some(n);
          i := i + 2;
        case None =>
          assert rest[1..] == args[i + 1..];
          i := i + 1;
      } else {
        assert rest[1..] == args[i + 1..];
        ThenAssoc(Scan(names, period), Scan([args[i]], None), ScanArgs(args[i + 1..]));
        names := names + [args[i]];
        i := i + 1;
      }
    }
    assert args[i..] == [];
    ThenEmpty(Scan(names, period));
    var days := if period.Some? then period.value else 30;
    r := SurveyArgs(if names == [] then None else Some(Join(names, " ")), Some(days));
  }

  /** Without a `--period` flag every argument is part of the name and no period is set. */
  lemma {:induction false} ScanWithoutFlag(args: seq<string>)
    requires "--period" !in args
    ensures ScanArgs(args) == Scan(args, None)
  {
    if args != [] {
      assert "--period" !in args[1..] by {
        forall k | 0 <= k < |args[1..]| ensures args[1..][k] != "--period" {
          assert args[1..][k] == args[k + 1];
        }
      }
      ScanWithoutFlag(args[1..]);
      assert [args[0]] + args[1..] == args;
    }
  }

  lemma FlagIsNotInteger()
    ensures ParseInt("--period").None?
  {
    var t := Strip("--period");
    StripOfTrimmed("--period");
    assert t[1..][0] == '-';
  }

  /** A later `--period N` with an integer N overrides every earlier one. */
  lemma {:induction false} LaterPeriodWins(a: seq<string>, n: int)
    ensures ScanArgs(a + ["--period", IntToStr(n)]).period == Some(n)
    decreases |a|
  {
    var s := a + ["--period", IntToStr(n)];
    if a == [] {
      assert s == ["--period", IntToStr(n)];
      ParseIntOfIntToStr(n);
      assert s[2..] == [];
    } else {
      assert s[1..] == a[1..] + ["--period", IntToStr(n)];
      if s[0] == "--period" {
        if |a| == 1 {
          assert s[1] == "--period";
          FlagIsNotInteger();
          LaterPeriodWins([], n);
        } else {
          assert s[1] == a[1];
          assert s[2..] == a[2..] + ["--period", IntToStr(n)];
          LaterPeriodWins(a[2..], n);
          LaterPeriodWins(a[1..], n);
        }
      } else {
        LaterPeriodWins(a[1..], n);
      }
    }
  }

  /** A non-integer after `--period` is not consumed: it joins the name. */
  lemma NonIntegerJoinsName(v: string, rest: seq<string>)
    requires ParseInt(v).None? && v != "--period"
    ensures ScanArgs(["--period", v] + rest).names == [v] + ScanArgs(rest).names
  {
    var s := ["--period", v] + rest;
    assert s[1..] == [v] + rest;
    assert ([v] + rest)[1..] == rest;
  }

  /** An integer after `--period` is consumed with the flag. */
  lemma IntegerIsConsumed(n: int, rest: seq<string>)
    ensures ScanArgs(["--period", IntToStr(n)] + rest).names == ScanArgs(rest).names
  {
    var s := ["--period", IntToStr(n)] + rest;
    ParseIntOfIntToStr(n);
    assert s[0] == "--period" && s[1] == IntToStr(n);
    assert s[2..] == rest;
    var tail := ScanArgs(rest);
    assert ScanArgs(s) == Then(Scan([], Some(n)), tail);
  }

  // ---------------------------------------------------------------------
  // Answers of responses

  /** One response's answers, keyed by `str(question_id)`. */
  type Answers = map<string, string>

  predicate IsYes(answer: string) { Lower(answer) in {"да", "yes", "y"} }
  predicate IsNo(answer: string) { Lower(answer) in {"нет", "no", "n"} }

  /** How many responses answer the question. */
  function CountAnswered(rs: seq<Answers>, qid: string): (n: nat)
    ensures n <= |rs|
  {
    if rs == [] then 0
    else CountAnswered(rs[..|rs| - 1], qid) + (if qid in rs[|rs| - 1] then 1 else 0)
  }

  function CountYes(rs: seq<Answers>, qid: string): nat {
    if rs == [] then 0
    else CountYes(rs[..|rs| - 1], qid) + (if qid in rs[|rs| - 1] && IsYes(rs[|rs| - 1][qid]) then 1 else 0)
  }

  function CountNo(rs: seq<Answers>, qid: string): nat {
    if rs == [] then 0
    else CountNo(rs[..|rs| - 1], qid) + (if qid in rs[|rs| - 1] && IsNo(rs[|rs| - 1][qid]) then 1 else 0)
  }

  /** The counts of `analyze_yes_no_question`; the percentages are not modelled. */
  datatype YesNoStats = YesNoStats(count: nat, yes: nat, no: nat)

  /**
   * `analyze_yes_no_question`: yes counts да/yes/y, no counts нет/no/n
   * (any case), other answers are ignored, and count is their sum.
   */
  method AnalyzeYesNo(rs: seq<Answers>, questionId: int) returns (s: YesNoStats)
    ensures s.yes == CountYes(rs, IntToStr(questionId))
    ensures s.no == CountNo(rs, IntToStr(questionId))
    ensures s.count == s.yes + s.no
  {
    var qid := IntToStr(questionId);
    var yes, no := 0, 0;
    for i := 0 to |rs|
      invariant yes == CountYes(rs[..i], qid)
      invariant no == CountNo(rs[..i], qid)
    {
      assert rs[..i + 1][..i] == rs[..i];
      if qid in rs[i] {
        var answer := Lower(rs[i][qid]);
        if answer in {"да", "yes", "y"} {
          yes := yes + 1;
        } else if answer in {"нет", "no", "n"} {
          no := no + 1;
        }
      }
    }
    assert rs[..|rs|] == rs;
    s := YesNoStats(yes + no, yes, no);
  }

  /** No answer is both yes and no, so the tallies never exceed the answering responses. */
  lemma {:induction false} YesNoBound(rs: seq<Answers>, qid: string)
    ensures CountYes(rs, qid) + CountNo(rs, qid) <= CountAnswered(rs, qid)
  {
    if rs != [] {
      YesNoBound(rs[..|rs| - 1], qid);
    }
  }

  /** The yes tally counts the responses a filter for a yes answer keeps. */
  lemma {:induction false} CountYesIsFilter(rs: seq<Answers>, qid: string)
    ensures CountYes(rs, qid) == |Filter(rs, (r: Answers) => qid in r && IsYes(r[qid]))|
  {
    if rs != [] {
      var p := (r: Answers) => qid in r && IsYes(r[qid]);
      var init := rs[..|rs| - 1];
      CountYesIsFilter(init, qid);
      assert rs == init + [rs[|rs| - 1]];
      FilterConcat(init, [rs[|rs| - 1]], p);
    }
  }

  // ---------------------------------------------------------------------
  // analyze_choice_question

  /** The choices of one answer: comma-separated and stripped, or the whole answer stripped. */
  function ChoicesOf(answer: string): (r: seq<string>)
    ensures |r| >= 1
  {
    if ',' in answer then MapSeq(Split(answer, ','), Strip) else [Strip(answer)]
  }

  /** Both branches of the choice split are one rule: split on commas, strip each piece. */
  lemma ChoicesOfIsSplit(answer: string)
    ensures ChoicesOf(answer) == MapSeq(Split(answer, ','), Strip)
  {
    if ',' !in answer {
      SplitNoSep(answer, ',');
    }
  }

  /** `all_choices`: the choices of every answering response, in order. */
  function AllChoices(rs: seq<Answers>, qid: string): seq<string> {
    if rs == [] then []
    else
      var last := rs[|rs| - 1];
      AllChoices(rs[..|rs| - 1], qid) + (if qid in last then ChoicesOf(last[qid]) else [])
  }

  /** There are no choices exactly when no response answers the question. */
  lemma {:induction false} NoChoicesIffUnanswered(rs: seq<Answers>, qid: string)
    ensures AllChoices(rs, qid) == [] <==> CountAnswered(rs, qid) == 0
  {
    if rs != [] {
      NoChoicesIffUnanswered(rs[..|rs| - 1], qid);
    }
  }

  /** The result of `analyze_choice_question`; the percentages are not modelled. */
  datatype ChoiceStats =
    | NoChoices                                   // {'count': 0}
    | ChoiceStats(count: nat, totalChoices: nat, choices: seq<(string, nat)>)

  /**
   * `analyze_choice_question`: the choices of the answering responses are
   * collected; none gives `{'count': 0}`; otherwise the count of answering
   * responses, the number of choices and the most-common list.
   */
  method AnalyzeChoice(rs: seq<Answers>, questionId: int) returns (s: ChoiceStats)
    ensures var all := AllChoices(rs, IntToStr(questionId));
      s == if all == [] then NoChoices
           else ChoiceStats(CountAnswered(rs, IntToStr(questionId)), |all|, MostCommon(all))
  {
    var qid := IntToStr(questionId);
    var all: seq<string> := [];
    for i := 0 to |rs|
      invariant all == AllChoices(rs[..i], qid)
    {
      assert rs[..i + 1][..i] == rs[..i];
      if qid in rs[i] {
        all := all + ChoicesOf(rs[i][qid]);
      }
    }
    assert rs[..|rs|] == rs;
    if all == [] {
      return NoChoices;
    }
    s := ChoiceStats(CountAnswered(rs, qid), |all|, MostCommon(all));
  }

  // ---------------------------------------------------------------------
  // detect_cbt_pattern and detect_addiction_pattern

  /** The id and text of a template question. */
  datatype QuestionText = QuestionText(id: int, text: string)

  /** The index of the last element satisfying `p`, if any. */
  function Last<T>(s: seq<T>, p: T -> bool): (r: Option<nat>)
    ensures r.Some? ==> r.value < |s| && p(s[r.value])
    ensures r.Some? ==> forall j :: r.value < j < |s| ==> !p(s[j])
    ensures r.None? ==> forall j :: 0 <= j < |s| ==> !p(s[j])
  {
    if s == [] then None
    else if p(s[|s| - 1]) then Some(|s| - 1)
    else
      var r := Last(s[..|s| - 1], p);
      assert forall j :: 0 <= j < |s| - 1 ==> s[..|s| - 1][j] == s[j];
      r
  }

  lemma LastStep<T>(s: seq<T>, i: nat, p: T -> bool)
    requires i < |s|
    ensures Last(s[..i + 1], p) == if p(s[i]) then Some(i) else Last(s[..i], p)
  {
    assert s[..i + 1][..i] == s[..i];
  }

  /** `'(до)' in t or 'до' in t and ('интенсивн' in t or 'уровень' in t)` */
  predicate BeforeText(t: string) {
    Contains(t, "(до)") || (Contains(t, "до") && (Contains(t, "интенсивн") || Contains(t, "уровень")))
  }

  predicate AfterText(t: string) {
    Contains(t, "(после)") || (Contains(t, "после") && (Contains(t, "интенсивн") || Contains(t, "уровень")))
  }

  predicate IsBefore(q: QuestionText) { BeforeText(Lower(q.text)) }

  /** The `elif`: a question marked both ways counts as a before question only. */
  predicate IsAfter(q: QuestionText) { !BeforeText(Lower(q.text)) && AfterText(Lower(q.text)) }

  /**
   * `detect_cbt_pattern`: the ids of the last before question and the
   * last after question, present only when both exist.
   */
  method DetectCbt(qs: seq<QuestionText>) returns (r: Option<(string, string)>)
    ensures r.Some? <==> Last(qs, IsBefore).Some? && Last(qs, IsAfter).Some?
    ensures r.Some? ==> r.value == (IntToStr(qs[Last(qs, IsBefore).value].id), IntToStr(qs[Last(qs, IsAfter).value].id))
  {
    var before: Option<nat> := None;
    var after: Option<nat> := None;
    for i := 0 to |qs|
      invariant before == Last(qs[..i], IsBefore)
      invariant after == Last(qs[..i], IsAfter)
    {
      LastStep(qs, i, IsBefore);
      LastStep(qs, i, IsAfter);
      var text := Lower(qs[i].text);
      if BeforeText(text) {
        before := Some(i);
      } else if AfterText(text) {
        after := Some(i);
      }
    }
    assert qs[..|qs|] == qs;
    if before.Some? && after.Some? {
      r := Some((IntToStr(qs[before.value].id), IntToStr(qs[after.value].id)));
    } else {
      r := None;
    }
  }

  predicate CravingText(t: string) { Contains(t, "тяг") || Contains(t, "craving") }
  predicate RelapseText(t: string) { Contains(t, "срыв") || Contains(t, "relapse") }

  predicate IsCraving(q: QuestionText) { CravingText(Lower(q.text)) }
  predicate IsRelapse(q: QuestionText) { !CravingText(Lower(q.text)) && RelapseText(Lower(q.text)) }

  /**
   * `detect_addiction_pattern`: None exactly when no question mentions a
   * craving; otherwise the last craving question's id and the last relapse
   * question's id, if there is one.
   */
  method DetectAddiction(qs: seq<QuestionText>) returns (r: Option<(string, Option<string>)>)
    ensures r.None? <==> Last(qs, IsCraving).None?
    ensures r.Some? ==> r.value.0 == IntToStr(qs[Last(qs, IsCraving).value].id)
    ensures r.Some? ==> r.value.1 == match Last(qs, IsRelapse)
      case None => None
      case Some(k) => Some(IntToStr(qs[k].id))
  {
    var craving: Option<nat> := None;
    var relapse: Option<nat> := None;
    for i := 0 to |qs|
      invariant craving == Last(qs[..i], IsCraving)
      invariant relapse == Last(qs[..i], IsRelapse)
    {
      LastStep(qs, i, IsCraving);
      LastStep(qs, i, IsRelapse);
      var text := Lower(qs[i].text);
      if CravingText(text) {
        craving := Some(i);
      } else if RelapseText(text) {
        relapse := Some(i);
      }
    }
    assert qs[..|qs|] == qs;
    if craving.Some? {
      var relapseId := if relapse.Some? then Some(IntToStr(qs[relapse.value].id)) else None;
      r := Some((IntToStr(qs[craving.value].id), relapseId));
    } else {
      r := None;
    }
  }
}
