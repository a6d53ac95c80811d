/**
 * The export commands (src/handlers/export_handlers.py): the argument
 * parser shared by `/export_impressions` and `/export_surveys`, and the
 * checks both handlers make before they touch the database.
 */
module ExportHandlers {
  import opened Base
  import opened Strings
  import opened Sorting

  // ---------------------------------------------------------------------
  // parse_export_args

  /** The `params` dictionary. */
  datatype ExportParams = ExportParams(
    format: string,
    fromDate: Option<string>,
    toDate: Option<string>,
    surveyName: Option<string>)

  /** CSV, no dates, no survey name. */
  const DefaultParams := ExportParams("csv", None, None, None)

  /** The flags that take the argument after them as their value. */
  predicate ValueFlag(arg: string) {
    arg == "--format" || arg == "--from" || arg == "--to"
  }

  /** Not a flag: the argument does not start with `--`. */
  predicate Bare(arg: string) {
    !IsPrefix("--", arg)
  }

  /** How many arguments the loop consumes at position `i`: two for a flag with its value, else one. */
  function Width(args: seq<string>, i: nat): (w: nat)
    requires i < |args|
    ensures 1 <= w <= 2 && i + w <= |args|
    ensures w == 2 <==> (ValueFlag(args[i]) && i + 1 < |args|)
  {
    if ValueFlag(args[i]) && i + 1 < |args| then 2 else 1
  }

  /** What the argument at position `i` does to the parameters. */
  function Apply(args: seq<string>, i: nat, p: ExportParams): ExportParams
    requires i < |args|
  {
    var arg := args[i];
    if arg == "--format" && i + 1 < |args| then p.(format := Lower(args[i + 1]))
    else if arg == "--from" && i + 1 < |args| then p.(fromDate := Some(args[i + 1]))
    else if arg == "--to" && i + 1 < |args| then p.(toDate := Some(args[i + 1]))
    else if Bare(arg) then p.(surveyName := Some(arg))
    else p
  }

  /** The parameters after the loop has run from position `i`. */
  function ScanFrom(args: seq<string>, i: nat, p: ExportParams): ExportParams
    decreases |args| - i
  {
    if i >= |args| then p else ScanFrom(args, i + Width(args, i), Apply(args, i, p))
  }

  /** The loop started at `i` stops at position `k`. */
  predicate Reaches(args: seq<string>, i: nat, k: nat)
    decreases |args| - i
  {
    i == k || (i < k && i < |args| && Reaches(args, i + Width(args, i), k))
  }

  /**
   * `parse_export_args`: the defaults updated by every argument the loop
   * reaches, in order; no arguments leave the defaults.
   */
  method ParseExportArgs(args: seq<string>) returns (p: ExportParams)
    ensures p == ScanFrom(args, 0, DefaultParams)
    ensures args == [] ==> p == DefaultParams
  {
    p := DefaultParams;
    var i := 0;
    while i < |args|
      invariant 0 <= i <= |args|
      invariant ScanFrom(args, i, p) == ScanFrom(args, 0, DefaultParams)
      decreases |args| - i
    {
      var arg := args[i];
      if arg == "--format" && i + 1 < |args| {
        p := p.(format := Lower(args[i + 1]));
        i := i + 2;
      } else if arg == "--from" && i + 1 < |args| {
        p := p.(fromDate := Some(args[i + 1]));
        i := i + 2;
      } else if arg == "--to" && i + 1 < |args| {
        p := p.(toDate := Some(args[i + 1]));
        i := i + 2;
      } else {
        if Bare(arg) {
          p := p.(surveyName := Some(arg));
        }
        i := i + 1;
      }
    }
  }

  /**
   * The survey name only ever comes from a bare argument: it is the
   * starting one or one of the arguments scanned.
   */
  lemma {:induction false} NameIsBareArgument(args: seq<string>, i: nat, p: ExportParams)
    ensures var r := ScanFrom(args, i, p);
      r.surveyName == p.surveyName
      || (r.surveyName.Some? && r.surveyName.value in args[i..] && Bare(r.surveyName.value))
    decreases |args| - i
  {
    if i < |args| {
      var q := Apply(args, i, p);
      NameIsBareArgument(args, i + Width(args, i), q);
      var r := ScanFrom(args, i, p);
      if r.surveyName != q.surveyName {
        assert r.surveyName.value in args[i + Width(args, i)..];
        assert args[i + Width(args, i)..] == args[i..][Width(args, i)..];
      } else if q.surveyName != p.surveyName {
        assert q.surveyName == Some(args[i]) && args[i] == args[i..][0];
      }
    }
  }

  /**
   * The format is the starting one or the lower-cased value of some
   * scanned argument.
   */
  lemma {:induction false} FormatIsLowered(args: seq<string>, i: nat, p: ExportParams)
    ensures var r := ScanFrom(args, i, p);
      r.format == p.format || r.format in MapSeq(args, Lower)
    decreases |args| - i
  {
    if i < |args| {
      var q := Apply(args, i, p);
      FormatIsLowered(args, i + Width(args, i), q);
      if q.format != p.format {
        assert q.format == MapSeq(args, Lower)[i + 1];
      }
    }
  }

  /** A bare final argument the loop reaches is the survey name, whatever bare words came before it. */
  lemma {:induction false} LastBareWordWins(args: seq<string>, i: nat, p: ExportParams)
    requires args != [] && Bare(args[|args| - 1])
    requires Reaches(args, i, |args| - 1)
    ensures ScanFrom(args, i, p).surveyName == Some(args[|args| - 1])
    decreases |args| - i
  {
    if i < |args| - 1 {
      LastBareWordWins(args, i + Width(args, i), Apply(args, i, p));
    } else {
      assert !ValueFlag(args[i]);
    }
  }

  /** A final `--format v` the loop reaches sets the format to v in lower case. */
  lemma {:induction false} LastFormatWins(args: seq<string>, i: nat, p: ExportParams)
    requires |args| >= 2 && args[|args| - 2] == "--format"
    requires Reaches(args, i, |args| - 2)
    ensures ScanFrom(args, i, p).format == Lower(args[|args| - 1])
    decreases |args| - i
  {
    if i < |args| - 2 {
      LastFormatWins(args, i + Width(args, i), Apply(args, i, p));
    }
  }

  lemma {:induction false} LastFromWins(args: seq<string>, i: nat, p: ExportParams)
    requires |args| >= 2 && args[|args| - 2] == "--from"
    requires Reaches(args, i, |args| - 2)
    ensures ScanFrom(args, i, p).fromDate == Some(args[|args| - 1])
    decreases |args| - i
  {
    if i < |args| - 2 {
      LastFromWins(args, i + Width(args, i), Apply(args, i, p));
    }
  }

  lemma {:induction false} LastToWins(args: seq<string>, i: nat, p: ExportParams)
    requires |args| >= 2 && args[|args| - 2] == "--to"
    requires Reaches(args, i, |args| - 2)
    ensures ScanFrom(args, i, p).toDate == Some(args[|args| - 1])
    decreases |args| - i
  {
    if i < |args| - 2 {
      LastToWins(args, i + Width(args, i), Apply(args, i, p));
    }
  }

  /** A flag without a value after it, or an unknown flag, is skipped on its own. */
  lemma LoneFlagSkipped(args: seq<string>, i: nat, p: ExportParams)
    requires i < |args| && !Bare(args[i]) && !(ValueFlag(args[i]) && i + 1 < |args|)
    ensures ScanFrom(args, i, p) == ScanFrom(args, i + 1, p)
  {
  }

  /** Arguments that are all flags leave the survey name unset. */
  lemma {:induction false} FlagsOnlyNoName(args: seq<string>, i: nat, p: ExportParams)
    requires forall j :: 0 <= j < |args| ==> !Bare(args[j])
    ensures ScanFrom(args, i, p).surveyName == p.surveyName
    decreases |args| - i
  {
    if i < |args| {
      FlagsOnlyNoName(args, i + Width(args, i), Apply(args, i, p));
    }
  }

  /** A value flag takes the argument after it even when that is another flag. */
  lemma FlagTakenAsValue()
    ensures ScanFrom(["--to", "--format", "json"], 0, DefaultParams)
      == DefaultParams.(toDate := Some("--format"), surveyName := Some("json"))
  {
    var args := ["--to", "--format", "json"];
    assert Width(args, 0) == 2;
    assert Apply(args, 0, DefaultParams) == DefaultParams.(toDate := Some("--format"));
    assert Bare("json") by { assert "json"[..2][0] == 'j'; }
    assert Width(args, 2) == 1;
  }

  // ---------------------------------------------------------------------
  // The handlers' checks

  datatype ExportFormat = Csv | Json

  /** The two refusals a handler sends before any export. */
  datatype ExportError = MissingSurveyName | BadFormat

  /** `params['format'] not in ['csv', 'json']` */
  function CheckFormat(format: string): (r: Result<ExportFormat, ExportError>)
    ensures r.Ok? <==> format == "csv" || format == "json"
    ensures r == Ok(Csv) <==> format == "csv"
    ensures r.Err? ==> r.error == BadFormat
  {
    if format == "csv" then Ok(Csv) else if format == "json" then Ok(Json) else Err(BadFormat)
  }

  /** The request `/export_impressions` passes to the exporter. */
  datatype ImpressionsExport = ImpressionsExport(format: ExportFormat, fromDate: Option<string>, toDate: Option<string>)

  /** `export_impressions_handler` up to the exporter call: only the format is checked. */
  function ExportImpressionsRequest(p: ExportParams): (r: Result<ImpressionsExport, ExportError>)
    ensures r.Ok? <==> p.format in {"csv", "json"}
    ensures r.Ok? ==> (r.value.fromDate == p.fromDate && r.value.toDate == p.toDate
      && (r.value.format == Csv <==> p.format == "csv"))
  {
    match CheckFormat(p.format)
    case Ok(f) => Ok(ImpressionsExport(f, p.fromDate, p.toDate))
    case Err(e) => Err(e)
  }

  /** The request `/export_surveys` passes to the exporter. */
  datatype SurveysExport = SurveysExport(
    surveyName: string, format: ExportFormat, fromDate: Option<string>, toDate: Option<string>)

  /**
   * `export_surveys_handler` up to the exporter call: a missing or empty
   * survey name is refused first, then a format outside csv and json.
   */
  function ExportSurveysRequest(p: ExportParams): (r: Result<SurveysExport, ExportError>)
    ensures r == Err(MissingSurveyName) <==> (p.surveyName.None? || p.surveyName.value == "")
    ensures r == Err(BadFormat) <==>
      (p.surveyName.Some? && p.surveyName.value != "" && p.format !in {"csv", "json"})
    ensures r.Ok? ==> (p.surveyName == Some(r.value.surveyName) && r.value.surveyName != ""
      && r.value.fromDate == p.fromDate && r.value.toDate == p.toDate
      && (r.value.format == Csv <==> p.format == "csv"))
  {
    if p.surveyName.None? || p.surveyName.value == "" then Err(MissingSurveyName)
    else
      match CheckFormat(p.format)
      case Ok(f) => Ok(SurveysExport(p.surveyName.value, f, p.fromDate, p.toDate))
      case Err(e) => Err(e)
  }

  /** `/export_surveys` with only flags is always refused for the missing name. */
  lemma SurveysNeedABareWord(args: seq<string>)
    requires forall j :: 0 <= j < |args| ==> !Bare(args[j])
    ensures ExportSurveysRequest(ScanFrom(args, 0, DefaultParams)) == Err(MissingSurveyName)
  {
    FlagsOnlyNoName(args, 0, DefaultParams);
  }

  /** Any upper/lower-case spelling of `--format JSON` is accepted. */
  lemma UpperCaseFormatAccepted(args: seq<string>)
    requires |args| >= 2 && args[|args| - 2] == "--format" && Lower(args[|args| - 1]) == "json"
    requires Reaches(args, 0, |args| - 2)
    ensures ExportImpressionsRequest(ScanFrom(args, 0, DefaultParams)).Ok?
    ensures ExportImpressionsRequest(ScanFrom(args, 0, DefaultParams)).value.format == Json
  {
    LastFormatWins(args, 0, DefaultParams);
  }
}
