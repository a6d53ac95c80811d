/**
 * Adding a question to a user's template
 * (src/handlers/survey_questions.py): the length gate on the question
 * text and the parser of the configuration typed for numeric, choice and
 * scale questions.
 */
module SurveyQuestions {
  import opened Base
  import opened Strings
  import opened Sorting

  const MinQuestionLength := 10
  const MaxQuestionLength := 500

  /** `TYPES_NEED_CONFIG` */
  const TypesNeedConfig: set<string> := {"numeric", "choice", "scale"}

  // ---------------------------------------------------------------------
  // receive_question_text

  /** What `receive_question_text` does with a message. */
  datatype TextStep = TooShort | TooLong | AskConfig(text: string) | SaveWithoutConfig(text: string)

  /**
   * `receive_question_text`: the stripped text must have 10 to 500
   * characters; then numeric, choice and scale questions go on to their
   * configuration and the other types are saved at once.
   */
  function ReceiveQuestionText(message: string, kind: string): (r: TextStep)
    ensures (r.AskConfig? || r.SaveWithoutConfig?) <==> MinQuestionLength <= |Strip(message)| <= MaxQuestionLength
    ensures r.AskConfig? <==> MinQuestionLength <= |Strip(message)| <= MaxQuestionLength && kind in TypesNeedConfig
    ensures (r.AskConfig? || r.SaveWithoutConfig?) ==> r.text == Strip(message)
  {
    var text := Strip(message);
    if |text| < MinQuestionLength then TooShort
    else if |text| > MaxQuestionLength then TooLong
    else if kind in TypesNeedConfig then AskConfig(text)
    else SaveWithoutConfig(text)
  }

  // ---------------------------------------------------------------------
  // _parse_config

  /** The configuration dictionaries `_parse_config` builds. */
  datatype QuestionConfig =
    | NumericConfig(min: real, max: real)
    | ChoiceConfig(kind: string, options: seq<string>)
    | ScaleConfig(min: real, max: real, step: real)

  /** The error replies of `_parse_config`, one per message. */
  datatype ConfigError =
    | NeedTwoNumbers
    | MinNotBelowMax
    | NeedTypeAndOption
    | BadChoiceType
    | TooFewOptions
    | TooManyOptions
    | NeedThreeNumbers
    | StepNotPositive
    | StepTooLarge
    | NotNumbers      // the ValueError of `float`
    | UnknownType

  /** `[line.strip() for line in lines if line.strip()]` */
  function NonBlank(lines: seq<string>): (r: seq<string>)
    ensures |r| <= |lines|
  {
    if lines == [] then []
    else if Strip(lines[0]) != [] then [Strip(lines[0])] + NonBlank(lines[1..])
    else NonBlank(lines[1..])
  }

  /** Every kept line is non-blank and already stripped. */
  lemma {:induction false} NonBlankStripped(lines: seq<string>)
    ensures forall x :: x in NonBlank(lines) ==> x != [] && Strip(x) == x
  {
    if lines != [] {
      var head := Strip(lines[0]);
      var tail := NonBlank(lines[1..]);
      NonBlankStripped(lines[1..]);
      if head != [] {
        StripIdempotent(lines[0]);
        assert NonBlank(lines) == [head] + tail;
        forall x | x in NonBlank(lines) ensures x != [] && Strip(x) == x {
          if x != head { assert x in tail; }
        }
      } else {
        assert NonBlank(lines) == tail;
      }
    }
  }

  /** The non-blank lines of `text`, each stripped, in order. */
  function NonBlankLines(text: string): seq<string> {
    NonBlank(Split(text, '\n'))
  }

  function ParseNumeric(parts: seq<string>): (r: Result<QuestionConfig, ConfigError>)
    ensures r.Ok? ==> r.value.NumericConfig? && r.value.min < r.value.max
  {
    if |parts| != 2 then Err(NeedTwoNumbers)
    else
      var lo, hi := ParseReal(parts[0]), ParseReal(parts[1]);
      if lo.None? || hi.None? then Err(NotNumbers)
      else if lo.value >= hi.value then Err(MinNotBelowMax)
      else Ok(NumericConfig(lo.value, hi.value))
  }

  function ParseChoice(lines: seq<string>): (r: Result<QuestionConfig, ConfigError>)
    ensures r.Ok? ==> (|lines| > 1 && r.value.ChoiceConfig? && r.value.options == lines[1..]
      && (r.value.kind == "single" || r.value.kind == "multiple") && 2 <= |r.value.options| <= 10)
  {
    if |lines| < 2 then Err(NeedTypeAndOption)
    else
      var kind := Lower(lines[0]);
      if kind != "single" && kind != "multiple" then Err(BadChoiceType)
      else if |lines| - 1 < 2 then Err(TooFewOptions)
      else if |lines| - 1 > 10 then Err(TooManyOptions)
      else Ok(ChoiceConfig(kind, lines[1..]))
  }

  function ParseScale(parts: seq<string>): (r: Result<QuestionConfig, ConfigError>)
    ensures r.Ok? ==> (r.value.ScaleConfig? && r.value.min < r.value.max
      && 0.0 < r.value.step <= r.value.max - r.value.min)
  {
    if |parts| != 3 then Err(NeedThreeNumbers)
    else
      var lo, hi, step := ParseReal(parts[0]), ParseReal(parts[1]), ParseReal(parts[2]);
      if lo.None? || hi.None? || step.None? then Err(NotNumbers)
      else if lo.value >= hi.value then Err(MinNotBelowMax)
      else if step.value <= 0.0 then Err(StepNotPositive)
      else if step.value > hi.value - lo.value then Err(StepTooLarge)
      else Ok(ScaleConfig(lo.value, hi.value, step.value))
  }

  /**
   * `_parse_config(question_type, config_text)`: a configuration or an
   * error, never both, and never neither.
   */
  function ParseConfig(kind: string, text: string): (r: Result<QuestionConfig, ConfigError>)
    ensures r.Ok? ==> kind in TypesNeedConfig
    ensures kind !in TypesNeedConfig ==> r == Err(UnknownType)
    ensures r.Ok? && kind == "numeric" ==> (r.value.NumericConfig? && r.value.min < r.value.max)
    ensures r.Ok? && kind == "scale" ==> (r.value.ScaleConfig? && r.value.min < r.value.max
      && 0.0 < r.value.step <= r.value.max - r.value.min)
    ensures r.Ok? && kind == "choice" ==> (r.value.ChoiceConfig?
      && (r.value.kind == "single" || r.value.kind == "multiple") && 2 <= |r.value.options| <= 10)
  {
    if kind == "numeric" then ParseNumeric(Words(text))
    else if kind == "choice" then ParseChoice(NonBlankLines(text))
    else if kind == "scale" then ParseScale(Words(text))
    else Err(UnknownType)
  }

  /** A numeric configuration is valid exactly when it is two numbers, the first below the second. */
  lemma NumericConfigIff(text: string)
    ensures ParseConfig("numeric", text).Ok? <==>
      |Words(text)| == 2 && ParseReal(Words(text)[0]).Some? && ParseReal(Words(text)[1]).Some?
      && ParseReal(Words(text)[0]).value < ParseReal(Words(text)[1]).value
    ensures ParseConfig("numeric", text).Ok? ==>
      ParseConfig("numeric", text).value == NumericConfig(ParseReal(Words(text)[0]).value, ParseReal(Words(text)[1]).value)
  {
    assert ParseConfig("numeric", text) == ParseNumeric(Words(text));
  }

  /** Two integers written with a space between them give that range. */
  lemma NumericConfigOfInts(lo: int, hi: int)
    requires lo < hi
    ensures ParseConfig("numeric", IntToStr(lo) + " " + IntToStr(hi)) == Ok(NumericConfig(lo as real, hi as real))
  {
    var ws := [IntToStr(lo), IntToStr(hi)];
    IntToStrWord(lo);
    IntToStrWord(hi);
    WordsOfJoin(ws);
    assert Join(ws, " ") == IntToStr(lo) + " " + IntToStr(hi);
    ParseRealOfIntToStr(lo);
    ParseRealOfIntToStr(hi);
  }

  lemma IntToStrWord(n: int)
    ensures Word(IntToStr(n))
  {
    var s := IntToStr(n);
    if n < 0 {
      assert s[1..] == NatToStr(-n);
      forall k | 0 <= k < |s| ensures !IsSpace(s[k]) {
        if k > 0 { assert s[k] == NatToStr(-n)[k - 1]; }
      }
    }
  }

  /** A scale configuration is valid exactly when it is three numbers with min < max and 0 < step <= max - min. */
  lemma ScaleConfigIff(text: string)
    ensures ParseConfig("scale", text).Ok? <==>
      |Words(text)| == 3 && ParseReal(Words(text)[0]).Some? && ParseReal(Words(text)[1]).Some?
      && ParseReal(Words(text)[2]).Some?
      && ParseReal(Words(text)[0]).value < ParseReal(Words(text)[1]).value
      && 0.0 < ParseReal(Words(text)[2]).value <= ParseReal(Words(text)[1]).value - ParseReal(Words(text)[0]).value
  {
    assert ParseConfig("scale", text) == ParseScale(Words(text));
  }

  /**
   * A choice configuration is valid exactly when its first non-blank
   * line is "single" or "multiple" in any case and 2 to 10 non-blank
   * lines follow; the options are those lines, stripped, in order.
   */
  lemma ChoiceConfigIff(text: string)
    ensures var lines := NonBlankLines(text);
      ParseConfig("choice", text).Ok? <==>
        |lines| >= 2 && Lower(lines[0]) in {"single", "multiple"} && 2 <= |lines| - 1 <= 10
    ensures var lines := NonBlankLines(text);
      ParseConfig("choice", text).Ok? ==> ParseConfig("choice", text).value.options == lines[1..]
  {
    assert ParseConfig("choice", text) == ParseChoice(NonBlankLines(text));
  }

  /** A token that is not a number gives the format error, once the count of tokens is right. */
  lemma NonNumberToken(text: string)
    requires |Words(text)| == 2 && (ParseReal(Words(text)[0]).None? || ParseReal(Words(text)[1]).None?)
    ensures ParseConfig("numeric", text) == Err(NotNumbers)
  {
    assert ParseConfig("numeric", text) == ParseNumeric(Words(text));
  }
}
