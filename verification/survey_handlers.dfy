/**
 * Filling in a survey (src/handlers/survey_handlers.py): the check of one
 * answer against its question's type and configuration, and the
 * progression of the survey kept in the conversation's user data.
 */
module SurveyHandlers {
  import opened Base
  import opened Strings
  import opened Sorting
  import DateHelpers

  // ---------------------------------------------------------------------
  // The question as the handler sees it

  /** The keys of a decoded `config` object that the checks read. */
  datatype ConfigDict = ConfigDict(min: Option<real>, max: Option<real>, options: Option<seq<string>>)

  /**
   * The `config` column: absent or empty, JSON text that decodes to an
   * object, or text that `json.loads` rejects.
   */
  datatype ConfigText = NoConfig | Json(dict: ConfigDict) | Malformed

  /** A row of `get_template_questions` with the fields the answer check reads. */
  datatype QuestionView = QuestionView(id: int, kind: string, isRequired: bool, config: ConfigText)

  /** Why an answer is refused; each stands for one of the handler's error replies. */
  datatype AnswerError =
    | OutOfRange(min: real, max: real)
    | NotANumber
    | NotYesNo
    | BadTime
    | ChoiceOutOfRange(count: nat)
    | NotAnOption(count: nat)
    | EmptyAnswer

  /**
   * The outcome of `_validate_answer`: `(True, "")`, `(False, message)`,
   * or the decoding error that escapes it for a choice question.
   */
  datatype Verdict = Accepted | Rejected(error: AnswerError) | ConfigError

  // ---------------------------------------------------------------------
  // numeric and scale

  /** `config.get('min', 0)` */
  function MinOf(c: ConfigText): real {
    if c.Json? && c.dict.min.Some? then c.dict.min.value else 0.0
  }

  /** `config.get('max', 100)` */
  function MaxOf(c: ConfigText): real {
    if c.Json? && c.dict.max.Some? then c.dict.max.value else 100.0
  }

  /**
   * The numeric branch: `float(text)`, then the configuration; a
   * decoding error of the configuration is caught by the same
   * `except ValueError` and gives the "enter a number" reply.
   */
  function CheckNumeric(text: string, c: ConfigText): Verdict {
    match ParseReal(text)
    case None => Rejected(NotANumber)
    case Some(v) =>
      if c.Malformed? then Rejected(NotANumber)
      else if v < MinOf(c) || v > MaxOf(c) then Rejected(OutOfRange(MinOf(c), MaxOf(c)))
      else Accepted
  }

  // ---------------------------------------------------------------------
  // yes_no

  const YesNoWords: set<string> := {"да", "нет", "yes", "no"}

  // ---------------------------------------------------------------------
  // time: `^([0-1]?[0-9]|2[0-3]):[0-5][0-9]$`

  /** The pattern without its anchors: a one- or two-digit hour 0-23 and a two-digit minute 00-59. */
  predicate LaxClock(t: string) {
    (|t| == 4 && IsDigitChar(t[0]) && t[1] == ':' && '0' <= t[2] <= '5' && IsDigitChar(t[3]))
    || DateHelpers.StrictClock(t)
  }

  /** `re.match` of the anchored pattern: Python's `$` also matches before one final newline. */
  predicate MatchesClock(s: string) {
    LaxClock(s) || (|s| > 0 && s[|s| - 1] == '\n' && LaxClock(s[..|s| - 1]))
  }

  // ---------------------------------------------------------------------
  // choice

  /** How the comma-separated tokens of a choice answer fare, left to right. */
  datatype TokenScan = AllInRange | OutOfRangeAt(index: nat) | NotIntegerAt(index: nat)

  /** `int(choice)` succeeded and the number is an option number, 1..n. */
  predicate InRange(v: Option<int>, n: int) {
    v.Some? && 1 <= v.value <= n
  }

  /**
   * The loop over the tokens, each already read by `int()`: the first
   * token that is not an integer raises ValueError, the first integer
   * outside 1..n returns False.
   */
  function ScanChoices(values: seq<Option<int>>, n: int): TokenScan {
    if values == [] then AllInRange
    else if values[0].None? then NotIntegerAt(0)
    else if !InRange(values[0], n) then OutOfRangeAt(0)
    else match ScanChoices(values[1..], n)
      case AllInRange => AllInRange
      case OutOfRangeAt(i) => OutOfRangeAt(i + 1)
      case NotIntegerAt(i) => NotIntegerAt(i + 1)
  }

  /**
   * The scan accepts exactly when every token is a number in 1..n;
   * otherwise it stops at the first token that is not an integer or the
   * first number out of range, and every token before it was in range.
   */
  lemma {:induction false} ScanChoicesMeaning(values: seq<Option<int>>, n: int)
    ensures var r := ScanChoices(values, n);
      && (r.AllInRange? <==> forall i :: 0 <= i < |values| ==> InRange(values[i], n))
      && (r.OutOfRangeAt? ==> r.index < |values| && values[r.index].Some? && !InRange(values[r.index], n))
      && (r.NotIntegerAt? ==> r.index < |values| && values[r.index].None?)
      && (!r.AllInRange? ==> forall i :: 0 <= i < r.index ==> InRange(values[i], n))
  {
    if values != [] && InRange(values[0], n) {
      ScanChoicesMeaning(values[1..], n);
      assert forall i :: 1 <= i < |values| ==> values[1..][i - 1] == values[i];
    }
  }

  /** `config.get('options', [])` */
  function OptionsOf(c: ConfigText): seq<string> {
    if c.Json? && c.dict.options.Some? then c.dict.options.value else []
  }

  /** `[c.strip() for c in text.split(',')]` */
  function ChoiceTokens(text: string): (r: seq<string>)
    ensures |r| == |Split(text, ',')|
    ensures forall i :: 0 <= i < |r| ==> r[i] == Strip(Split(text, ',')[i])
  {
    MapSeq(Split(text, ','), Strip)
  }

  /** `int(choice)` of every token, in order. */
  function ChoiceNumbers(text: string): seq<Option<int>> {
    MapSeq(ChoiceTokens(text), ParseInt)
  }

  function CheckChoice(text: string, c: ConfigText): Verdict {
    if c.Malformed? then ConfigError
    else
      var options := OptionsOf(c);
      if options == [] then Accepted
      else match ScanChoices(ChoiceNumbers(text), |options|)
        case AllInRange => Accepted
        case OutOfRangeAt(_) => Rejected(ChoiceOutOfRange(|options|))
        case NotIntegerAt(_) => if text in options then Accepted else Rejected(NotAnOption(|options|))
  }

  // ---------------------------------------------------------------------
  // _validate_answer

  const Kinds: set<string> := {"numeric", "yes_no", "time", "choice", "text", "scale"}

  /** `_validate_answer(text, question)` */
  function ValidateAnswer(text: string, q: QuestionView): (r: Verdict)
    decreases if q.kind == "scale" then 1 else 0
    ensures q.kind !in Kinds ==> r == Accepted
    ensures r == ConfigError ==> q.kind == "choice" && q.config.Malformed?
  {
    if q.kind == "numeric" then CheckNumeric(text, q.config)
    else if q.kind == "yes_no" then
      if Strip(Lower(text)) in YesNoWords then Accepted else Rejected(NotYesNo)
    else if q.kind == "time" then
      if MatchesClock(text) then Accepted else Rejected(BadTime)
    else if q.kind == "choice" then CheckChoice(text, q.config)
    else if q.kind == "text" then
      if Strip(text) == [] then Rejected(EmptyAnswer) else Accepted
    else if q.kind == "scale" then ValidateAnswer(text, q.(kind := "numeric"))
    else Accepted
  }

  /** A numeric answer is valid exactly when it is a number within the bounds, 0 and 100 by default. */
  lemma NumericAnswer(text: string, q: QuestionView)
    requires q.kind == "numeric" || q.kind == "scale"
    ensures ValidateAnswer(text, q) == Accepted <==>
      ParseReal(text).Some? && !q.config.Malformed? && MinOf(q.config) <= ParseReal(text).value <= MaxOf(q.config)
    ensures q.config.NoConfig? ==>
      (ValidateAnswer(text, q) == Accepted <==> ParseReal(text).Some? && 0.0 <= ParseReal(text).value <= 100.0)
  {
  }

  /** An integer answer within a numeric question's bounds is accepted, and one outside is refused. */
  lemma IntegerAnswer(n: int, q: QuestionView)
    requires q.kind == "numeric" && !q.config.Malformed?
    ensures ValidateAnswer(IntToStr(n), q) == Accepted <==> MinOf(q.config) <= n as real <= MaxOf(q.config)
  {
    ParseRealOfIntToStr(n);
  }

  /** A scale question is checked exactly as a numeric one. */
  lemma ScaleIsNumeric(text: string, q: QuestionView)
    requires q.kind == "scale"
    ensures ValidateAnswer(text, q) == ValidateAnswer(text, q.(kind := "numeric"))
  {
  }

  /** A yes/no answer is valid exactly when its stripped lower-case form is one of the four words; case does not matter. */
  lemma YesNoAnswer(text: string, q: QuestionView)
    requires q.kind == "yes_no"
    ensures ValidateAnswer(text, q) == Accepted <==> Strip(Lower(text)) in YesNoWords
    ensures ValidateAnswer(Lower(text), q) == ValidateAnswer(text, q)
  {
    LowerIdempotent(text);
  }

  /** A text answer is valid exactly when something other than whitespace remains. */
  lemma TextAnswer(text: string, q: QuestionView)
    requires q.kind == "text"
    ensures ValidateAnswer(text, q) == Accepted <==> Strip(text) != []
  {
  }

  /** With no options every choice answer is valid (a configuration that fails to decode still raises). */
  lemma ChoiceWithoutOptions(text: string, q: QuestionView)
    requires q.kind == "choice" && !q.config.Malformed? && OptionsOf(q.config) == []
    ensures ValidateAnswer(text, q) == Accepted
  {
  }

  /**
   * With options, an answer is valid when all its comma-separated tokens
   * are option numbers; when a number out of range comes before any
   * non-integer token it is refused, whatever follows.
   */
  lemma ChoiceByNumbers(text: string, q: QuestionView)
    requires q.kind == "choice" && !q.config.Malformed? && OptionsOf(q.config) != []
    ensures (forall i :: 0 <= i < |ChoiceNumbers(text)| ==> InRange(ChoiceNumbers(text)[i], |OptionsOf(q.config)|))
            ==> ValidateAnswer(text, q) == Accepted
    ensures ScanChoices(ChoiceNumbers(text), |OptionsOf(q.config)|).OutOfRangeAt? ==>
            ValidateAnswer(text, q) == Rejected(ChoiceOutOfRange(|OptionsOf(q.config)|))
  {
    assert ValidateAnswer(text, q) == CheckChoice(text, q.config);
    ScanChoicesMeaning(ChoiceNumbers(text), |OptionsOf(q.config)|);
  }

  /** When a token is not an integer, the whole text must be one of the options. */
  lemma ChoiceByText(text: string, q: QuestionView)
    requires q.kind == "choice" && !q.config.Malformed? && OptionsOf(q.config) != []
    requires ScanChoices(ChoiceNumbers(text), |OptionsOf(q.config)|).NotIntegerAt?
    ensures ValidateAnswer(text, q) == Accepted <==> text in OptionsOf(q.config)
  {
    assert ValidateAnswer(text, q) == CheckChoice(text, q.config);
  }

  /** Every hour 0-23 and minute 00-59 is a valid time answer, with the hour in one or two digits. */
  lemma ClockAccepted(h: nat, m: nat)
    requires h < 24 && m < 60
    ensures MatchesClock(Pad2(h) + ":" + Pad2(m))
    ensures h < 10 ==> MatchesClock([DigitChar(h)] + ":" + Pad2(m))
  {
    var s := Pad2(h) + ":" + Pad2(m);
    assert s[0] == Pad2(h)[0] && s[1] == Pad2(h)[1] && s[2] == ':' && s[3] == Pad2(m)[0] && s[4] == Pad2(m)[1];
    DigitBounds(h);
    DigitBounds(m);
  }

  lemma DigitBounds(n: nat)
    requires n < 100
    ensures Pad2(n)[0] == DigitChar(n / 10) && Pad2(n)[1] == DigitChar(n % 10)
    ensures n < 60 ==> '0' <= Pad2(n)[0] <= '5'
    ensures n < 24 ==> ('0' <= Pad2(n)[0] <= '1' || (Pad2(n)[0] == '2' && '0' <= Pad2(n)[1] <= '3'))
  {
  }

  /**
   * A valid time answer is an hour below 24 in one or two digits, a
   * colon, and a minute below 60 in two digits.
   */
  lemma ClockRead(t: string)
    requires LaxClock(t)
    ensures var hour := t[..|t| - 3]; var minute := t[|t| - 2..];
      t == hour + ":" + minute && 1 <= |hour| <= 2 && IsDigits(hour) && IsDigits(minute) && |minute| == 2
      && DigitsValue(hour) < 24 && DigitsValue(minute) < 60
  {
    var hour := t[..|t| - 3];
    var minute := t[|t| - 2..];
    assert t == hour + ":" + minute;
    DigitsValueTwo(minute);
    if |t| == 4 {
      assert hour == [t[0]];
      assert hour[..0] == [];
    } else {
      DigitsValueTwo(hour);
    }
  }

  /** The answer check accepts every time `is_valid_time_format` accepts, and "0:00" besides. */
  lemma ClockLaxerThanStrict(t: string)
    ensures DateHelpers.StrictClock(t) ==> LaxClock(t)
    ensures LaxClock("0:00") && !DateHelpers.StrictClock("0:00")
  {
  }

  /** The handler's own examples of refused times. */
  lemma ClockRejects()
    ensures !MatchesClock("25:00") && !MatchesClock("14:60") && !MatchesClock("14-30")
    ensures MatchesClock("0:00") && MatchesClock("23:59")
  {
    assert "25:00"[..4] == "25:0";
    assert "14:60"[..4] == "14:6";
    assert "14-30"[..4] == "14-3";
  }

  // ---------------------------------------------------------------------
  // handle_survey_answer

  /** What the handler does after one message. */
  datatype Outcome =
    | Stay            // replies and waits for another answer to the same question
    | Ask(index: nat) // asks question `index`
    | Complete        // all questions passed: the answers are saved and the conversation ends
    | Raise           // the decoding error of a choice configuration escapes

  /** The `survey` entry of the user data during a fill-in. */
  class SurveySession {
    var questions: seq<QuestionView>
    var current: nat
    var answers: map<string, string>

    /** Every stored answer belongs to a question already passed. */
    predicate Valid()
      reads this
    {
      current <= |questions|
      && forall k :: k in answers ==> exists i :: 0 <= i < current && k == IntToStr(questions[i].id)
    }

    /** `start_fill_survey` stores a session only for a template that has questions. */
    constructor (questions: seq<QuestionView>)
      requires |questions| > 0
      ensures Valid()
      ensures this.questions == questions && current == 0 && answers == map[]
    {
      this.questions := questions;
      current := 0;
      answers := map[];
    }

    /**
     * `handle_survey_answer` on the text of one message. '/skip' passes
     * an optional question without an answer and is refused on a required
     * one; otherwise a valid answer is stored under the question id and
     * the next question is asked, an invalid one changes nothing.
     */
    method HandleAnswer(text: string) returns (out: Outcome)
      requires Valid() && current < |questions|
      modifies this
      ensures Valid() && questions == old(questions)
      ensures current == old(current) || current == old(current) + 1
      ensures text == "/skip" ==> answers == old(answers)
      ensures text == "/skip" && old(questions[current]).isRequired ==> out == Stay && current == old(current)
      ensures text == "/skip" && !old(questions[current]).isRequired ==> current == old(current) + 1
      ensures text != "/skip" && ValidateAnswer(text, old(questions[current])) != Accepted ==>
        current == old(current) && answers == old(answers)
        && out == (if ValidateAnswer(text, old(questions[current])) == ConfigError then Raise else Stay)
      ensures text != "/skip" && ValidateAnswer(text, old(questions[current])) == Accepted ==>
        current == old(current) + 1
        && answers == old(answers)[IntToStr(old(questions[current]).id) := text]
      ensures current == old(current) + 1 ==> out == (if current < |questions| then Ask(current) else Complete)
      ensures out == Complete <==> current == |questions|
    {
      var q := questions[current];
      if text == "/skip" {
        if q.isRequired {
          return Stay;
        }
        current := current + 1;
        out := if current < |questions| then Ask(current) else Complete;
        return;
      }
      var verdict := ValidateAnswer(text, q);
      if verdict == ConfigError {
        return Raise;
      }
      if verdict != Accepted {
        return Stay;
      }
      answers := answers[IntToStr(q.id) := text];
      current := current + 1;
      out := if current < |questions| then Ask(current) else Complete;
    }
  }
}
