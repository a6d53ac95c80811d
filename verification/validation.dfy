/**
 * Input validation for the diary scores and comments
 * (src/utils/validation.py).
 */
module Validation {
  import opened Base
  import opened Strings

  /**
   * `validate_numeric_input(text, min_val, max_val)`: the text must be all
   * decimal digits (`isdigit`), and `int(text)` must lie within the
   * inclusive range. The pair is `(True, n)` or `(False, None)`.
   */
  function ValidateNumericInput(text: string, minVal: int, maxVal: int): (r: (bool, Option<int>))
    ensures r.0 <==> IsDigits(text) && minVal <= DigitsValue(text) <= maxVal
    ensures r.0 ==> r.1 == Some(DigitsValue(text) as int)
    ensures !r.0 ==> r.1 == None
  {
    if !IsDigits(text) then (false, None)
    else
      match ParseIntOfDigitsValue(text)
      case None => (false, None)
      case Some(value) =>
        if value < minVal || value > maxVal then (false, None)
        else (true, Some(value))
  }

  /** `int(text)` on a digit string, with the fact that it succeeds. */
  function ParseIntOfDigitsValue(text: string): (r: Option<int>)
    requires IsDigits(text)
    ensures r == Some(DigitsValue(text) as int)
  {
    ParseIntOfDigits(text);
    ParseInt(text)
  }

  /** Both ends of a non-negative range are accepted, written as `str(n)`. */
  lemma NumericBoundsAccepted(minVal: int, maxVal: int)
    requires 0 <= minVal <= maxVal
    ensures ValidateNumericInput(IntToStr(minVal), minVal, maxVal) == (true, Some(minVal))
    ensures ValidateNumericInput(IntToStr(maxVal), minVal, maxVal) == (true, Some(maxVal))
  {
    DigitsOfNatToStr(minVal);
    DigitsOfNatToStr(maxVal);
  }

  /** One step outside the range is rejected. */
  lemma NumericOutsideRejected(minVal: int, maxVal: int)
    requires 0 < minVal <= maxVal
    ensures ValidateNumericInput(IntToStr(minVal - 1), minVal, maxVal) == (false, None)
    ensures ValidateNumericInput(IntToStr(maxVal + 1), minVal, maxVal) == (false, None)
  {
    DigitsOfNatToStr(minVal - 1);
    DigitsOfNatToStr(maxVal + 1);
  }

  /** A sign, a decimal point, a blank or any other non-digit character rejects. */
  lemma NonDigitRejected(text: string, i: nat, minVal: int, maxVal: int)
    requires i < |text| && !IsDigitChar(text[i])
    ensures ValidateNumericInput(text, minVal, maxVal) == (false, None)
  {
  }

  /** Python's `s[:n]`: a negative `n` counts from the end. */
  function PrefixSlice(s: string, n: int): (r: string)
    ensures |r| <= |s| && r == s[..|r|]
    ensures n >= 0 ==> |r| == if n < |s| then n else |s|
    ensures n < 0 ==> |r| == if -n < |s| then |s| + n else 0
  {
    if n >= 0 then (if n < |s| then s[..n] else s)
    else if -n < |s| then s[..|s| + n] else []
  }

  /**
   * `validate_comment(comment, max_length)`: always valid; the comment is
   * stripped and cut to `max_length` characters when longer.
   */
  function ValidateComment(comment: string, maxLength: int): (r: (bool, string))
    ensures r.0
    ensures |r.1| <= |Strip(comment)| && r.1 == Strip(comment)[..|r.1|]
    ensures maxLength >= 0 ==>
      |r.1| == (if |Strip(comment)| < maxLength then |Strip(comment)| else maxLength)
  {
    var sanitized := Strip(comment);
    if |sanitized| > maxLength then (true, PrefixSlice(sanitized, maxLength))
    else (true, sanitized)
  }

  /** A comment already within bounds and without surrounding blanks is kept as is. */
  lemma CommentKeptWhenClean(comment: string, maxLength: int)
    requires |comment| <= maxLength
    requires comment == [] || (!IsSpace(comment[0]) && !IsSpace(comment[|comment| - 1]))
    ensures ValidateComment(comment, maxLength) == (true, comment)
  {
    StripOfTrimmed(comment);
  }

  /** `get_validation_error_message(field_name, min_val, max_val)` */
  function GetValidationErrorMessage(fieldName: string, minVal: int, maxVal: int): string {
    "Пожалуйста, введите число от " + IntToStr(minVal) + " до " + IntToStr(maxVal) + ":"
  }

  /**
   * The message names the two bounds and nothing else: split on blanks, the
   * fifth word reads back as `min_val` and the seventh, less its colon, as
   * `max_val`; the field name plays no part.
   */
  lemma ErrorMessageStatesBounds(field1: string, field2: string, minVal: int, maxVal: int)
    ensures GetValidationErrorMessage(field1, minVal, maxVal) == GetValidationErrorMessage(field2, minVal, maxVal)
    ensures var words := Split(GetValidationErrorMessage(field1, minVal, maxVal), ' ');
      |words| == 7 && ParseInt(words[4]) == Some(minVal)
      && |words[6]| > 0 && words[6][|words[6]| - 1] == ':'
      && ParseInt(words[6][..|words[6]| - 1]) == Some(maxVal)
  {
    var b := IntToStr(maxVal);
    MessageWords(field1, minVal, maxVal);
    assert (b + ":")[..|b|] == b;
    ParseIntOfIntToStr(minVal);
    ParseIntOfIntToStr(maxVal);
  }

  lemma MessageWords(field: string, minVal: int, maxVal: int)
    ensures Split(GetValidationErrorMessage(field, minVal, maxVal), ' ')
         == ["Пожалуйста,", "введите", "число", "от", IntToStr(minVal), "до", IntToStr(maxVal) + ":"]
  {
    var a, b := IntToStr(minVal), IntToStr(maxVal);
    NoBlankInNumber(minVal);
    NoBlankInNumber(maxVal);
    var parts := ["Пожалуйста,", "введите", "число", "от", a, "до", b + ":"];
    assert ' ' !in b + ":";
    forall k | 0 <= k < |parts| ensures ' ' !in parts[k] { }
    MessageJoin(parts, a, b);
    assert Join(parts, " ") == GetValidationErrorMessage(field, minVal, maxVal);
    SplitJoin(parts, ' ');
  }

  lemma MessageJoin(parts: seq<string>, a: string, b: string)
    requires parts == ["Пожалуйста,", "введите", "число", "от", a, "до", b + ":"]
    ensures Join(parts, " ") == "Пожалуйста, введите число от " + a + " до " + b + ":"
  {
    JoinSeven(parts, " ");
    MessagePrefix();
    var x := "Пожалуйста, введите число от " + a;
    assert x + " " + "до" + " " == x + " до ";
    var y := x + " до ";
    assert y + (b + ":") == y + b + ":";
  }

  /** The fixed start of the message, word by word. */
  lemma MessagePrefix()
    ensures "Пожалуйста, введите число от " == "Пожалуйста," + " " + "введите" + " " + "число" + " " + "от" + " "
  {
  }

  /** Seven words joined by a separator, written out. */
  lemma JoinSeven(w: seq<string>, sep: string)
    requires |w| == 7
    ensures Join(w, sep) == w[0] + sep + w[1] + sep + w[2] + sep + w[3] + sep + w[4] + sep + w[5] + sep + w[6]
  {
    assert Join(w[..1], sep) == w[0];
    JoinSnoc(w[..1], w[1], sep);
    assert w[..1] + [w[1]] == w[..2];
    JoinSnoc(w[..2], w[2], sep);
    assert w[..2] + [w[2]] == w[..3];
    JoinSnoc(w[..3], w[3], sep);
    assert w[..3] + [w[3]] == w[..4];
    JoinSnoc(w[..4], w[4], sep);
    assert w[..4] + [w[4]] == w[..5];
    JoinSnoc(w[..5], w[5], sep);
    assert w[..5] + [w[5]] == w[..6];
    JoinSnoc(w[..6], w[6], sep);
    assert w[..6] + [w[6]] == w;
  }

  lemma NoBlankInNumber(n: int)
    ensures ' ' !in IntToStr(n)
  {
    var s := IntToStr(n);
    if n >= 0 {
      assert forall i :: 0 <= i < |s| ==> IsDigitChar(s[i]);
    } else {
      assert forall i :: 1 <= i < |s| ==> s[i] == NatToStr(-n)[i - 1];
    }
  }
}
