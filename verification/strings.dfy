/**
 * The Python string built-ins the bot relies on, over `seq<char>` (code
 * points): `str.isspace`, `strip`, `lower`, `split`, `join`, `isdigit`,
 * `int(...)`, `str(int)`, `float(...)` on finite decimals, substring `in`,
 * and the code-point order used by Python string comparison and by SQLite's
 * BINARY collation on UTF-8 text.
 */
module Strings {
  import opened Base

  // ---------------------------------------------------------------------
  // Whitespace and strip()

  /** The characters Python's `str.isspace()` accepts. */
  predicate IsSpace(c: char) {
    var k := c as int;
    (9 <= k <= 13) || (28 <= k <= 32) || k == 0x85 || k == 0xA0 || k == 0x1680
    || (0x2000 <= k <= 0x200A) || k == 0x2028 || k == 0x2029 || k == 0x202F
    || k == 0x205F || k == 0x3000
  }

  /** `s.lstrip()` */
  function StripLeft(s: string): (r: string)
    ensures |r| <= |s| && r == s[|s| - |r|..]
    ensures r == [] || !IsSpace(r[0])
    ensures forall i :: 0 <= i < |s| - |r| ==> IsSpace(s[i])
  {
    if s != [] && IsSpace(s[0]) then StripLeft(s[1..]) else s
  }

  /** `s.rstrip()` */
  function StripRight(s: string): (r: string)
    ensures |r| <= |s| && r == s[..|r|]
    ensures r == [] || !IsSpace(r[|r| - 1])
    ensures forall i :: |r| <= i < |s| ==> IsSpace(s[i])
  {
    if s != [] && IsSpace(s[|s| - 1]) then StripRight(s[..|s| - 1]) else s
  }

  /** How many leading characters `s.lstrip()` removes. */
  function LeadingSpace(s: string): (n: nat)
    ensures n <= |s|
  {
    |s| - |StripLeft(s)|
  }

  /**
   * `s.strip()`: the longest infix of `s` that neither starts nor ends with
   * whitespace, everything cut away being whitespace.
   */
  function Strip(s: string): (r: string)
    ensures LeadingSpace(s) + |r| <= |s|
    ensures r == s[LeadingSpace(s)..LeadingSpace(s) + |r|]
    ensures forall j :: 0 <= j < LeadingSpace(s) ==> IsSpace(s[j])
    ensures forall j :: LeadingSpace(s) + |r| <= j < |s| ==> IsSpace(s[j])
    ensures r == [] || (!IsSpace(r[0]) && !IsSpace(r[|r| - 1]))
  {
    var l := StripLeft(s);
    var r := StripRight(l);
    assert r == l[..|r|];
    assert r == s[|s| - |l|..][..|r|];
    r
  }

  /** `s.strip()` is empty exactly when `s` is all whitespace. */
  lemma StripEmpty(s: string)
    ensures Strip(s) == [] <==> forall j :: 0 <= j < |s| ==> IsSpace(s[j])
  {
  }

  lemma StripIdempotent(s: string)
    ensures Strip(Strip(s)) == Strip(s)
  {
  }

  /** A string with no whitespace at either end is its own strip. */
  lemma StripOfTrimmed(s: string)
    requires s == [] || (!IsSpace(s[0]) && !IsSpace(s[|s| - 1]))
    ensures Strip(s) == s
  {
  }

  // ---------------------------------------------------------------------
  // lower()

  /** Latin-1 capitals À-Þ, without the multiplication sign. */
  predicate Latin1Capital(k: int) {
    0xC0 <= k <= 0xDE && k != 0xD7
  }

  /**
   * Capitals of the Cyrillic letter pairs in U+0460-U+04FF whose capital
   * has the even code (Ґ, Ғ, Қ, Ү, Һ, Ә, Ө and the others).
   */
  predicate EvenCyrillicCapital(k: int) {
    k % 2 == 0 && (0x460 <= k <= 0x480 || 0x48A <= k <= 0x4BE || 0x4D0 <= k <= 0x4FE)
  }

  /** The pairs Ӂ-ӎ, whose capital has the odd code. */
  predicate OddCyrillicCapital(k: int) {
    k % 2 == 1 && 0x4C1 <= k <= 0x4CD
  }

  /** The capitals `LowerChar` changes. */
  predicate Capital(c: char) {
    var k := c as int;
    'A' <= c <= 'Z' || Latin1Capital(k) || 0x400 <= k <= 0x42F
    || EvenCyrillicCapital(k) || OddCyrillicCapital(k) || k == 0x4C0
  }

  /**
   * Lower-casing of one character: Latin A-Z, the Latin-1 capitals, and
   * the Cyrillic capitals of U+0400-U+04FF.
   */
  function LowerChar(c: char): (d: char)
    ensures 'A' <= c <= 'Z' || Latin1Capital(c as int) ==> d as int == c as int + 32
    ensures 0x410 <= c as int <= 0x42F ==> d as int == c as int + 32
    ensures 0x400 <= c as int <= 0x40F ==> d as int == c as int + 80
    ensures EvenCyrillicCapital(c as int) || OddCyrillicCapital(c as int) ==> d as int == c as int + 1
    ensures c as int == 0x4C0 ==> d as int == 0x4CF
    ensures !Capital(c) ==> d == c
    ensures !Capital(d)
  {
    var k := c as int;
    if 'A' <= c <= 'Z' || Latin1Capital(k) then (k + 32) as char
    else if 0x410 <= k <= 0x42F then (k + 32) as char
    else if 0x400 <= k <= 0x40F then (k + 80) as char
    else if EvenCyrillicCapital(k) || OddCyrillicCapital(k) then (k + 1) as char
    else if k == 0x4C0 then 0x4CF as char
    else c
  }

  /** `s.lower()` */
  function Lower(s: string): (r: string)
    ensures |r| == |s| && forall i :: 0 <= i < |s| ==> r[i] == LowerChar(s[i])
  {
    seq(|s|, i requires 0 <= i < |s| => LowerChar(s[i]))
  }

  /** A Ukrainian and a Latin-1 capital fold like A-Z and А-Я do. */
  lemma LowerFoldsCapitals()
    ensures Lower("Ґанок") == "ґанок" && Lower("École") == "école"
  {
    assert Lower("Ґанок")[0] == 'ґ' && Lower("École")[0] == 'é';
  }

  lemma LowerIdempotent(s: string)
    ensures Lower(Lower(s)) == Lower(s)
  {
  }

  // ---------------------------------------------------------------------
  // split(sep) and sep.join(parts)

  /** `s.split(sep)` with a one-character separator: never empty. */
  function Split(s: string, sep: char): (parts: seq<string>)
    ensures |parts| >= 1
    ensures forall k :: 0 <= k < |parts| ==> sep !in parts[k]
  {
    if s == [] then [[]]
    else
      var rest := Split(s[1..], sep);
      if s[0] == sep then [[]] + rest
      else [[s[0]] + rest[0]] + rest[1..]
  }

  /** A run of characters none of which is whitespace. */
  predicate Word(w: string) {
    w != [] && forall k :: 0 <= k < |w| ==> !IsSpace(w[k])
  }

  /** `s.split()` with no argument: the maximal runs of non-whitespace, in order. */
  function Words(s: string): (r: seq<string>)
    ensures forall i :: 0 <= i < |r| ==> Word(r[i])
    ensures s != [] && !IsSpace(s[0]) ==> |r| > 0 && |r[0]| > 0 && r[0][0] == s[0]
  {
    if s == [] then []
    else if IsSpace(s[0]) then Words(s[1..])
    else
      var rest := Words(s[1..]);
      if |s| > 1 && !IsSpace(s[1]) then [[s[0]] + rest[0]] + rest[1..]
      else [[s[0]]] + rest
  }

  /** A word followed by whitespace or nothing is the first word. */
  lemma {:induction false} WordsOfWord(w: string, t: string)
    requires Word(w) && (t == [] || IsSpace(t[0]))
    ensures Words(w + t) == [w] + Words(t)
  {
    var s := w + t;
    assert s[1..] == w[1..] + t;
    if |w| == 1 {
      assert s[1..] == t && w == [s[0]];
    } else {
      WordsOfWord(w[1..], t);
      assert [s[0]] + w[1..] == w;
    }
  }

  /** Words joined by single spaces split back into the same words. */
  lemma {:induction false} WordsOfJoin(ws: seq<string>)
    requires forall i :: 0 <= i < |ws| ==> Word(ws[i])
    ensures Words(Join(ws, " ")) == ws
  {
    if |ws| == 1 {
      WordsOfWord(ws[0], []);
      assert ws[0] + [] == ws[0];
    } else if |ws| > 1 {
      var rest := " " + Join(ws[1..], " ");
      assert Join(ws, " ") == ws[0] + rest;
      WordsOfWord(ws[0], rest);
      assert rest[1..] == Join(ws[1..], " ");
      WordsOfJoin(ws[1..]);
    }
  }

  /** `sep.join(parts)` */
  function Join(parts: seq<string>, sep: string): (r: string)
  {
    if parts == [] then []
    else if |parts| == 1 then parts[0]
    else parts[0] + sep + Join(parts[1..], sep)
  }

  /** Joining one more part adds the separator and that part at the end. */
  lemma {:induction false} JoinSnoc(u: seq<string>, x: string, sep: string)
    requires u != []
    ensures Join(u + [x], sep) == Join(u, sep) + sep + x
  {
    if |u| == 1 {
      assert (u + [x])[1..] == [x];
    } else {
      assert (u + [x])[1..] == u[1..] + [x];
      JoinSnoc(u[1..], x, sep);
      var h := u[0] + sep;
      var j := Join(u[1..], sep);
      assert Join(u + [x], sep) == h + (j + sep + x);
      assert h + (j + sep + x) == (h + j) + sep + x;
    }
  }

  /** Joining the pieces of a split with the same separator restores the string. */
  lemma {:induction false} JoinSplit(s: string, sep: char)
    ensures Join(Split(s, sep), [sep]) == s
  {
    if s != [] {
      JoinSplit(s[1..], sep);
      var rest := Split(s[1..], sep);
      if s[0] != sep {
        if |rest| == 1 {
        } else {
          assert Join(rest, [sep]) == rest[0] + [sep] + Join(rest[1..], [sep]);
          assert Join([[s[0]] + rest[0]] + rest[1..], [sep])
              == [s[0]] + rest[0] + [sep] + Join(rest[1..], [sep]);
        }
      }
    }
  }

  /** Splitting a join of separator-free pieces gives the pieces back. */
  lemma {:induction false} SplitJoin(parts: seq<string>, sep: char)
    requires |parts| >= 1
    requires forall k :: 0 <= k < |parts| ==> sep !in parts[k]
    ensures Split(Join(parts, [sep]), sep) == parts
  {
    if |parts| == 1 {
      SplitNoSep(parts[0], sep);
    } else {
      SplitJoin(parts[1..], sep);
      SplitConcat(parts[0], Join(parts[1..], [sep]), sep);
    }
  }

  lemma {:induction false} SplitNoSep(s: string, sep: char)
    requires sep !in s
    ensures Split(s, sep) == [s]
  {
    if s != [] {
      SplitNoSep(s[1..], sep);
      assert [s[0]] + s[1..] == s;
    }
  }

  /** A separator-free head followed by a separator starts a new piece. */
  lemma {:induction false} SplitConcat(a: string, b: string, sep: char)
    requires sep !in a
    ensures Split(a + [sep] + b, sep) == [a] + Split(b, sep)
  {
    if a != [] {
      assert (a + [sep] + b)[1..] == a[1..] + [sep] + b;
      SplitConcat(a[1..], b, sep);
      assert [a[0]] + a[1..] == a;
    } else {
      assert (a + [sep] + b)[1..] == b;
    }
  }

  // ---------------------------------------------------------------------
  // isdigit(), int(), str(int)

  predicate IsDigitChar(c: char) { '0' <= c <= '9' }

  /** `s.isdigit()` restricted to ASCII digits: non-empty and all digits. */
  predicate IsDigits(s: string) {
    |s| > 0 && forall i :: 0 <= i < |s| ==> IsDigitChar(s[i])
  }

  function DigitValue(c: char): nat
    requires IsDigitChar(c)
  {
    (c as int) - ('0' as int)
  }

  function DigitChar(d: nat): (c: char)
    requires d < 10
    ensures IsDigitChar(c) && DigitValue(c) == d
  {
    ((d + '0' as int) as char)
  }

  /** The decimal value of a string of ASCII digits (0 for the empty string). */
  function DigitsValue(s: string): nat
    requires forall i :: 0 <= i < |s| ==> IsDigitChar(s[i])
  {
    if s == [] then 0
    else DigitsValue(s[..|s| - 1]) * 10 + DigitValue(s[|s| - 1])
  }

  /** `str(n)` for a non-negative integer: shortest decimal digits. */
  function NatToStr(n: nat): (s: string)
    ensures IsDigits(s)
    ensures |s| > 1 ==> s[0] != '0'
  {
    if n < 10 then [DigitChar(n)] else NatToStr(n / 10) + [DigitChar(n % 10)]
  }

  /** `str(n)` */
  function IntToStr(n: int): string {
    if n < 0 then "-" + NatToStr(-n) else NatToStr(n)
  }

  lemma {:induction false} DigitsOfNatToStr(n: nat)
    ensures DigitsValue(NatToStr(n)) == n
  {
    if n >= 10 {
      DigitsOfNatToStr(n / 10);
      var s := NatToStr(n);
      assert s[..|s| - 1] == NatToStr(n / 10);
    }
  }

  /** Canonical digit strings are exactly the images of NatToStr. */
  lemma {:induction false} NatToStrOfDigits(s: string)
    requires IsDigits(s) && (|s| > 1 ==> s[0] != '0')
    ensures NatToStr(DigitsValue(s)) == s
  {
    if |s| > 1 {
      var p := s[..|s| - 1];
      assert p[0] == s[0];
      NatToStrOfDigits(p);
      DigitsValueBound(p);
      assert DigitsValue(p) >= 1 by { LeadingNonZeroPositive(p); }
    }
  }

  lemma {:induction false} DigitsValueBound(s: string)
    requires forall i :: 0 <= i < |s| ==> IsDigitChar(s[i])
    ensures DigitsValue(s) < Pow10(|s|)
  {
    if s != [] {
      DigitsValueBound(s[..|s| - 1]);
    }
  }

  lemma {:induction false} LeadingNonZeroPositive(s: string)
    requires IsDigits(s) && s[0] != '0'
    ensures DigitsValue(s) >= 1
  {
    if |s| > 1 {
      LeadingNonZeroPositive(s[..|s| - 1]);
    }
  }

  function Pow10(n: nat): (p: nat)
    ensures p >= 1
  {
    if n == 0 then 1 else 10 * Pow10(n - 1)
  }

  /**
   * `int(s)`: surrounding whitespace is ignored, one optional sign, then
   * one or more ASCII digits; anything else is a ValueError (None).
   */
  function ParseInt(s: string): (r: Option<int>)
  {
    var t := Strip(s);
    if |t| > 0 && (t[0] == '-' || t[0] == '+') then
      if IsDigits(t[1..]) then
        var v: int := DigitsValue(t[1..]);
        Some(if t[0] == '-' then -v else v)
      else None
    else if IsDigits(t) then Some(DigitsValue(t))
    else None
  }

  /**
   * What `int()` makes of each string of a list: its value, or None for a
   * ValueError. Scans that read integers out of a command's arguments
   * are stated over such a sequence, so their properties hold for any
   * reading.
   */
  function Ints(ss: seq<string>): (nums: seq<Option<int>>)
    ensures |nums| == |ss|
  {
    if ss == [] then [] else [ParseInt(ss[0])] + Ints(ss[1..])
  }

  lemma {:induction false} IntsAt(ss: seq<string>, k: nat)
    requires k < |ss|
    ensures Ints(ss)[k] == ParseInt(ss[k])
  {
    if k > 0 {
      IntsAt(ss[1..], k - 1);
    }
  }

  /** A list entry written by `str(n)` reads back as n. */
  lemma IntsAtIntToStr(ss: seq<string>, k: nat, n: int)
    requires k < |ss| && ss[k] == IntToStr(n)
    ensures Ints(ss)[k] == Some(n)
  {
    IntsAt(ss, k);
    ParseIntOfIntToStr(n);
  }

  /** `int(str(n)) == n` */
  lemma ParseIntOfIntToStr(n: int)
    ensures ParseInt(IntToStr(n)) == Some(n)
  {
    if n < 0 {
      ParseIntOfNegative(-n);
      assert IntToStr(n) == "-" + NatToStr(-n);
    } else {
      DigitsOfNatToStr(n);
      ParseIntOfDigits(NatToStr(n));
    }
  }

  /** `int('-' + str(m)) == -m` */
  lemma ParseIntOfNegative(m: nat)
    ensures ParseInt("-" + NatToStr(m)) == Some(-(m as int))
  {
    var d := NatToStr(m);
    assert IsDigits(d);
    ParseIntOfSignedDigits(d);
    DigitsOfNatToStr(m);
  }

  /** A minus sign before a digit string negates its value. */
  lemma ParseIntOfSignedDigits(d: string)
    requires IsDigits(d)
    ensures ParseInt("-" + d) == Some(-(DigitsValue(d) as int))
  {
    var s := "-" + d;
    assert s[1..] == d && s[|s| - 1] == d[|d| - 1];
    StripOfTrimmed(s);
  }

  /** `lstrip` keeps a string that starts with a character that is not whitespace. */
  lemma StripLeftKeeps(s: string)
    requires s != [] && !IsSpace(s[0])
    ensures StripLeft(s) == s
  {
  }

  /** `rstrip` removes one final newline after a character that is not whitespace. */
  lemma StripRightNewline(d: string)
    requires d != [] && !IsSpace(d[|d| - 1])
    ensures StripRight(d + "\n") == d
  {
    var s := d + "\n";
    assert s[..|s| - 1] == d;
  }

  /** `int()` looks only at the stripped text. */
  lemma ParseIntOfSameStrip(s: string, t: string)
    requires Strip(s) == Strip(t)
    ensures ParseInt(s) == ParseInt(t)
  {
  }

  lemma ParseIntOfDigits(s: string)
    requires IsDigits(s)
    ensures ParseInt(s) == Some(DigitsValue(s))
  {
    StripOfTrimmed(s);
  }

  // ---------------------------------------------------------------------
  // float() on finite decimals

  /** `v / 10^k`, one division by ten at a time. */
  function ShiftDown(v: real, k: nat): real {
    if k == 0 then v else ShiftDown(v, k - 1) / 10.0
  }

  /** `v * 10^e` for an exponent of either sign, one factor of ten at a time. */
  function Scale10(v: real, e: int): real
    decreases if e < 0 then -e else e
  {
    if e == 0 then v
    else if e > 0 then Scale10(v, e - 1) * 10.0
    else Scale10(v, e + 1) / 10.0
  }

  /** Splits `s` at the first occurrence of `c`, if any. */
  function SplitFirst(s: string, c: char): (r: Option<(string, string)>)
    ensures r.None? <==> c !in s
    ensures r.Some? ==> c !in r.value.0 && s == r.value.0 + [c] + r.value.1
  {
    if s == [] then None
    else if s[0] == c then Some(([], s[1..]))
    else match SplitFirst(s[1..], c)
      case None => None
      case Some(p) => Some(([s[0]] + p.0, p.1))
  }

  /** SplitFirst cuts at the first occurrence of the separator. */
  lemma {:induction false} SplitFirstAt(s: string, c: char, i: nat)
    requires i < |s| && s[i] == c && c !in s[..i]
    ensures SplitFirst(s, c) == Some((s[..i], s[i + 1..]))
  {
    if i > 0 {
      assert s[1..][..i - 1] == s[..i][1..];
      SplitFirstAt(s[1..], c, i - 1);
      assert [s[0]] + s[1..][..i - 1] == s[..i];
    }
  }

  function AllDigits(s: string): bool {
    forall i :: 0 <= i < |s| ==> IsDigitChar(s[i])
  }

  /** An unsigned mantissa: `digits`, `digits.`, `.digits` or `digits.digits`. */
  function ParseMantissa(m: string): (r: Option<real>)
  {
    match SplitFirst(m, '.')
    case None => if IsDigits(m) then Some(DigitsValue(m) as real) else None
    case Some((a, b)) =>
      if AllDigits(a) && AllDigits(b) && |a| + |b| > 0 then
        Some(DigitsValue(a) as real + ShiftDown(DigitsValue(b) as real, |b|))
      else None
  }

  /** An exponent after `e`/`E`: an optional sign and digits. */
  function ParseExponent(x: string): (r: Option<int>)
  {
    if |x| > 0 && (x[0] == '-' || x[0] == '+') then
      if IsDigits(x[1..]) then
        var v: int := DigitsValue(x[1..]);
        Some(if x[0] == '-' then -v else v)
      else None
    else if IsDigits(x) then Some(DigitsValue(x))
    else None
  }

  function ExponentMark(s: string): (r: Option<(string, string)>)
  {
    match SplitFirst(s, 'e')
    case Some(p) => if 'E' in p.0 then SplitFirst(s, 'E') else Some(p)
    case None => SplitFirst(s, 'E')
  }

  function ParseUnsignedReal(u: string): Option<real> {
    match ExponentMark(u)
    case None => ParseMantissa(u)
    case Some((m, x)) =>
      var v, e := ParseMantissa(m), ParseExponent(x);
      if v.None? || e.None? then None else Some(Scale10(v.value, e.value))
  }

  /**
   * `float(s)` on finite decimal notation: surrounding whitespace, one
   * optional sign, a mantissa and an optional exponent. The value is the
   * exact real the text denotes, not rounded to binary64.
   */
  function ParseReal(s: string): (r: Option<real>)
  {
    var t := Strip(s);
    if |t| > 0 && (t[0] == '-' || t[0] == '+') then
      match ParseUnsignedReal(t[1..])
      case None => None
      case Some(v) => Some(if t[0] == '-' then -v else v)
    else ParseUnsignedReal(t)
  }

  lemma {:induction false} NoSepInDigits(s: string, c: char)
    requires AllDigits(s) && !IsDigitChar(c)
    ensures c !in s
  {
  }

  /**
   * Read as an exact real, `str(n)` is n for every integer (Python's
   * binary64 `float(str(n))` agrees for abs(n) <= 2^53 only).
   */
  lemma ParseRealOfIntToStr(n: int)
    ensures ParseReal(IntToStr(n)) == Some(n as real)
  {
    var s := IntToStr(n);
    StripOfTrimmed(s);
    var d := if n < 0 then s[1..] else s;
    assert d == NatToStr(if n < 0 then -n else n);
    DigitsOfNatToStr(if n < 0 then -n else n);
    NoSepInDigits(d, '.');
    NoSepInDigits(d, 'e');
    NoSepInDigits(d, 'E');
  }

  // ---------------------------------------------------------------------
  // Substring test and code-point order

  predicate IsPrefix(p: string, s: string) {
    |p| <= |s| && s[..|p|] == p
  }

  /** `sub in s` */
  predicate Contains(s: string, sub: string)
  {
    IsPrefix(sub, s) || (s != [] && Contains(s[1..], sub))
  }

  /** `sub in s` holds exactly when `sub` occurs at some position of `s`. */
  lemma {:induction false} ContainsAt(s: string, sub: string, i: nat)
    requires i + |sub| <= |s| && s[i..i + |sub|] == sub
    ensures Contains(s, sub)
  {
    if i > 0 {
      assert s[1..][i - 1..i - 1 + |sub|] == s[i..i + |sub|];
      ContainsAt(s[1..], sub, i - 1);
    }
  }

  /**
   * `a <= b` on Python strings: lexicographic by code point, a proper
   * prefix sorting first. SQLite's BINARY collation orders UTF-8 text the
   * same way.
   */
  predicate StrLe(a: string, b: string) {
    a == [] || (b != [] && (a[0] < b[0] || (a[0] == b[0] && StrLe(a[1..], b[1..]))))
  }

  lemma {:induction false} StrLeRefl(a: string)
    ensures StrLe(a, a)
  {
    if a != [] { StrLeRefl(a[1..]); }
  }

  lemma {:induction false} StrLeTotal(a: string, b: string)
    ensures StrLe(a, b) || StrLe(b, a)
  {
    if a != [] && b != [] && a[0] == b[0] { StrLeTotal(a[1..], b[1..]); }
  }

  lemma {:induction false} StrLeTrans(a: string, b: string, c: string)
    requires StrLe(a, b) && StrLe(b, c)
    ensures StrLe(a, c)
  {
    if a != [] && a[0] == b[0] && b[0] == c[0] { StrLeTrans(a[1..], b[1..], c[1..]); }
  }

  lemma {:induction false} StrLeAntisym(a: string, b: string)
    requires StrLe(a, b) && StrLe(b, a)
    ensures a == b
  {
    if a != [] && b != [] { StrLeAntisym(a[1..], b[1..]); }
  }

  /** Two-digit zero-padded rendering of 0..99 (`"%02d"`). */
  function Pad2(n: nat): (s: string)
    requires n < 100
    ensures |s| == 2 && IsDigitChar(s[0]) && IsDigitChar(s[1])
    ensures DigitValue(s[0]) * 10 + DigitValue(s[1]) == n
  {
    [DigitChar(n / 10), DigitChar(n % 10)]
  }

  lemma {:induction false} DigitsValueConcat(a: string, b: string)
    requires AllDigits(a) && AllDigits(b)
    ensures AllDigits(a + b)
    ensures DigitsValue(a + b) == DigitsValue(a) * Pow10(|b|) + DigitsValue(b)
  {
    assert AllDigits(a + b) by {
      forall i | 0 <= i < |a + b| ensures IsDigitChar((a + b)[i]) {
        if i < |a| { assert (a + b)[i] == a[i]; } else { assert (a + b)[i] == b[i - |a|]; }
      }
    }
    if b == [] {
      assert a + b == a;
    } else {
      var b' := b[..|b| - 1];
      var d := DigitValue(b[|b| - 1]);
      var ab := a + b;
      assert ab[..|ab| - 1] == a + b';
      assert ab[|ab| - 1] == b[|b| - 1];
      DigitsValueConcat(a, b');
      var x, p, y := DigitsValue(a), Pow10(|b'|), DigitsValue(b');
      assert DigitsValue(ab) == DigitsValue(a + b') * 10 + d;
      assert DigitsValue(b) == y * 10 + d;
      assert Pow10(|b|) == p * 10;
      Distribute(x, p, y, d);
    }
  }

  lemma Distribute(x: int, p: int, y: int, d: int)
    ensures (x * p + y) * 10 + d == x * (p * 10) + (y * 10 + d)
  {
  }

  lemma DigitsValueTwo(s: string)
    requires |s| == 2 && AllDigits(s)
    ensures DigitsValue(s) == DigitValue(s[0]) * 10 + DigitValue(s[1])
  {
    assert s[..1][..0] == [];
    assert DigitsValue(s[..1]) == DigitValue(s[0]);
  }

  lemma DigitValueInjective(c: char, d: char)
    requires IsDigitChar(c) && IsDigitChar(d) && DigitValue(c) == DigitValue(d)
    ensures c == d
  {
  }

  lemma DigitsValuePad2(n: nat)
    requires n < 100
    ensures DigitsValue(Pad2(n)) == n
  {
    DigitsValueTwo(Pad2(n));
  }

  /** Two digits are the zero-padded rendering of their value. */
  lemma Pad2OfDigits(s: string)
    requires |s| == 2 && IsDigits(s)
    ensures DigitsValue(s) < 100 && Pad2(DigitsValue(s)) == s
  {
    DigitsValueTwo(s);
    var v := DigitsValue(s);
    var t := Pad2(v);
    assert DigitValue(t[0]) * 10 + DigitValue(t[1]) == v;
    DigitValueInjective(t[0], s[0]);
    DigitValueInjective(t[1], s[1]);
  }

  /** The value of two ASCII digits. */
  function TwoDigits(a: char, b: char): nat
    requires IsDigitChar(a) && IsDigitChar(b)
  {
    DigitValue(a) * 10 + DigitValue(b)
  }
}
