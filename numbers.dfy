/** Decimal text <-> numbers: the parts of JavaScript's `Number(text)`, `parseInt(text, 10)`
  * and `String(number)` the engine relies on, over exact reals. */
module Numbers {
  import opened Wrappers
  import opened Text

  function DigitValue(c: char): (d: nat)
    requires IsDigit(c)
    ensures d < 10
  {
    c as int - '0' as int
  }

  function DigitChar(d: nat): (c: char)
    requires d < 10
    ensures IsDigit(c) && DigitValue(c) == d
  {
    ('0' as int + d) as char
  }

  predicate AllDigits(s: string) { forall i :: 0 <= i < |s| ==> IsDigit(s[i]) }

  /** The value of a digit string, most significant digit first. */
  function DigitsValue(s: string): nat
    requires AllDigits(s)
  {
    if s == [] then 0 else DigitsValue(s[..|s| - 1]) * 10 + DigitValue(s[|s| - 1])
  }

  /** The shortest decimal spelling of a natural number. */
  function NatToStr(n: nat): (s: string)
    ensures s != [] && AllDigits(s)
  {
    if n < 10 then [DigitChar(n)] else NatToStr(n / 10) + [DigitChar(n % 10)]
  }

  lemma {:induction false} NatToStrRoundTrip(n: nat)
    ensures DigitsValue(NatToStr(n)) == n
  {
    if n >= 10 {
      var s := NatToStr(n);
      assert s[..|s| - 1] == NatToStr(n / 10);
      NatToStrRoundTrip(n / 10);
    }
  }

  function IntToStr(i: int): (s: string)
    ensures s != []
  {
    if i < 0 then "-" + NatToStr(-i) else NatToStr(i)
  }

  /** Index just past the run of digits that starts at `i`. */
  function DigitRunEnd(s: string, i: nat): (j: nat)
    requires i <= |s|
    ensures i <= j <= |s| && AllDigits(s[i..j])
    ensures j == |s| || !IsDigit(s[j])
    decreases |s| - i
  {
    if i < |s| && IsDigit(s[i]) then DigitRunEnd(s, i + 1) else i
  }

  lemma DigitRunEndOfDigits(s: string, i: nat)
    requires i <= |s| && AllDigits(s[i..])
    ensures DigitRunEnd(s, i) == |s|
    decreases |s| - i
  {
    if i < |s| {
      assert s[i] == s[i..][0];
      assert s[i + 1..] == s[i..][1..];
      DigitRunEndOfDigits(s, i + 1);
    }
  }

  /** `Math.trunc`: the integer part, rounding toward zero. */
  function Trunc(r: real): (t: int)
    ensures r >= 0.0 ==> 0 <= t && t as real <= r < t as real + 1.0
    ensures r < 0.0 ==> t <= 0 && t as real - 1.0 < r <= t as real
  {
    if r >= 0.0 then r.Floor else -((-r).Floor)
  }

  /** `parseInt(s, 10)`: leading white space, an optional sign and the longest run of
    * digits; `None` (NaN) when there is no digit. */
  function ParseIntPrefix(s: string): Option<int>
  {
    var t := TrimStart(s);
    var neg := t != [] && t[0] == '-';
    var k: nat := if t != [] && (t[0] == '-' || t[0] == '+') then 1 else 0;
    var e := DigitRunEnd(t, k);
    if e == k then None
    else
      var v: int := DigitsValue(t[k..e]);
      Some(if neg then -v else v)
  }

  lemma ParseIntPrefixOfIntToStr(i: int)
    ensures ParseIntPrefix(IntToStr(i)) == Some(i)
  {
    var s := IntToStr(i);
    var n: nat := if i < 0 then -i else i;
    var body := NatToStr(n);
    var k: nat := if i < 0 then 1 else 0;
    assert s[k..] == body;
    assert !IsSpace(s[0]) by {
      if i < 0 { assert s[0] == '-'; } else { assert s[0] == body[0]; }
    }
    TrimStartFixes(s);
    DigitRunEndOfDigits(s, k);
    assert s[k..|s|] == body;
    NatToStrRoundTrip(n);
  }

  /** Distinct integers have distinct spellings. */
  lemma IntToStrInjective(a: int, b: int)
    requires IntToStr(a) == IntToStr(b)
    ensures a == b
  {
    ParseIntPrefixOfIntToStr(a);
    ParseIntPrefixOfIntToStr(b);
  }

  /** An optional exponent part `[eE][+-]?digits` running to the end of `s`, from `j`. */
  function ExponentPart(s: string, j: nat): Option<int>
    requires j <= |s|
  {
    if j == |s| then Some(0)
    else if s[j] != 'e' && s[j] != 'E' then None
    else
      var neg := j + 1 < |s| && s[j + 1] == '-';
      var k: nat := if j + 1 < |s| && (s[j + 1] == '-' || s[j + 1] == '+') then j + 2 else j + 1;
      var e := DigitRunEnd(s, k);
      if e == k || e != |s| then None
      else
        var v: int := DigitsValue(s[k..e]);
        Some(if neg then -v else v)
  }

  /** `m × 10^x`, one factor of ten at a time. */
  function Scale(m: real, x: int): (r: real)
    ensures m >= 0.0 ==> r >= 0.0
    decreases if x >= 0 then x else -x
  {
    if x == 0 then m
    else if x > 0 then Scale(m, x - 1) * 10.0
    else Scale(m, x + 1) / 10.0
  }

  /** An unsigned decimal literal `digits [. digits] [exponent]` with at least one digit. */
  function UnsignedDecimal(s: string): Option<real>
  {
    var d1 := DigitRunEnd(s, 0);
    var hasDot := d1 < |s| && s[d1] == '.';
    var d2 := if hasDot then DigitRunEnd(s, d1 + 1) else d1;
    var fracDigits := if hasDot then s[d1 + 1..d2] else [];
    if d1 == 0 && fracDigits == [] then None
    else
      var m := DigitsValue(s[..d1]) as real + Scale(DigitsValue(fracDigits) as real, -|fracDigits|);
      match ExponentPart(s, d2)
      case None => None
      case Some(x) => Some(Scale(m, x))
  }

  /** A decimal literal with an optional sign in front; the empty text is 0. */
  function SignedDecimal(t: string): Option<real>
  {
    if t == [] then Some(0.0)
    else
      var k := if t[0] == '-' || t[0] == '+' then 1 else 0;
      match UnsignedDecimal(t[k..])
      case None => None
      case Some(v) => Some(if t[0] == '-' then -v else v)
  }

  /** `Number(text)` for decimal text: white space is trimmed, the empty string is 0,
    * and anything that is not a decimal literal is NaN (`None`). */
  function StrToNumber(s: string): Option<real>
  {
    SignedDecimal(Trim(s))
  }

  /** Up to `k` digits of the fraction `f` (0 <= f < 1), stopping once it is exhausted. */
  function FractionDigits(f: real, k: nat): string
    requires 0.0 <= f < 1.0
    decreases k
  {
    if k == 0 || f == 0.0 then []
    else
      var d := (f * 10.0).Floor;
      [DigitChar(d)] + FractionDigits(f * 10.0 - d as real, k - 1)
  }

  /** `String(number)`: an optional `-`, the integer part, and the fraction when there is one. */
  function NumToStr(r: real): (s: string)
    ensures s != []
  {
    var a := if r < 0.0 then -r else r;
    var f := a - a.Floor as real;
    var body := NatToStr(a.Floor) + (if f == 0.0 then [] else "." + FractionDigits(f, 20));
    if r < 0.0 then "-" + body else body
  }

  lemma NumToStrOfInt(i: int)
    ensures NumToStr(i as real) == IntToStr(i)
  {
    if i < 0 {
      assert (-(i as real)).Floor == -i;
    } else {
      assert (i as real).Floor == i;
    }
  }

  /** Printing an integer and reading it back gives the integer. */
  lemma IntRoundTrip(i: int)
    ensures StrToNumber(NumToStr(i as real)) == Some(i as real)
  {
    NumToStrOfInt(i);
    var n: nat := if i < 0 then -i else i;
    var body := NatToStr(n);
    NatToStrRoundTrip(n);
    DigitsRead(body);
    if i < 0 {
      assert IntToStr(i) == "-" + body;
    } else {
      assert IntToStr(i) == body;
    }
  }

  /** A run of digits, with or without a minus sign in front, reads as its value. */
  lemma DigitsRead(body: string)
    requires body != [] && AllDigits(body)
    ensures StrToNumber(body) == Some(DigitsValue(body) as real)
    ensures StrToNumber("-" + body) == Some(-(DigitsValue(body) as real))
  {
    PlainDigitsRead(body);
    NegatedDigitsRead(body);
  }

  lemma PlainDigitsRead(body: string)
    requires body != [] && AllDigits(body)
    ensures StrToNumber(body) == Some(DigitsValue(body) as real)
  {
    assert IsDigit(body[0]) && IsDigit(body[|body| - 1]);
    TrimFixes(body);
    UnsignedOfDigits(body);
    assert body[0..] == body;
  }

  lemma NegatedDigitsRead(body: string)
    requires body != [] && AllDigits(body)
    ensures StrToNumber("-" + body) == Some(-(DigitsValue(body) as real))
  {
    var neg := "-" + body;
    assert IsDigit(body[|body| - 1]) && neg[|neg| - 1] == body[|body| - 1];
    TrimFixes(neg);
    NegatedSigned(body);
  }

  lemma NegatedSigned(body: string)
    requires body != [] && AllDigits(body)
    ensures SignedDecimal("-" + body) == Some(-(DigitsValue(body) as real))
  {
    var t := "-" + body;
    assert t != [] && t[0] == '-' && t[1..] == body;
    UnsignedOfDigits(body);
  }

  lemma UnsignedOfDigits(body: string)
    requires body != [] && AllDigits(body)
    ensures UnsignedDecimal(body) == Some(DigitsValue(body) as real)
  {
    DigitRunEndOfDigits(body, 0);
    assert body[..|body|] == body;
  }
}
