/**
 * Python's `int(s)` (base 10) and `float(s)` on a string that holds no
 * whitespace, and the decimal rendering `str(n)` of an integer.
 *
 * Both conversions accept an optional sign and runs of ASCII digits in
 * which single underscores may stand between two digits (`1_000`).
 * `float` also accepts a decimal point, an exponent, and the words `inf`,
 * `infinity` and `nan` in any mix of case. A finite float is kept as the
 * exact rational the literal denotes.
 */
module Numeric {
  import opened Wrappers

  /** What `float()` returns: a finite value, a signed infinity, or not-a-number. */
  datatype Float = Finite(r: real) | Infinity(negative: bool) | NaN

  predicate IsDigit(c: char) {
    '0' <= c <= '9'
  }

  function DigitValue(c: char): (d: nat)
    requires IsDigit(c)
    ensures d < 10
  {
    (c as int) - ('0' as int)
  }

  function DigitChar(d: nat): (c: char)
    requires d < 10
    ensures IsDigit(c) && DigitValue(c) == d
  {
    ('0' as int + d) as char
  }

  /**
   * A digit part of a Python numeric literal: digits, with single
   * underscores allowed only between two digits.
   */
  predicate IsDigitPart(s: string) {
    && |s| > 0
    && IsDigit(s[0])
    && IsDigit(s[|s| - 1])
    && (forall i :: 0 <= i < |s| ==> IsDigit(s[i]) || s[i] == '_')
    && (forall i :: 0 <= i < |s| - 1 ==> s[i] == '_' ==> IsDigit(s[i + 1]))
  }

  /** The number the digits of `s` spell, underscores skipped. */
  function DigitsValue(s: string): nat {
    if s == [] then 0
    else if IsDigit(s[|s| - 1]) then 10 * DigitsValue(s[..|s| - 1]) + DigitValue(s[|s| - 1])
    else DigitsValue(s[..|s| - 1])
  }

  /** How many digits `s` holds. */
  function DigitCount(s: string): nat {
    if s == [] then 0
    else if IsDigit(s[|s| - 1]) then DigitCount(s[..|s| - 1]) + 1
    else DigitCount(s[..|s| - 1])
  }

  /** A leading `+` or `-` split off: whether it was `-`, and what follows. */
  function SplitSign(t: string): (string, bool) {
    if |t| > 0 && (t[0] == '+' || t[0] == '-') then (t[1..], t[0] == '-')
    else (t, false)
  }

  function Signed(neg: bool, x: int): int {
    if neg then -x else x
  }

  /** `int(t)`; None where Python raises ValueError. */
  function ParseInt(t: string): Option<int> {
    var (body, neg) := SplitSign(t);
    if IsDigitPart(body) then Some(Signed(neg, DigitsValue(body))) else None
  }

  /** `str(n)` for n >= 0: the shortest decimal rendering. */
  function NatToString(n: nat): (s: string)
    ensures |s| > 0
    ensures forall i :: 0 <= i < |s| ==> IsDigit(s[i])
  {
    if n < 10 then [DigitChar(n)] else NatToString(n / 10) + [DigitChar(n % 10)]
  }

  /** `str(n)`. */
  function IntToString(n: int): (s: string)
    ensures |s| > 0
    ensures s[0] == '-' <==> n < 0
    ensures forall i :: 0 < i < |s| ==> IsDigit(s[i])
  {
    if n < 0 then "-" + NatToString(-n) else NatToString(n)
  }

  // ----- float -----

  /** ASCII upper-case letters lowered; `float()` matches special words case-insensitively. */
  function LowerChar(c: char): char {
    if 'A' <= c <= 'Z' then (c as int + 32) as char else c
  }

  function Lower(s: string): (r: string)
    ensures |r| == |s|
    ensures forall i :: 0 <= i < |s| ==> r[i] == LowerChar(s[i])
  {
    if s == [] then [] else [LowerChar(s[0])] + Lower(s[1..])
  }

  /** The first index of `c` in `s`, or |s| when it does not occur. */
  function IndexOf(s: string, c: char): (k: nat)
    ensures k <= |s|
    ensures k < |s| ==> s[k] == c
    ensures forall i :: 0 <= i < k ==> s[i] != c
  {
    if s == [] then 0 else if s[0] == c then 0 else 1 + IndexOf(s[1..], c)
  }

  /** The first index of an exponent mark `e` or `E`, or |s|. */
  function IndexOfExponent(s: string): (k: nat)
    ensures k <= |s|
    ensures k < |s| ==> s[k] == 'e' || s[k] == 'E'
    ensures forall i :: 0 <= i < k ==> s[i] != 'e' && s[i] != 'E'
  {
    if s == [] then 0 else if s[0] == 'e' || s[0] == 'E' then 0 else 1 + IndexOfExponent(s[1..])
  }

  function Pow10Nat(n: nat): (p: real)
    ensures p >= 1.0
  {
    if n == 0 then 1.0 else 10.0 * Pow10Nat(n - 1)
  }

  /** 10 to the power e, for any integer e. */
  function Pow10(e: int): (p: real)
    ensures p > 0.0
  {
    if e >= 0 then Pow10Nat(e) else 1.0 / Pow10Nat(-e)
  }

  /**
   * The mantissa of a decimal literal: digits, optionally with one point;
   * at least one digit on some side of the point.
   */
  function ParseMantissa(m: string): Option<real> {
    var p := IndexOf(m, '.');
    var whole := m[..p];
    if p == |m| then
      if IsDigitPart(whole) then Some(DigitsValue(whole) as real) else None
    else
      var frac := m[p + 1..];
      if (whole == [] || IsDigitPart(whole)) && (frac == [] || IsDigitPart(frac)) && (whole != [] || frac != [])
      then Some(PointValue(whole, frac))
      else None
  }

  /** The value of `whole.frac`: the whole part plus the fraction's digits over a power of ten. */
  function PointValue(whole: string, frac: string): real {
    DigitsValue(whole) as real + DigitsValue(frac) as real / Pow10Nat(DigitCount(frac))
  }

  /** An unsigned decimal literal, with an optional exponent: `e` or `E` and a signed integer. */
  function ParseDecimal(body: string): Option<real> {
    var k := IndexOfExponent(body);
    var mantissa := ParseMantissa(body[..k]);
    var exponent := if k == |body| then Some(0) else ParseInt(body[k + 1..]);
    if mantissa.Some? && exponent.Some? then Some(Scale(mantissa.value, exponent.value)) else None
  }

  /** m times ten to the e. */
  function Scale(m: real, e: int): real {
    m * Pow10(e)
  }

  /** `float(t)`; None where Python raises ValueError. */
  function ParseFloat(t: string): Option<Float> {
    var (body, neg) := SplitSign(t);
    var word := Lower(body);
    if word == "inf" || word == "infinity" then Some(Infinity(neg))
    else if word == "nan" then Some(NaN)
    else
      match ParseDecimal(body)
      case None => None
      case Some(v) => Some(Finite(if neg then -v else v))
  }

  // ----- properties -----

  /** A string of plain digits is a digit part. */
  lemma AllDigitsIsDigitPart(s: string)
    requires |s| > 0 && forall i :: 0 <= i < |s| ==> IsDigit(s[i])
    ensures IsDigitPart(s)
  {
  }

  /** The rendering of n spells n. */
  lemma {:induction false} NatToStringValue(n: nat)
    ensures DigitsValue(NatToString(n)) == n
  {
    var s := NatToString(n);
    if n >= 10 {
      NatToStringValue(n / 10);
      assert s[..|s| - 1] == NatToString(n / 10);
    } else {
      assert s[..0] == [];
    }
  }

  /** A string and a one-character mark and another string, taken apart again. */
  lemma AroundMark(a: string, mark: string, b: string)
    requires |mark| == 1
    ensures (a + mark + b)[..|a|] == a
    ensures (a + mark + b)[|a|] == mark[0]
    ensures (a + mark + b)[|a| + 1..] == b
  {
  }

  /** What `int()` takes apart: the sign, and a digit part after it. */
  lemma ParseIntParts(t: string, n: int)
    requires ParseInt(t) == Some(n)
    ensures IsDigitPart(SplitSign(t).0)
    ensures n == Signed(SplitSign(t).1, DigitsValue(SplitSign(t).0))
  {
  }

  /** `int(str(n)) == n` for every integer n. */
  lemma IntRoundTrip(n: int)
    ensures ParseInt(IntToString(n)) == Some(n)
  {
    var m := if n < 0 then -n else n;
    var digits := NatToString(m);
    NatToStringValue(m);
    AllDigitsIsDigitPart(digits);
    if n < 0 {
      assert ("-" + digits)[1..] == digits;
    }
  }

  /** `str(n)` has no leading zero, except for 0 itself: it is the shortest rendering. */
  lemma {:induction false} NatNoLeadingZero(n: nat)
    ensures NatToString(n)[0] != '0' || n == 0
    decreases n
  {
    if n >= 10 {
      NatNoLeadingZero(n / 10);
      assert NatToString(n)[0] == NatToString(n / 10)[0];
    }
  }

  /** The digits of `str(n)`, after any minus sign, have no leading zero unless n is 0. */
  lemma IntNoLeadingZero(n: int)
    ensures var s := IntToString(n); var digits := if n < 0 then s[1..] else s;
      digits != [] && (digits[0] != '0' || n == 0)
  {
    var m := if n < 0 then -n else n;
    NatNoLeadingZero(m);
    if n < 0 {
      assert IntToString(n)[1..] == NatToString(m);
    }
  }

  /** `int()` refuses every token that holds a decimal point. */
  lemma PointIsNoInt(t: string, k: nat)
    requires k < |t| && t[k] == '.'
    ensures ParseInt(t) == None
  {
    var body := SplitSign(t).0;
    var j := if body == t then k else k - 1;
    assert body[j] == '.';
  }

  /** Distinct numbers have distinct renderings. */
  lemma IntToStringInjective(a: int, b: int)
    requires IntToString(a) == IntToString(b)
    ensures a == b
  {
    IntRoundTrip(a);
    IntRoundTrip(b);
  }

  /** A digit part holds neither a point nor an exponent mark. */
  lemma DigitPartHasNoMarks(s: string)
    requires IsDigitPart(s)
    ensures IndexOf(s, '.') == |s|
    ensures IndexOfExponent(s) == |s|
  {
  }

  /** A string that starts with a digit is none of the special words `inf`, `infinity`, `nan`. */
  lemma DigitFirstIsNoWord(s: string)
    requires |s| > 0 && IsDigit(s[0])
    ensures Lower(s) != "inf" && Lower(s) != "infinity" && Lower(s) != "nan"
  {
    assert Lower(s)[0] == s[0];
  }

  /** A digit part is a mantissa without a point. */
  lemma MantissaOfDigits(s: string)
    requires IsDigitPart(s)
    ensures ParseMantissa(s) == Some(DigitsValue(s) as real)
  {
    DigitPartHasNoMarks(s);
    assert s[..|s|] == s;
  }

  /** A literal without an exponent mark is its mantissa. */
  lemma DecimalWithoutExponent(body: string, v: real)
    requires IndexOfExponent(body) == |body|
    requires ParseMantissa(body) == Some(v)
    ensures ParseDecimal(body) == Some(v)
  {
    assert body[..|body|] == body;
    ScaleZero(v);
  }

  lemma ScaleZero(v: real)
    ensures Scale(v, 0) == v
  {
    assert Pow10(0) == 1.0;
  }

  /** A literal with an exponent mark is its mantissa scaled by its exponent. */
  lemma DecimalWithMark(body: string, k: nat, v: real, e: int)
    requires IndexOfExponent(body) == k < |body|
    requires ParseMantissa(body[..k]) == Some(v)
    requires ParseInt(body[k + 1..]) == Some(e)
    ensures ParseDecimal(body) == Some(Scale(v, e))
  {
  }

  /** A signed decimal literal that is not a special word denotes its signed value. */
  lemma FloatOfDecimal(t: string, body: string, neg: bool, v: real)
    requires SplitSign(t) == (body, neg)
    requires Lower(body) != "inf" && Lower(body) != "infinity" && Lower(body) != "nan"
    requires ParseDecimal(body) == Some(v)
    ensures ParseFloat(t) == Some(Finite(if neg then -v else v))
  {
  }

  /** Whatever `int()` accepts, `float()` accepts with the same value. */
  lemma IntIsFloat(t: string, n: int)
    requires ParseInt(t) == Some(n)
    ensures ParseFloat(t) == Some(Finite(n as real))
  {
    ParseIntParts(t, n);
    var body, neg := SplitSign(t).0, SplitSign(t).1;
    var v := DigitsValue(body) as real;
    DigitPartHasNoMarks(body);
    MantissaOfDigits(body);
    DecimalWithoutExponent(body, v);
    DigitFirstIsNoWord(body);
    FloatOfDecimal(t, body, neg, v);
  }

  lemma IndexOfExponentAfter(a: string, b: string)
    requires IndexOfExponent(a) == |a|
    requires b != [] && b[0] == 'e'
    ensures IndexOfExponent(a + b) == |a|
  {
    assert (a + b)[|a|] == 'e';
    assert forall i :: 0 <= i < |a| ==> (a + b)[i] == a[i];
  }

  /** Digits, an `e` and an integer denote the digits' value times ten to that integer. */
  lemma DecimalWithExponent(digits: string, e: int)
    requires IsDigitPart(digits)
    ensures ParseDecimal(digits + "e" + IntToString(e)) == Some(Scale(DigitsValue(digits) as real, e))
  {
    var body := digits + "e" + IntToString(e);
    DigitPartHasNoMarks(digits);
    AroundMark(digits, "e", IntToString(e));
    assert IndexOfExponent(body) == |digits| by {
      IndexOfExponentAfter(digits, "e" + IntToString(e));
      assert body == digits + ("e" + IntToString(e));
    }
    MantissaOfDigits(digits);
    IntRoundTrip(e);
    DecimalWithMark(body, |digits|, DigitsValue(digits) as real, e);
  }

  /** The sign and the body of a rendered integer followed by more text. */
  lemma SignOfRendered(m: int, rest: string)
    ensures var a := if m < 0 then -m else m;
      SplitSign(IntToString(m) + rest) == (NatToString(a) + rest, m < 0)
  {
    var a := if m < 0 then -m else m;
    var t := IntToString(m) + rest;
    if m < 0 {
      assert t == "-" + (NatToString(a) + rest);
      assert t[1..] == NatToString(a) + rest;
    } else {
      assert t == NatToString(a) + rest;
      assert IsDigit(NatToString(a)[0]);
    }
  }

  lemma ScaleNegate(x: real, e: int)
    ensures -Scale(x, e) == Scale(-x, e)
  {
  }

  /** `float(str(m) + "e" + str(e))` is m times ten to the e. */
  lemma FloatExponent(t: string, m: int, e: int)
    requires t == IntToString(m) + "e" + IntToString(e)
    ensures ParseFloat(t) == Some(Finite(Scale(m as real, e)))
  {
    var a := if m < 0 then -m else m;
    var body := NatToString(a) + "e" + IntToString(e);
    ExponentFormSign(t, m, e);
    ExponentFormBody(a, e);
    SignedScale(m, e);
    FloatOfSigned(t, body, m < 0, Scale(a as real, e), Scale(m as real, e));
  }

  /** The sign of `str(m) + "e" + str(e)` is the sign of m. */
  lemma ExponentFormSign(t: string, m: int, e: int)
    requires t == IntToString(m) + "e" + IntToString(e)
    ensures var a := if m < 0 then -m else m;
      SplitSign(t) == (NatToString(a) + "e" + IntToString(e), m < 0)
  {
    var a := if m < 0 then -m else m;
    SignOfRendered(m, "e" + IntToString(e));
    assert t == IntToString(m) + ("e" + IntToString(e));
    assert NatToString(a) + "e" + IntToString(e) == NatToString(a) + ("e" + IntToString(e));
  }

  /** After the sign, `str(a) + "e" + str(e)` is a decimal worth a times ten to the e. */
  lemma ExponentFormBody(a: nat, e: int)
    ensures var body := NatToString(a) + "e" + IntToString(e);
      && Lower(body) != "inf" && Lower(body) != "infinity" && Lower(body) != "nan"
      && ParseDecimal(body) == Some(Scale(a as real, e))
  {
    var digits := NatToString(a);
    var body := digits + "e" + IntToString(e);
    assert ParseDecimal(body) == Some(Scale(a as real, e)) by {
      NatToStringValue(a);
      AllDigitsIsDigitPart(digits);
      DecimalWithExponent(digits, e);
    }
    assert body[0] == digits[0];
    DigitFirstIsNoWord(body);
  }

  /** FloatOfDecimal, with the signed value named. */
  lemma FloatOfSigned(t: string, body: string, neg: bool, v: real, r: real)
    requires SplitSign(t) == (body, neg)
    requires Lower(body) != "inf" && Lower(body) != "infinity" && Lower(body) != "nan"
    requires ParseDecimal(body) == Some(v)
    requires r == if neg then -v else v
    ensures ParseFloat(t) == Some(Finite(r))
  {
    FloatOfDecimal(t, body, neg, v);
  }

  /** Scaling the magnitude of m and then restoring its sign is scaling m. */
  lemma SignedScale(m: int, e: int)
    ensures var a := if m < 0 then -m else m;
      (if m < 0 then -Scale(a as real, e) else Scale(a as real, e)) == Scale(m as real, e)
  {
    var a := if m < 0 then -m else m;
    ScaleNegate(a as real, e);
    assert m < 0 ==> m as real == -(a as real);
  }

  /** Appending strings free of exponent marks gives a string free of them. */
  lemma {:induction false} NoExponentAppend(a: string, b: string)
    requires IndexOfExponent(a) == |a| && IndexOfExponent(b) == |b|
    ensures IndexOfExponent(a + b) == |a + b|
  {
    if a != [] {
      assert (a + b)[1..] == a[1..] + b;
      NoExponentAppend(a[1..], b);
    } else {
      assert a + b == b;
    }
  }

  /** The first point of `a + "." + b`, when `a` holds none, is the one after `a`. */
  lemma {:induction false} PointAfter(a: string, b: string)
    requires IndexOf(a, '.') == |a|
    requires b != [] && b[0] == '.'
    ensures IndexOf(a + b, '.') == |a|
  {
    if a != [] {
      assert (a + b)[1..] == a[1..] + b;
      PointAfter(a[1..], b);
    }
  }

  /** A literal with one point and digit parts on both sides. */
  lemma MantissaWithPoint(m: string, p: nat)
    requires IndexOf(m, '.') == p < |m|
    requires IsDigitPart(m[..p]) && IsDigitPart(m[p + 1..])
    ensures ParseMantissa(m) == Some(PointValue(m[..p], m[p + 1..]))
  {
  }

  /** `float(a + "." + b)` for digit parts a and b: the whole part plus the fraction. */
  lemma PointDecimal(a: string, b: string)
    requires IsDigitPart(a) && IsDigitPart(b)
    ensures ParseFloat(a + "." + b) == Some(Finite(PointValue(a, b)))
  {
    var m := a + "." + b;
    PointDecimalBody(a, b, m);
    PointLiteralUnsigned(a, m);
    FloatOfDecimal(m, m, false, PointValue(a, b));
  }

  /** `a + "." + b` has no exponent and reads as the point value of its halves. */
  lemma PointDecimalBody(a: string, b: string, m: string)
    requires IsDigitPart(a) && IsDigitPart(b) && m == a + "." + b
    ensures ParseDecimal(m) == Some(PointValue(a, b))
  {
    DigitPartHasNoMarks(a);
    DigitPartHasNoMarks(b);
    AroundMark(a, ".", b);
    assert m == a + ("." + b);
    assert IndexOfExponent(m) == |m| by {
      assert IndexOfExponent("." + b) == |"." + b| by {
        assert ("." + b)[1..] == b;
      }
      NoExponentAppend(a, "." + b);
    }
    PointAfter(a, "." + b);
    MantissaWithPoint(m, |a|);
    DecimalWithoutExponent(m, PointValue(a, b));
  }

  /** A literal that starts with the digit part `a` carries no sign and is no word. */
  lemma PointLiteralUnsigned(a: string, m: string)
    requires IsDigitPart(a) && a <= m
    ensures SplitSign(m) == (m, false)
    ensures Lower(m) != "inf" && Lower(m) != "infinity" && Lower(m) != "nan"
  {
    assert m[0] == a[0];
    DigitFirstIsNoWord(m);
  }

  /** A minus sign before an unsigned decimal literal negates its value. */
  lemma NegatedDecimal(t: string, s: string, v: real)
    requires |t| > 0 && IsDigit(t[0]) && s == "-" + t
    requires ParseFloat(t) == Some(Finite(v))
    ensures ParseFloat(s) == Some(Finite(-v))
  {
    assert SplitSign(s) == (t, true) by {
      assert s[1..] == t;
    }
    UnsignedDecimal(t, v);
    FloatOfDecimal(s, t, true, v);
  }

  /** What `float()` makes of a literal that starts with a digit is its decimal value. */
  lemma UnsignedDecimal(t: string, v: real)
    requires |t| > 0 && IsDigit(t[0])
    requires ParseFloat(t) == Some(Finite(v))
    ensures Lower(t) != "inf" && Lower(t) != "infinity" && Lower(t) != "nan"
    ensures ParseDecimal(t) == Some(v)
  {
    DigitFirstIsNoWord(t);
    assert SplitSign(t) == (t, false);
  }

  /** A run of plain digits counts as many digits as it is long. */
  lemma {:induction false} DigitCountOfDigits(s: string)
    requires forall i :: 0 <= i < |s| ==> IsDigit(s[i])
    ensures DigitCount(s) == |s|
  {
    if s != [] {
      DigitCountOfDigits(s[..|s| - 1]);
    }
  }

  // ----- the literals the parser's tests use -----

  /** `int("000002.00")` fails: the epoch field of a line must be an integer. */
  lemma EpochWithPointIsNoInt()
    ensures ParseInt("000002.00") == None
  {
    PointIsNoInt("000002.00", 6);
  }

  /** `float("bad")` fails. */
  lemma BadIsNoFloat()
    ensures ParseFloat("bad") == None
  {
    assert Lower("bad") == "bad";
    assert IndexOfExponent("bad") == 3;
  }
}
