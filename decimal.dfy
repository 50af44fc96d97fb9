/** The part of `strconv.ParseFloat` the coordinate validator exercises: plain decimal
    literals (an optional sign, then digits with at most one `.`, at least one digit),
    read as exact reals. */
module Decimal {
  import opened Wrappers

  predicate IsDigit(c: char)
  {
    '0' <= c <= '9'
  }

  predicate AllDigits(s: string)
  {
    forall i :: 0 <= i < |s| ==> IsDigit(s[i])
  }

  function DigitValue(c: char): nat
    requires IsDigit(c)
  {
    c as int - '0' as int
  }

  function DigitChar(d: nat): (c: char)
    requires d < 10
    ensures IsDigit(c) && DigitValue(c) == d
  {
    (d + '0' as int) as char
  }

  /** Value of a digit string, most significant digit first. */
  function DigitsValue(s: string): nat
    requires AllDigits(s)
  {
    if s == [] then 0 else DigitsValue(s[..|s| - 1]) * 10 + DigitValue(s[|s| - 1])
  }

  function Pow10(n: nat): (p: nat)
    ensures p >= 1
  {
    if n == 0 then 1 else 10 * Pow10(n - 1)
  }

  /** Position of the first '.' of `s`, or `|s|` when there is none. */
  function DotIndex(s: string): (k: nat)
    ensures k <= |s|
    ensures k < |s| ==> s[k] == '.'
  {
    if s == [] || s[0] == '.' then 0 else 1 + DotIndex(s[1..])
  }

  /** Unsigned mantissa: digits, optionally a '.' and more digits, at least one digit overall. */
  function ParseUnsigned(s: string): (r: Option<real>)
    ensures r.Some? ==> |s| >= 1 && r.value >= 0.0
  {
    var k := DotIndex(s);
    var whole := s[..k];
    var frac := if k < |s| then s[k + 1..] else "";
    if AllDigits(whole) && AllDigits(frac) && |whole| + |frac| > 0 then
      Some(MantissaValue(whole, frac))
    else
      None
  }

  /** The value of `whole.frac`. */
  function MantissaValue(whole: string, frac: string): (v: real)
    requires AllDigits(whole) && AllDigits(frac)
    ensures v >= 0.0
  {
    DigitsValue(whole) as real + DigitsValue(frac) as real / Pow10(|frac|) as real
  }

  /** A decimal literal with an optional leading sign. */
  function ParseDecimal(s: string): (r: Option<real>)
    ensures r.Some? ==> |s| >= 1
    ensures r.Some? && s[0] == '-' ==> r.value <= 0.0
    ensures r.Some? && s[0] != '-' ==> r.value >= 0.0
  {
    if |s| > 0 && s[0] == '-' then Negate(ParseUnsigned(s[1..]))
    else if |s| > 0 && s[0] == '+' then ParseUnsigned(s[1..])
    else ParseUnsigned(s)
  }

  function Negate(r: Option<real>): Option<real>
  {
    match r
    case None => None
    case Some(v) => Some(-v)
  }

  /** `strconv.Itoa` for the naturals: the shortest decimal rendering. */
  function NatString(n: nat): (s: string)
    ensures |s| >= 1 && AllDigits(s)
  {
    if n < 10 then [DigitChar(n)] else NatString(n / 10) + [DigitChar(n % 10)]
  }

  /** `strconv.Itoa`. */
  function IntString(n: int): (s: string)
    ensures |s| >= 1
  {
    if n < 0 then "-" + NatString(-n) else NatString(n)
  }

  lemma {:induction false} DigitsValueOfNatString(n: nat)
    ensures DigitsValue(NatString(n)) == n
  {
    var s := NatString(n);
    if n >= 10 {
      DigitsValueOfNatString(n / 10);
      assert s[..|s| - 1] == NatString(n / 10);
    }
  }

  lemma {:induction false} DotIndexOfDigits(s: string)
    requires AllDigits(s)
    ensures DotIndex(s) == |s|
  {
    if s != [] {
      DotIndexOfDigits(s[1..]);
    }
  }

  lemma {:induction false} UnsignedDigitsOnly(s: string)
    requires |s| >= 1 && AllDigits(s)
    ensures ParseUnsigned(s) == Some(DigitsValue(s) as real)
  {
    DotIndexOfDigits(s);
    assert s[..|s|] == s;
    assert MantissaValue(s, "") == DigitsValue(s) as real by {
      assert DigitsValue("") == 0 && Pow10(0) == 1;
    }
  }

  lemma {:induction false} ParseMinus(t: string, v: real)
    requires ParseUnsigned(t) == Some(v)
    ensures ParseDecimal("-" + t) == Some(-v)
  {
    var s := "-" + t;
    assert s[0] == '-' && s[1..] == t;
  }

  /** Parsing the decimal rendering of an integer gives that integer back. */
  lemma {:induction false} ParseIntString(n: int)
    ensures ParseDecimal(IntString(n)) == Some(n as real)
  {
    if n < 0 {
      var t := NatString(-n);
      assert IntString(n) == "-" + t;
      DigitsValueOfNatString(-n);
      UnsignedDigitsOnly(t);
      ParseMinus(t, (-n) as real);
    } else {
      var t := NatString(n);
      assert IntString(n) == t;
      DigitsValueOfNatString(n);
      UnsignedDigitsOnly(t);
      UnsignedIsDecimal(t);
    }
  }

  lemma {:induction false} DotIndexAfterDigits(w: string, rest: string)
    requires AllDigits(w) && |rest| > 0 && rest[0] == '.'
    ensures DotIndex(w + rest) == |w|
  {
    if w != [] {
      assert (w + rest)[1..] == w[1..] + rest;
      DotIndexAfterDigits(w[1..], rest);
    }
  }

  /** A literal with a fractional part: `a.d` is `a + d / 10^|d|`, and `-a.d` its negation. */
  lemma {:induction false} ParseFraction(a: nat, d: string)
    requires AllDigits(d)
    ensures ParseDecimal(NatString(a) + "." + d)
      == Some(a as real + DigitsValue(d) as real / Pow10(|d|) as real)
    ensures ParseDecimal("-" + (NatString(a) + "." + d))
      == Some(-(a as real + DigitsValue(d) as real / Pow10(|d|) as real))
  {
    var s := NatString(a) + "." + d;
    var v := a as real + DigitsValue(d) as real / Pow10(|d|) as real;
    FractionValue(a, d);
    UnsignedIsDecimal(s);
    ParseMinus(s, v);
  }

  lemma {:induction false} FractionValue(a: nat, d: string)
    requires AllDigits(d)
    ensures ParseUnsigned(NatString(a) + "." + d)
      == Some(a as real + DigitsValue(d) as real / Pow10(|d|) as real)
  {
    UnsignedFraction(NatString(a), d);
    DigitsValueOfNatString(a);
  }

  /** Without a leading sign, the literal is read as an unsigned one. */
  lemma {:induction false} UnsignedIsDecimal(s: string)
    requires |s| > 0 && IsDigit(s[0])
    ensures ParseDecimal(s) == ParseUnsigned(s)
  {
  }

  lemma {:induction false} UnsignedFraction(w: string, d: string)
    requires |w| >= 1 && AllDigits(w) && AllDigits(d)
    ensures ParseUnsigned(w + "." + d) == Some(MantissaValue(w, d))
  {
    var s := w + "." + d;
    assert s == w + ("." + d);
    DotIndexAfterDigits(w, "." + d);
    assert s[..|w|] == w && s[|w| + 1..] == d;
  }

  /** A digit string is below the power of ten of its length. */
  lemma {:induction false} DigitsValueBound(d: string)
    requires AllDigits(d)
    ensures DigitsValue(d) < Pow10(|d|)
  {
    if d != [] {
      DigitsValueBound(d[..|d| - 1]);
      assert |d[..|d| - 1]| == |d| - 1;
    }
  }

  /** The fractional part `d / 10^|d|` lies in [0, 1) and is 0 only for an all-zero `d`. */
  lemma {:induction false} FractionBelowOne(d: string)
    requires AllDigits(d)
    ensures 0.0 <= DigitsValue(d) as real / Pow10(|d|) as real < 1.0
    ensures DigitsValue(d) as real / Pow10(|d|) as real == 0.0 <==> DigitsValue(d) == 0
  {
    DigitsValueBound(d);
    QuotientBelowOne(DigitsValue(d), Pow10(|d|));
  }

  lemma {:induction false} QuotientBelowOne(v: nat, p: nat)
    requires v < p
    ensures 0.0 <= v as real / p as real < 1.0
    ensures v as real / p as real == 0.0 <==> v == 0
  {
    assert v as real / p as real * p as real == v as real;
  }

  /** Only digits, one '.' and a leading sign can appear in a literal that parses, so a
      blank, a comma or any other character makes the parse fail. */
  lemma {:induction false} ParsedLiteralChars(s: string, i: nat)
    requires ParseDecimal(s).Some? && i < |s|
    ensures IsDigit(s[i]) || s[i] == '.' || (i == 0 && (s[i] == '+' || s[i] == '-'))
  {
    if |s| > 0 && (s[0] == '+' || s[0] == '-') {
      if i > 0 {
        UnsignedLiteralChars(s[1..], i - 1);
      }
    } else {
      UnsignedLiteralChars(s, i);
    }
  }

  lemma {:induction false} UnsignedLiteralChars(s: string, i: nat)
    requires ParseUnsigned(s).Some? && i < |s|
    ensures IsDigit(s[i]) || s[i] == '.'
  {
    var k := DotIndex(s);
    if i < k {
      assert s[i] == s[..k][i];
    } else if i > k {
      assert s[i] == s[k + 1..][i - k - 1];
    }
  }

  /** The empty string is not a number. */
  lemma {:induction false} ParseEmpty()
    ensures ParseDecimal("") == None
  {
  }
}
