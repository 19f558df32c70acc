/**
 Decimal digit strings: the text Python's `str()` gives an integer, and the
 plain decimal subset of what `float()` accepts from a string (an optional
 sign, digits, an optional fraction). Values are exact reals.
 */
module Decimal {
  import opened Optional

  predicate IsDigit(c: char) {
    '0' <= c <= '9'
  }

  predicate AllDigits(s: string) {
    forall i | 0 <= i < |s| :: IsDigit(s[i])
  }

  function DigitValue(c: char): (d: nat)
    requires IsDigit(c)
    ensures d < 10
  {
    c as int - '0' as int
  }

  function DigitChar(d: nat): (c: char)
    requires d < 10
    ensures IsDigit(c) && DigitValue(c) == d
  {
    (d + '0' as int) as char
  }

  /** The number a digit string denotes, most significant digit first. */
  function DigitsValue(s: string): nat
    requires AllDigits(s)
    decreases |s|
  {
    if |s| == 0 then 0 else 10 * DigitsValue(s[..|s| - 1]) + DigitValue(s[|s| - 1])
  }

  /** `str(n)` for a non-negative integer: its digits, without leading zeros. */
  function NatText(n: nat): (r: string)
    ensures |r| > 0 && AllDigits(r)
    ensures r[0] == '0' ==> r == "0"
    ensures DigitsValue(r) == n
    decreases n
  {
    if n < 10 then [DigitChar(n)]
    else
      var prefix := NatText(n / 10);
      var r := prefix + [DigitChar(n % 10)];
      assert r[..|r| - 1] == prefix;
      r
  }

  /** `str(i)` for any integer. */
  function IntText(i: int): (r: string)
    ensures |r| > 0
  {
    if i < 0 then "-" + NatText(-i) else NatText(i)
  }

  /** The position of the first '.', or |s| when there is none. */
  function DotIndex(s: string): (k: nat)
    ensures k <= |s|
    ensures forall j | 0 <= j < k :: s[j] != '.'
    ensures k < |s| ==> s[k] == '.'
  {
    if |s| == 0 || s[0] == '.' then 0 else 1 + DotIndex(s[1..])
  }

  /** An unsigned decimal: digits, optionally a '.' and more digits, at least one digit in all. */
  function ParseUnsigned(u: string): (r: Option<real>)
    ensures r.Some? ==> r.value >= 0.0
    ensures r.Some? ==> |u| > 0 && forall i | 0 <= i < |u| :: IsDigit(u[i]) || u[i] == '.'
    ensures r.Some? ==> exists i | 0 <= i < |u| :: IsDigit(u[i])
  {
    var k := DotIndex(u);
    var whole := u[..k];
    var frac := if k < |u| then u[k + 1..] else "";
    if AllDigits(whole) && AllDigits(frac) && |whole| + |frac| > 0 then
      assert forall i | 0 <= i < |u| :: IsDigit(u[i]) || u[i] == '.' by {
        forall i | 0 <= i < |u| ensures IsDigit(u[i]) || u[i] == '.' {
          if i < k {
            assert u[i] == whole[i];
          } else if i > k {
            assert u[i] == frac[i - k - 1];
          }
        }
      }
      assert if |whole| > 0 then IsDigit(u[0]) else IsDigit(u[k + 1]);
      Some(DigitsValue(whole) as real + FracValue(frac))
    else None
  }

  /** The value of the digits after the decimal point: 0.d1d2... */
  function FracValue(frac: string): (r: real)
    requires AllDigits(frac)
    ensures 0.0 <= r < 1.0
    ensures frac == [] ==> r == 0.0
  {
    if |frac| == 0 then 0.0 else (DigitValue(frac[0]) as real + FracValue(frac[1..])) / 10.0
  }

  function Negate(r: Option<real>): Option<real> {
    match r
    case None => None
    case Some(x) => Some(-x)
  }

  /** `float(s)` restricted to the plain decimal grammar `[+-]? digits ('.' digits?)? | [+-]? '.' digits`. */
  function ParseDecimal(s: string): (r: Option<real>)
    ensures r.Some? ==> |s| > 0
    ensures r.Some? ==> forall i | 0 <= i < |s| ::
      IsDigit(s[i]) || s[i] == '.' || (i == 0 && (s[i] == '+' || s[i] == '-'))
    ensures r.Some? ==> exists i | 0 <= i < |s| :: IsDigit(s[i])
  {
    if |s| > 0 && s[0] == '-' then Negate(ParseUnsigned(s[1..]))
    else if |s| > 0 && s[0] == '+' then ParseUnsigned(s[1..])
    else ParseUnsigned(s)
  }

  /** The value `float()` gives a written fixed-point number `[-]whole.frac`. */
  function FixedValue(negative: bool, whole: string, frac: string): real
    requires AllDigits(whole) && AllDigits(frac)
  {
    var m := DigitsValue(whole) as real + FracValue(frac);
    if negative then -m else m
  }

  lemma {:induction false} DotFreeDigits(s: string)
    requires AllDigits(s)
    ensures DotIndex(s) == |s|
  {
    if |s| > 0 {
      DotFreeDigits(s[1..]);
    }
  }

  lemma {:induction false} DotIndexAt(s: string, k: nat)
    requires k < |s| && s[k] == '.'
    requires forall j | 0 <= j < k :: s[j] != '.'
    ensures DotIndex(s) == k
  {
    if k > 0 {
      DotIndexAt(s[1..], k - 1);
    }
  }

  /** The text `[-]whole.frac`. */
  function FixedText(negative: bool, whole: string, frac: string): (t: string)
    ensures |t| == (if negative then 1 else 0) + |whole| + 1 + |frac|
  {
    if negative then "-" + (whole + "." + frac) else whole + "." + frac
  }

  lemma {:induction false} ParseUnsignedFixedPoint(whole: string, frac: string)
    requires AllDigits(whole) && AllDigits(frac) && |whole| + |frac| > 0
    ensures ParseUnsigned(whole + "." + frac) == Some(FixedValue(false, whole, frac))
  {
    var u := whole + "." + frac;
    forall j | 0 <= j < |whole| ensures u[j] != '.' {
      assert u[j] == whole[j];
    }
    DotIndexAt(u, |whole|);
    assert u[..|whole|] == whole;
    assert u[|whole| + 1..] == frac;
  }

  lemma {:induction false} NegativeText(u: string)
    ensures ParseDecimal("-" + u) == Negate(ParseUnsigned(u))
  {
    assert ("-" + u)[1..] == u;
  }

  /** A leading '-' negates what the rest parses to. */
  lemma {:induction false} NegativeOf(u: string, x: real)
    requires ParseUnsigned(u) == Some(x)
    ensures ParseDecimal("-" + u) == Some(-x)
  {
    NegativeText(u);
  }

  lemma {:induction false} ParseUnsignedText(whole: string, frac: string)
    requires AllDigits(whole) && AllDigits(frac) && |whole| + |frac| > 0
    ensures ParseDecimal(whole + "." + frac) == Some(FixedValue(false, whole, frac))
  {
    var u := whole + "." + frac;
    ParseUnsignedFixedPoint(whole, frac);
    if |whole| > 0 {
      assert u[0] == whole[0];
    } else {
      assert u[0] == '.';
    }
  }

  /** Parsing `[-]whole.frac` gives back its value: the parser reads the fixed-point texts it should. */
  lemma {:induction false} ParseFixedPoint(negative: bool, whole: string, frac: string)
    requires AllDigits(whole) && AllDigits(frac) && |whole| + |frac| > 0
    ensures ParseDecimal(FixedText(negative, whole, frac)) == Some(FixedValue(negative, whole, frac))
  {
    if negative {
      ParseUnsignedFixedPoint(whole, frac);
      NegativeOf(whole + "." + frac, FixedValue(false, whole, frac));
    } else {
      ParseUnsignedText(whole, frac);
    }
  }

  lemma {:induction false} ParseUnsignedWhole(whole: string)
    requires AllDigits(whole) && |whole| > 0
    ensures ParseUnsigned(whole) == Some(DigitsValue(whole) as real)
  {
    DotFreeDigits(whole);
    assert whole[..|whole|] == whole;
  }

  /** Parsing a digit string gives back the integer it denotes. */
  lemma {:induction false} ParseDigits(whole: string)
    requires AllDigits(whole) && |whole| > 0
    ensures ParseDecimal(whole) == Some(DigitsValue(whole) as real)
  {
    ParseUnsignedWhole(whole);
    assert IsDigit(whole[0]);
  }

  /** Parsing `-digits` gives back the negated integer. */
  lemma {:induction false} ParseNegativeDigits(whole: string)
    requires AllDigits(whole) && |whole| > 0
    ensures ParseDecimal("-" + whole) == Some(-(DigitsValue(whole) as real))
  {
    ParseUnsignedWhole(whole);
    NegativeOf(whole, DigitsValue(whole) as real);
  }

  /** Parsing `str(n)` gives back n: integer rendering and decimal parsing are inverse. */
  lemma {:induction false} ParseIntText(n: int)
    ensures ParseDecimal(IntText(n)) == Some(n as real)
  {
    if n < 0 {
      ParseNegativeDigits(NatText(-n));
    } else {
      ParseDigits(NatText(n));
    }
  }
}
