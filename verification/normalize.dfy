/**
 The value normaliser `_as_float`: it turns a snapshot scalar into a number or
 "absent". Numbers (and booleans, which Python counts as integers) pass
 through, placeholders such as "--" are absent, and other strings lose every
 'W' and '%' and are then parsed as plain decimals.
 */
module Normalize {
  import opened Optional
  import opened Decimal
  import opened Json

  /** Python's `str.isspace()` for one character. */
  predicate IsSpace(c: char) {
    var n := c as int;
    n == 32 || 9 <= n <= 13 || 28 <= n <= 31 || n == 0x85 || n == 0xA0 || n == 0x1680
    || 0x2000 <= n <= 0x200A || n == 0x2028 || n == 0x2029 || n == 0x202F || n == 0x205F
    || n == 0x3000
  }

  predicate AllSpace(s: string) {
    forall i | 0 <= i < |s| :: IsSpace(s[i])
  }

  /** Every character of s at a position in [lo, hi) is whitespace. */
  predicate SpaceBetween(s: string, lo: int, hi: int)
    requires 0 <= lo && hi <= |s|
  {
    forall k | lo <= k < hi :: IsSpace(s[k])
  }

  /** The first position at or after k that is not whitespace, or |s|. */
  function SkipSpace(s: string, k: nat): (i: nat)
    requires k <= |s|
    ensures k <= i <= |s|
    ensures SpaceBetween(s, k, i)
    ensures i < |s| ==> !IsSpace(s[i])
    decreases |s| - k
  {
    if k < |s| && IsSpace(s[k]) then SkipSpace(s, k + 1) else k
  }

  /** The end of s[lo..k] once its trailing whitespace is dropped. */
  function TrimSpace(s: string, lo: nat, k: nat): (j: nat)
    requires lo <= k <= |s|
    ensures lo <= j <= k
    ensures SpaceBetween(s, j, k)
    ensures j > lo ==> !IsSpace(s[j - 1])
    decreases k
  {
    if k > lo && IsSpace(s[k - 1]) then TrimSpace(s, lo, k - 1) else k
  }

  /** `s.strip()`: s without its leading and trailing whitespace. */
  function Strip(s: string): (r: string)
    ensures |r| <= |s|
    ensures r == [] || (!IsSpace(r[0]) && !IsSpace(r[|r| - 1]))
  {
    var i := SkipSpace(s, 0);
    var j := TrimSpace(s, i, |s|);
    s[i..j]
  }

  /** Strip(s) is an infix of s whose margins are whitespace. */
  lemma {:induction false} StripBounds(s: string) returns (i: nat, j: nat)
    ensures i <= j <= |s| && Strip(s) == s[i..j]
    ensures SpaceBetween(s, 0, i) && SpaceBetween(s, j, |s|)
    ensures i < j ==> !IsSpace(s[i]) && !IsSpace(s[j - 1])
  {
    i := SkipSpace(s, 0);
    j := TrimSpace(s, i, |s|);
  }

  lemma {:induction false} SkipSpaceAt(s: string, k: nat, i: nat)
    requires k <= i <= |s| && SpaceBetween(s, k, i)
    requires i < |s| ==> !IsSpace(s[i])
    ensures SkipSpace(s, k) == i
    decreases i - k
  {
    if k < i {
      SkipSpaceAt(s, k + 1, i);
    }
  }

  lemma {:induction false} TrimSpaceAt(s: string, lo: nat, k: nat, j: nat)
    requires lo <= j <= k <= |s| && SpaceBetween(s, j, k)
    requires j > lo ==> !IsSpace(s[j - 1])
    ensures TrimSpace(s, lo, k) == j
    decreases k - j
  {
    if j < k {
      TrimSpaceAt(s, lo, k - 1, j);
    }
  }

  /**
   Strip is characterised by its result alone: the infix s[i..j] with
   whitespace margins and no whitespace at either of its own ends.
   */
  lemma {:induction false} StripUnique(s: string, i: nat, j: nat)
    requires i <= j <= |s|
    requires SpaceBetween(s, 0, i) && SpaceBetween(s, j, |s|)
    requires i < j ==> !IsSpace(s[i]) && !IsSpace(s[j - 1])
    ensures Strip(s) == s[i..j]
  {
    if i < j {
      SkipSpaceAt(s, 0, i);
      TrimSpaceAt(s, i, |s|, j);
    } else {
      assert SpaceBetween(s, 0, |s|);
      SkipSpaceAt(s, 0, |s|);
      TrimSpaceAt(s, |s|, |s|, |s|);
    }
  }

  lemma {:induction false} PrefixMargin(a: string, x: string, b: string, i: nat)
    requires AllSpace(a) && i <= |x| && SpaceBetween(x, 0, i)
    ensures SpaceBetween(a + x + b, 0, |a| + i)
  {
    var s := a + x + b;
    forall k | 0 <= k < |a| + i ensures IsSpace(s[k]) {
      if k < |a| {
        assert s[k] == a[k];
      } else {
        assert s[k] == x[k - |a|];
      }
    }
  }

  lemma {:induction false} SuffixMargin(a: string, x: string, b: string, j: nat)
    requires AllSpace(b) && j <= |x| && SpaceBetween(x, j, |x|)
    ensures SpaceBetween(a + x + b, |a| + j, |a| + |x| + |b|)
  {
    var s := a + x + b;
    forall k | |a| + j <= k < |s| ensures IsSpace(s[k]) {
      if k < |a| + |x| {
        assert s[k] == x[k - |a|];
      } else {
        assert s[k] == b[k - |a| - |x|];
      }
    }
  }

  /** Surrounding whitespace does not change what strip() returns. */
  lemma {:induction false} StripPadded(a: string, x: string, b: string)
    requires AllSpace(a) && AllSpace(b)
    ensures Strip(a + x + b) == Strip(x)
  {
    var i, j := StripBounds(x);
    var s := a + x + b;
    var lo, hi := |a| + i, |a| + j;
    PrefixMargin(a, x, b, i);
    SuffixMargin(a, x, b, j);
    PaddedInfix(a, x, b, i, j);
    StripUnique(s, lo, hi);
    calc {
      Strip(s);
      s[lo..hi];
      x[i..j];
      Strip(x);
    }
  }

  lemma {:induction false} PaddedInfix(a: string, x: string, b: string, i: nat, j: nat)
    requires i <= j <= |x|
    ensures (a + x + b)[|a| + i..|a| + j] == x[i..j]
    ensures i < j ==> (a + x + b)[|a| + i] == x[i] && (a + x + b)[|a| + j - 1] == x[j - 1]
  {
  }

  /** `s.replace(c, "")`: every occurrence of c deleted, everything else kept in order. */
  function Delete(s: string, c: char): (r: string)
    ensures c !in r
    ensures forall x | x in r :: x in s
    ensures c !in s ==> r == s
    ensures |r| <= |s|
  {
    if |s| == 0 then ""
    else (if s[0] == c then "" else [s[0]]) + Delete(s[1..], c)
  }

  /** Deletion removes exactly the occurrences of c: one character per occurrence. */
  lemma {:induction false} DeleteCount(s: string, c: char)
    ensures |Delete(s, c)| == |s| - multiset(s)[c]
  {
    if |s| > 0 {
      DeleteCount(s[1..], c);
      assert s == [s[0]] + s[1..];
      assert multiset(s) == multiset([s[0]]) + multiset(s[1..]);
    }
  }

  /** Deletion works piecewise: it distributes over concatenation. */
  lemma {:induction false} DeleteAppend(a: string, b: string, c: char)
    ensures Delete(a + b, c) == Delete(a, c) + Delete(b, c)
  {
    if |a| > 0 {
      var h := if a[0] == c then "" else [a[0]];
      calc {
        Delete(a + b, c);
        { assert (a + b)[0] == a[0] && (a + b)[1..] == a[1..] + b; }
        h + Delete(a[1..] + b, c);
        { DeleteAppend(a[1..], b, c); }
        h + (Delete(a[1..], c) + Delete(b, c));
        (h + Delete(a[1..], c)) + Delete(b, c);
        Delete(a, c) + Delete(b, c);
      }
    } else {
      assert a + b == b;
    }
  }

  /** `v.replace("W", "").replace("%", "")`: the unit characters removed. */
  function StripUnits(s: string): (r: string)
    ensures 'W' !in r && '%' !in r
    ensures 'W' !in s && '%' !in s ==> r == s
  {
    Delete(Delete(s, 'W'), '%')
  }

  predicate NoUnits(s: string) {
    forall k | 0 <= k < |s| :: s[k] != 'W' && s[k] != '%'
  }

  lemma {:induction false} NoUnitsKept(s: string)
    requires NoUnits(s)
    ensures StripUnits(s) == s
  {
    assert 'W' !in s && '%' !in s;
  }

  lemma {:induction false} StripUnitsAppend(a: string, b: string)
    ensures StripUnits(a + b) == StripUnits(a) + StripUnits(b)
  {
    DeleteAppend(a, b, 'W');
    DeleteAppend(Delete(a, 'W'), Delete(b, 'W'), '%');
  }

  lemma {:induction false} SpacesHaveNoUnits(a: string)
    requires AllSpace(a)
    ensures StripUnits(a) == a
  {
    assert forall k | 0 <= k < |a| :: a[k] != 'W' && a[k] != '%';
  }

  lemma {:induction false} SplitThree(s: string, i: nat, j: nat)
    requires i <= j <= |s|
    ensures s == s[..i] + s[i..j] + s[j..]
  {
  }

  /** Stripping before removing units changes nothing once the result is stripped again. */
  lemma {:induction false} UnitsAfterStrip(s: string)
    ensures Strip(StripUnits(Strip(s))) == Strip(StripUnits(s))
  {
    var i, j := StripBounds(s);
    var a, t, b := s[..i], s[i..j], s[j..];
    SplitThree(s, i, j);
    assert AllSpace(a) && AllSpace(b);
    StripUnitsAppend(a + t, b);
    StripUnitsAppend(a, t);
    SpacesHaveNoUnits(a);
    SpacesHaveNoUnits(b);
    StripPadded(a, StripUnits(t), b);
  }

  /**
   The strings `_as_float` treats as "no reading" after stripping:
   "", "-", "--", "---" and "----", that is, at most four dashes.
   */
  predicate IsPlaceholder(s: string) {
    |s| <= 4 && forall k | 0 <= k < |s| :: s[k] == '-'
  }

  lemma {:induction false} PlaceholderSet()
    ensures IsPlaceholder("") && IsPlaceholder("-") && IsPlaceholder("--")
    ensures IsPlaceholder("---") && IsPlaceholder("----")
    ensures !IsPlaceholder("-----") && !IsPlaceholder("0") && !IsPlaceholder(" -")
  {
    assert "-----"[4] == '-';
    assert "0"[0] != '-';
    assert " -"[0] != '-';
  }

  /** A string with no whitespace at either end is its own strip. */
  lemma {:induction false} StripFixed(s: string)
    requires s == [] || (!IsSpace(s[0]) && !IsSpace(s[|s| - 1]))
    ensures Strip(s) == s
  {
    StripUnique(s, 0, |s|);
  }

  /** No placeholder is a decimal, so the placeholder test never changes a parse. */
  lemma {:induction false} PlaceholdersDoNotParse(s: string)
    requires IsPlaceholder(s)
    ensures ParseDecimal(s) == None
    ensures Strip(StripUnits(s)) == s
  {
    assert forall k | 0 <= k < |s| :: !IsDigit(s[k]) && s[k] != 'W' && s[k] != '%';
    NoUnitsKept(s);
    StripFixed(s);
  }

  /**
   2^1024 - 2^970: the least integer that Python's `float()` rounds past the
   largest finite double, and so rejects with OverflowError.
   */
  const FloatOverflowBound: int :=
    0xfffffffffffffc00000000000000000000000000000000000000000000000000000000000000000000000000000000000000000000000000000000000000000000000000000000000000000000000000000000000000000000000000000000000000000000000000000000000000000000000000000000000000000000000000

  predicate InFloatRange(i: int) {
    -FloatOverflowBound < i < FloatOverflowBound
  }

  /** The outcome of `_as_float` as written: a number, None, or an exception escaping it. */
  datatype Conversion = Absent | Number(x: real) | Raises

  /**
   `_as_float` as written. `float(value)` on an int too large for a double
   raises OverflowError, which the `except (TypeError, ValueError)` clause does
   not catch, so the exception leaves the function.
   */
  function AsFloatAsWritten(v: Value): (r: Conversion)
    ensures r == Raises <==> v.VInt? && !InFloatRange(v.i)
  {
    match v
    case VNone => Absent
    case VBool(b) => Number(if b then 1.0 else 0.0)
    case VInt(i) => if InFloatRange(i) then Number(i as real) else Raises
    case VReal(x) => Number(x)
    case VStr(s) =>
      var t := Strip(s);
      if IsPlaceholder(t) then Absent
      else (match ParseDecimal(Strip(StripUnits(t))) case Some(x) => Number(x) case None => Absent)
    case _ => Absent
  }

  /** The input that shows it: `_as_float(2**1024)` raises instead of returning None. */
  lemma {:induction false} AsWrittenRaisesOnHugeInt()
    ensures AsFloatAsWritten(VInt(FloatOverflowBound)) == Raises
    ensures AsFloatAsWritten(VInt(-FloatOverflowBound - 1)) == Raises
  {
  }

  /**
   `_as_float` as evidently intended (and as the model uses it): never raises.
   None is absent, numbers and booleans pass through unchanged, an int beyond
   the double range is absent, other non-strings are absent, and a string is
   absent exactly when it is a placeholder or does not parse once every 'W'
   and '%' is removed and it is stripped.
   */
  function AsFloat(v: Value): (r: Option<real>)
    ensures v.VNone? ==> r == None
    ensures v.VBool? ==> r == Some(if v.b then 1.0 else 0.0)
    ensures v.VInt? ==> (r.Some? <==> InFloatRange(v.i))
    ensures v.VInt? && r.Some? ==> r.value == v.i as real
    ensures v.VReal? ==> r == Some(v.r)
    ensures v.VMap? || v.VList? || v.VOther? ==> r == None
    ensures v.VStr? && IsPlaceholder(Strip(v.s)) ==> r == None
    ensures v.VStr? ==> r == ParseDecimal(Strip(StripUnits(v.s)))
  {
    match v
    case VNone => None
    case VBool(b) => Some(if b then 1.0 else 0.0)
    case VInt(i) => if InFloatRange(i) then Some(i as real) else None
    case VReal(x) => Some(x)
    case VStr(s) =>
      var t := Strip(s);
      UnitsAfterStrip(s);
      if IsPlaceholder(t) then PlaceholdersDoNotParse(t); None
      else ParseDecimal(Strip(StripUnits(t)))
    case _ => None
  }

  /** The correction changes nothing but the overflow: elsewhere both versions agree. */
  lemma {:induction false} AsWrittenAgreesWhenNoRaise(v: Value)
    ensures AsFloatAsWritten(v) != Raises ==>
      (AsFloatAsWritten(v) == Absent <==> AsFloat(v) == None)
    ensures AsFloatAsWritten(v) != Raises && AsFloat(v).Some? ==>
      AsFloatAsWritten(v) == Number(AsFloat(v).value)
  {
    if v.VStr? {
      var t := Strip(v.s);
      UnitsAfterStrip(v.s);
      if IsPlaceholder(t) {
        PlaceholdersDoNotParse(t);
      }
    }
  }

  /** Unit characters anywhere in the text are ignored: removing them first changes nothing. */
  lemma {:induction false} UnitsIgnored(s: string)
    ensures AsFloat(VStr(StripUnits(s))) == AsFloat(VStr(s))
  {
  }

  /** Whitespace and unit characters only. */
  predicate UnitOrSpace(a: string) {
    forall k | 0 <= k < |a| :: IsSpace(a[k]) || a[k] == 'W' || a[k] == '%'
  }

  /** Text free of units with no whitespace at either end. */
  predicate Clean(t: string) {
    NoUnits(t) && (t == [] || (!IsSpace(t[0]) && !IsSpace(t[|t| - 1])))
  }

  lemma {:induction false} PaddingStripsToSpace(a: string)
    requires UnitOrSpace(a)
    ensures AllSpace(StripUnits(a))
  {
    var r := StripUnits(a);
    forall k | 0 <= k < |r| ensures IsSpace(r[k]) {
      assert r[k] in r;
      assert r[k] in Delete(a, 'W');
      assert r[k] in a;
    }
  }

  /**
   Whitespace and unit characters around a clean text are ignored: `_as_float`
   reads `a + t + b` exactly as the decimal parser reads t.
   */
  lemma {:induction false} ReadBack(a: string, t: string, b: string)
    requires UnitOrSpace(a) && UnitOrSpace(b) && Clean(t)
    ensures AsFloat(VStr(a + t + b)) == ParseDecimal(t)
  {
    StripUnitsAppend(a + t, b);
    StripUnitsAppend(a, t);
    PaddingStripsToSpace(a);
    PaddingStripsToSpace(b);
    NoUnitsKept(t);
    StripPadded(StripUnits(a), t, StripUnits(b));
    StripFixed(t);
  }

  /** A clean text followed by whitespace and units reads as the text alone. */
  lemma {:induction false} ReadBackSuffix(t: string, b: string)
    requires UnitOrSpace(b) && Clean(t)
    ensures AsFloat(VStr(t + b)) == ParseDecimal(t)
  {
    StripUnitsAppend(t, b);
    PaddingStripsToSpace(b);
    NoUnitsKept(t);
    StripTrailing(t, StripUnits(b));
    StripFixed(t);
  }

  lemma {:induction false} StripTrailing(x: string, b: string)
    requires AllSpace(b)
    ensures Strip(x + b) == Strip(x)
  {
    StripPadded([], x, b);
    assert [] + x == x;
  }

  lemma {:induction false} UnitSuffixes()
    ensures UnitOrSpace("") && UnitOrSpace(" W") && UnitOrSpace("%")
  {
    assert IsSpace(' ');
  }

  lemma {:induction false} SignedDigitsClean(sign: string, d: string)
    requires sign == "" || sign == "-"
    requires AllDigits(d) && |d| > 0
    ensures Clean(sign + d)
  {
    var t := sign + d;
    forall k | 0 <= k < |t| ensures t[k] != 'W' && t[k] != '%' {
      if k >= |sign| {
        assert t[k] == d[k - |sign|];
      }
    }
    assert t[|t| - 1] == d[|d| - 1];
  }

  lemma {:induction false} IntTextClean(n: int)
    ensures Clean(IntText(n))
  {
    if n < 0 {
      SignedDigitsClean("-", NatText(-n));
    } else {
      SignedDigitsClean("", NatText(n));
      assert "" + NatText(n) == NatText(n);
    }
  }

  /** The normaliser reads back what `str()` prints for an integer, bare or followed by a unit. */
  lemma {:induction false} IntTextRoundTrip(n: int)
    ensures AsFloat(VStr(Str(VInt(n)))) == Some(n as real)
    ensures AsFloat(VStr(Str(VInt(n)) + " W")) == Some(n as real)
    ensures AsFloat(VStr(Str(VInt(n)) + "%")) == Some(n as real)
  {
    var t := IntText(n);
    IntTextClean(n);
    ParseIntText(n);
    UnitSuffixes();
    ReadBackSuffix(t, "");
    ReadBackSuffix(t, " W");
    ReadBackSuffix(t, "%");
    assert t + "" == t;
  }

  /** The normaliser reads `[-]whole.frac` as its fixed-point value. */
  lemma {:induction false} FixedPointReadBack(negative: bool, whole: string, frac: string)
    requires AllDigits(whole) && AllDigits(frac) && |whole| + |frac| > 0
    ensures AsFloat(VStr(FixedText(negative, whole, frac))) == Some(FixedValue(negative, whole, frac))
  {
    var t := FixedText(negative, whole, frac);
    FixedTextClean(negative, whole, frac);
    ParseFixedPoint(negative, whole, frac);
    UnitSuffixes();
    ReadBackSuffix(t, "");
    assert t + "" == t;
  }

  lemma {:induction false} FixedTextClean(negative: bool, whole: string, frac: string)
    requires AllDigits(whole) && AllDigits(frac)
    ensures Clean(FixedText(negative, whole, frac))
  {
    var t := FixedText(negative, whole, frac);
    forall k | 0 <= k < |t| ensures t[k] != 'W' && t[k] != '%' {
      var h := if negative then 1 else 0;
      if h <= k < h + |whole| {
        assert t[k] == whole[k - h];
      } else if k > h + |whole| {
        assert t[k] == frac[k - h - |whole| - 1];
      }
    }
  }

  predicate NoDigit(s: string) {
    forall k | 0 <= k < |s| :: !IsDigit(s[k])
  }

  lemma {:induction false} DeleteKeepsNoDigit(s: string, c: char)
    requires NoDigit(s)
    ensures NoDigit(Delete(s, c))
  {
    var r := Delete(s, c);
    forall k | 0 <= k < |r| ensures !IsDigit(r[k]) {
      assert r[k] in r;
    }
  }

  lemma {:induction false} StripKeepsNoDigit(u: string)
    requires NoDigit(u)
    ensures NoDigit(Strip(u))
  {
    var i, j := StripBounds(u);
    var x := Strip(u);
    forall k | 0 <= k < |x| ensures !IsDigit(x[k]) {
      assert x[k] == u[i + k];
    }
  }

  /** Text without a single digit is never a number. */
  lemma {:induction false} NoDigitsAbsent(s: string)
    requires NoDigit(s)
    ensures AsFloat(VStr(s)) == None
  {
    DeleteKeepsNoDigit(s, 'W');
    DeleteKeepsNoDigit(Delete(s, 'W'), '%');
    StripKeepsNoDigit(StripUnits(s));
  }
}
