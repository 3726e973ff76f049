/** The string operations the dashboard relies on, on `seq<char>`:
    `toLowerCase` (ASCII letters), `includes`, integer `toString`,
    `parseFloat` on exact reals, and PostgreSQL's text form of a
    `decimal(12, 2)` amount held as integer cents. */
module Text {
  import opened Maybe

  // ---------------------------------------------------------------------------
  // Case folding and substring search

  function LowerChar(c: char): char
  {
    if 'A' <= c <= 'Z' then (c as int + 32) as char else c
  }

  /** `String.prototype.toLowerCase`, restricted to ASCII letters. */
  function Lower(s: string): (r: string)
    ensures |r| == |s|
    ensures forall i :: 0 <= i < |s| ==> r[i] == LowerChar(s[i])
  {
    if s == [] then [] else [LowerChar(s[0])] + Lower(s[1..])
  }

  lemma {:induction false} LowerIdempotent(s: string)
    ensures Lower(Lower(s)) == Lower(s)
  {
    assert forall i :: 0 <= i < |s| ==> LowerChar(LowerChar(s[i])) == LowerChar(s[i]);
  }

  predicate StartsWith(hay: string, needle: string)
  {
    |needle| <= |hay| && hay[..|needle|] == needle
  }

  /** `hay.includes(needle)`: tried at every starting position. */
  predicate Contains(hay: string, needle: string)
    decreases |hay|
  {
    StartsWith(hay, needle) || (hay != [] && Contains(hay[1..], needle))
  }

  /** `needle` occurs in `hay` starting at index `i`. */
  predicate OccursAt(hay: string, needle: string, i: int)
  {
    0 <= i && i + |needle| <= |hay| && hay[i..i + |needle|] == needle
  }

  /** `Contains` is substring occurrence at some index. */
  lemma {:induction false} ContainsIff(hay: string, needle: string)
    ensures Contains(hay, needle) <==> exists i :: OccursAt(hay, needle, i)
  {
    if StartsWith(hay, needle) {
      assert OccursAt(hay, needle, 0);
    } else if hay == [] {
      assert forall i :: !OccursAt(hay, needle, i);
    } else {
      ContainsIff(hay[1..], needle);
      if Contains(hay[1..], needle) {
        var i :| OccursAt(hay[1..], needle, i);
        assert hay[i + 1..i + 1 + |needle|] == hay[1..][i..i + |needle|];
        assert OccursAt(hay, needle, i + 1);
      }
      if exists i :: OccursAt(hay, needle, i) {
        var i :| OccursAt(hay, needle, i);
        assert i != 0;
        assert hay[1..][i - 1..i - 1 + |needle|] == hay[i..i + |needle|];
        assert OccursAt(hay[1..], needle, i - 1);
      }
    }
  }

  // ---------------------------------------------------------------------------
  // Decimal digits

  predicate IsDigit(c: char) { '0' <= c <= '9' }

  function DigitChar(d: nat): (c: char)
    requires d < 10
    ensures IsDigit(c)
  {
    (d + '0' as int) as char
  }

  function DigitValue(c: char): nat
    requires IsDigit(c)
  {
    c as int - '0' as int
  }

  predicate AllDigits(s: string)
  {
    forall i :: 0 <= i < |s| ==> IsDigit(s[i])
  }

  /** Decimal text of a natural number, without leading zeros. */
  function NatText(n: nat): (r: string)
    ensures |r| >= 1 && AllDigits(r)
    ensures |r| > 1 ==> r[0] != '0'
  {
    if n < 10 then [DigitChar(n)] else NatText(n / 10) + [DigitChar(n % 10)]
  }

  /** The number a string of digits denotes. */
  function DigitsValue(s: string): nat
    requires AllDigits(s)
  {
    if s == [] then 0 else DigitsValue(s[..|s| - 1]) * 10 + DigitValue(s[|s| - 1])
  }

  lemma {:induction false} NatTextValue(n: nat)
    ensures DigitsValue(NatText(n)) == n
  {
    if n >= 10 {
      NatTextValue(n / 10);
      var t := NatText(n);
      assert t[..|t| - 1] == NatText(n / 10);
    }
  }

  function Pow10(k: nat): (r: nat)
    ensures r >= 1
  {
    if k == 0 then 1 else 10 * Pow10(k - 1)
  }

  lemma {:induction false} NatTextLength(n: nat, k: nat)
    requires n < Pow10(k)
    ensures |NatText(n)| <= if k == 0 then 1 else k
  {
    if n >= 10 {
      assert k != 0 && k != 1 by {
        assert Pow10(0) == 1 && Pow10(1) == 10;
      }
      NatTextLength(n / 10, k - 1);
    }
  }

  /** `String(n)` / `n.toString()` for an integer-valued number. */
  function IntText(i: int): string
  {
    if i < 0 then "-" + NatText(-i) else NatText(i)
  }

  /** Length of the run of digits at the start of `s`. */
  function DigitRun(s: string): (n: nat)
    ensures n <= |s| && AllDigits(s[..n])
    ensures n < |s| ==> !IsDigit(s[n])
  {
    if s == [] || !IsDigit(s[0]) then 0
    else
      var n := 1 + DigitRun(s[1..]);
      assert s[..n] == [s[0]] + s[1..][..n - 1];
      n
  }

  lemma {:induction false} DigitRunAppend(a: string, b: string)
    requires AllDigits(a)
    requires b == [] || !IsDigit(b[0])
    ensures DigitRun(a + b) == |a|
  {
    if a != [] {
      assert (a + b)[1..] == a[1..] + b;
      DigitRunAppend(a[1..], b);
    }
  }

  // ---------------------------------------------------------------------------
  // parseFloat, exactly

  /** `parseFloat(s)` on the longest prefix of the form
      `[+-]digits[.digits][(e|E)[+-]digits]` (at least one mantissa digit);
      `None` is NaN. The value is exact: binary floating-point rounding and
      the overflow to `Infinity` are not modelled. */
  function ParseFloat(s: string): (r: Option<real>)
  {
    var signed := |s| > 0 && (s[0] == '-' || s[0] == '+');
    var magnitude := ParseUnsigned(if signed then s[1..] else s);
    if magnitude.None? then None
    else
      Some(if signed && s[0] == '-' then -magnitude.value else magnitude.value)
  }

  /** `digits[.digits]` with at least one digit, at the start of `s`, scaled
      by the exponent that follows it. */
  function ParseUnsigned(s: string): (r: Option<real>)
  {
    var m := ParseMantissa(s);
    if m.None? then None else Some(Scaled(m.value.0, Exponent(s[m.value.1..])))
  }

  /** The value of a leading `digits[.digits]` (at least one digit) and the
      position just after it. */
  function ParseMantissa(s: string): (r: Option<(real, nat)>)
    ensures r.Some? ==> r.value.1 <= |s|
  {
    var n := DigitRun(s);
    var f := FractionDigits(s, n);
    if n == 0 && f == [] then None
    else Some((DigitsValue(s[..n]) as real + Fraction(f), MantissaEnd(s, n)))
  }

  /** Whether a decimal point stands at position `n`. */
  predicate PointAt(s: string, n: nat)
  {
    n < |s| && s[n] == '.'
  }

  /** The digits after a point at position `n`; none without the point. */
  function FractionDigits(s: string, n: nat): (f: string)
    requires n <= |s|
    ensures AllDigits(f)
    ensures !PointAt(s, n) ==> f == []
  {
    if PointAt(s, n) then s[n + 1..][..DigitRun(s[n + 1..])] else []
  }

  /** The position just after the integer digits ending at `n`, the point
      and the fraction digits. */
  function MantissaEnd(s: string, n: nat): (e: nat)
    requires n <= |s|
    ensures e <= |s|
    ensures e == if PointAt(s, n) then n + 1 + |FractionDigits(s, n)| else n
  {
    if PointAt(s, n) then n + 1 + DigitRun(s[n + 1..]) else n
  }

  /** The value of a leading `(e|E)[+-]digits`; 0 when `s` does not start
      with one (an `e` without digits is not read). */
  function Exponent(s: string): int
  {
    if |s| < 2 || (s[0] != 'e' && s[0] != 'E') then 0
    else
      var signed := s[1] == '+' || s[1] == '-';
      var digits := if signed then s[2..] else s[1..];
      var k := DigitRun(digits);
      var e: int := if k == 0 then 0 else DigitsValue(digits[..k]);
      if s[1] == '-' then -e else e
  }

  /** `x` times ten to the power `e`, exactly. */
  function Scaled(x: real, e: int): real
  {
    if e >= 0 then x * Pow10(e) as real else x / Pow10(-e) as real
  }

  /** A number input's value may carry an exponent: digits, `e` and digits
      read as the mantissa scaled up by the exponent ("1e2" is 100; see
      `ScaledPositive`). */
  lemma ParseExponent(a: string, e: string)
    requires a != [] && AllDigits(a) && e != [] && AllDigits(e)
    ensures ParseFloat(a + "e" + e) == Some(Scaled(DigitsValue(a) as real, DigitsValue(e)))
  {
    assert Exponent("e" + e) == DigitsValue(e) by {
      ExponentOfDigits(e);
    }
    assert a + "e" + e == a + ("e" + e);
    ParseWithExponent(a, "e" + e, DigitsValue(e));
  }

  /** With `e-`, the mantissa is divided by ten to the exponent ("25e-2" is
      0.25). */
  lemma ParseNegativeExponent(a: string, e: string)
    requires a != [] && AllDigits(a) && e != [] && AllDigits(e)
    ensures ParseFloat(a + "e-" + e) == Some(DigitsValue(a) as real / Pow10(DigitsValue(e)) as real)
  {
    var d := DigitsValue(e);
    assert Exponent("e-" + e) == -(d as int) by {
      ExponentOfDigits(e);
    }
    assert a + "e-" + e == a + ("e-" + e);
    ParseWithExponent(a, "e-" + e, -(d as int));
    ScaledNegative(DigitsValue(a) as real, d);
  }

  /** Scaling by a non-negative exponent multiplies by that power of ten. */
  lemma ScaledPositive(x: real, d: nat)
    ensures Scaled(x, d) == x * Pow10(d) as real
  {
  }

  /** Scaling by a negative exponent divides by that power of ten. */
  lemma ScaledNegative(x: real, d: nat)
    ensures Scaled(x, -(d as int)) == x / Pow10(d) as real
  {
    if d == 0 {
      assert Pow10(0) == 1;
    }
  }

  /** Digits followed by an exponent suffix `t` of value `k`. */
  lemma ParseWithExponent(a: string, t: string, k: int)
    requires a != [] && AllDigits(a)
    requires t != [] && !IsDigit(t[0]) && t[0] != '.' && t[0] != '-' && t[0] != '+'
    requires Exponent(t) == k
    ensures ParseFloat(a + t) == Some(Scaled(DigitsValue(a) as real, k))
  {
    var s := a + t;
    assert ParseMantissa(s) == Some((DigitsValue(a) as real, |a|)) by {
      MantissaOfDigits(a, t);
    }
    assert s[|a|..] == t;
    assert s[0] == a[0];
  }

  /** A run of digits ended by neither a digit nor a point is the whole
      mantissa. */
  lemma MantissaOfDigits(a: string, rest: string)
    requires a != [] && AllDigits(a)
    requires rest != [] && !IsDigit(rest[0]) && rest[0] != '.'
    ensures ParseMantissa(a + rest) == Some((DigitsValue(a) as real, |a|))
  {
    var s := a + rest;
    assert DigitRun(s) == |a| by {
      DigitRunAppend(a, rest);
    }
    assert !PointAt(s, |a|) by {
      assert s[|a|] == rest[0];
    }
    assert s[..|a|] == a;
    IntegerMantissa(s, |a|);
  }

  /** Digits not followed by a point are read without a fraction. */
  lemma IntegerMantissa(s: string, n: nat)
    requires n > 0 && DigitRun(s) == n && !PointAt(s, n)
    ensures ParseMantissa(s) == Some((DigitsValue(s[..n]) as real, n))
  {
    assert FractionDigits(s, n) == [];
    assert Fraction([]) == 0.0 by {
      assert Pow10(0) == 1;
    }
  }

  lemma ExponentOfDigits(e: string)
    requires e != [] && AllDigits(e)
    ensures Exponent("e" + e) == DigitsValue(e)
    ensures Exponent("e-" + e) == -(DigitsValue(e) as int)
  {
    assert DigitRun(e) == |e| by {
      DigitRunAppend(e, []);
      assert e + [] == e;
    }
    assert e[..|e|] == e;
    assert ("e" + e)[1..] == e;
    assert ("e-" + e)[2..] == e;
  }

  /** An `e` with no digits after it is not read: "1e" reads as 1. */
  lemma ParseBareExponentMark()
    ensures ParseFloat("1e") == Some(1.0)
  {
    assert DigitRun("1e") == 1;
    assert "1e"[..1] == "1" && "1e"[1..] == "e";
    assert DigitsValue("1") == 1 by { assert "1"[..0] == []; }
  }

  /** The value of the digits after the point: `0.d1d2...`. */
  function Fraction(digits: string): real
    requires AllDigits(digits)
  {
    DigitsValue(digits) as real / Pow10(|digits|) as real
  }

  /** `parseFloat("0")` is 0. */
  lemma ParseZero()
    ensures ParseFloat("0") == Some(0.0)
  {
    assert DigitRun("0") == 1;
    assert DigitsValue("0") == 0 by {
      assert "0"[..0] == [];
    }
  }

  // ---------------------------------------------------------------------------
  // decimal(12, 2) amounts

  /** The text PostgreSQL gives a `decimal(p, 2)` value of `cents / 100`:
      an optional minus sign, the integer part, a point, two digits. */
  function CentsText(cents: int): string
  {
    var a := if cents < 0 then -cents else cents;
    (if cents < 0 then "-" else "") + UnsignedCentsText(a)
  }

  /** The unsigned part of `CentsText`: integer part, point, two decimals. */
  function UnsignedCentsText(a: nat): string
  {
    NatText(a / 100) + "." + [DigitChar(a % 100 / 10), DigitChar(a % 10)]
  }

  lemma UnsignedCentsValue(a: nat)
    ensures ParseUnsigned(UnsignedCentsText(a)) == Some(a as real / 100.0)
  {
    var u := UnsignedCentsText(a);
    var n := |NatText(a / 100)|;
    CentsTextParts(a);
    NatTextValue(a / 100);
    TwoDigitsValue(a);
    CentsReal(a);
    assert u[n + 3..] == [];
    TwoDecimals(u, n);
  }

  /** `parseFloat`'s reading of digits, a point and two decimals with no
      exponent after them. */
  lemma TwoDecimals(u: string, n: nat)
    requires DigitRun(u) == n && n < |u| && u[n] == '.' && DigitRun(u[n + 1..]) == 2
    requires Exponent(u[n + 3..]) == 0
    ensures ParseUnsigned(u) == Some(DigitsValue(u[..n]) as real + DigitsValue(u[n + 1..][..2]) as real / 100.0)
  {
    TwoDigitFraction(u[n + 1..][..2]);
    var x := DigitsValue(u[..n]) as real + Fraction(u[n + 1..][..2]);
    var end: nat := n + 3;
    assert ParseMantissa(u) == Some((x, end));
    assert Scaled(x, 0) == x by { assert Pow10(0) == 1; }
  }

  lemma TwoDigitFraction(digits: string)
    requires |digits| == 2 && AllDigits(digits)
    ensures Fraction(digits) == DigitsValue(digits) as real / 100.0
  {
    assert Pow10(2) == 100;
  }

  /** The layout of a rendered unsigned amount: the integer digits, then the
      point, then the two decimals. */
  lemma CentsTextParts(a: nat)
    ensures var u := UnsignedCentsText(a);
      var n := |NatText(a / 100)|;
      && DigitRun(u) == n && n < |u| && u[n] == '.'
      && u[..n] == NatText(a / 100)
      && u[n + 1..] == [DigitChar(a % 100 / 10), DigitChar(a % 10)]
  {
    var digits := NatText(a / 100);
    var tail := "." + [DigitChar(a % 100 / 10), DigitChar(a % 10)];
    assert UnsignedCentsText(a) == digits + tail;
    DigitRunAppend(digits, tail);
  }

  /** The two decimals form a run of two digits worth `a % 100`. */
  lemma TwoDigitsValue(a: nat)
    ensures var frac := [DigitChar(a % 100 / 10), DigitChar(a % 10)];
      DigitRun(frac) == 2 && DigitsValue(frac[..2]) == a % 100
  {
    var frac := [DigitChar(a % 100 / 10), DigitChar(a % 10)];
    DigitRunAppend(frac, []);
    assert frac + [] == frac;
    assert frac[..2] == frac;
    assert frac[..1] == [frac[0]];
    assert DigitsValue([frac[0]]) == DigitValue(frac[0]);
  }

  /** Whole units plus hundredths make up the amount. */
  lemma CentsReal(a: nat)
    ensures (a / 100) as real + (a % 100) as real / 100.0 == a as real / 100.0
  {
    assert a == 100 * (a / 100) + a % 100;
  }

  /** An integer's digits read back as that integer. */
  lemma NatTextParse(a: nat)
    ensures ParseUnsigned(NatText(a)) == Some(a as real)
  {
    var u := NatText(a);
    assert DigitRun(u) == |u| by {
      DigitRunAppend(u, []);
      assert u + [] == u;
    }
    assert u[..|u|] == u;
    assert u[|u|..] == [];
    NatTextValue(a);
    IntegerMantissa(u, |u|);
  }

  /** `parseFloat(String(i))` is `i`. */
  lemma ParseIntText(i: int)
    ensures ParseFloat(IntText(i)) == Some(i as real)
  {
    if i < 0 {
      NatTextParse(-i);
      ParseFloatNegative(NatText(-i), (-i) as real);
    } else {
      NatTextParse(i);
      ParseFloatUnsigned(NatText(i));
    }
  }

  /** Without a sign, `parseFloat` reads the unsigned number. */
  lemma ParseFloatUnsigned(t: string)
    requires t != [] && IsDigit(t[0])
    ensures ParseFloat(t) == ParseUnsigned(t)
  {
  }

  /** A leading minus negates the unsigned number after it. */
  lemma ParseFloatNegative(u: string, v: real)
    requires ParseUnsigned(u) == Some(v)
    ensures ParseFloat("-" + u) == Some(-v)
  {
    assert ("-" + u)[1..] == u;
  }

  /** Reading back a rendered amount with `parseFloat` yields exactly
      `cents / 100`. */
  lemma ParseCentsText(cents: int)
    ensures ParseFloat(CentsText(cents)) == Some(cents as real / 100.0)
  {
    if cents < 0 {
      NegativeCentsText(cents);
    } else {
      NonNegativeCentsText(cents);
    }
  }

  lemma NonNegativeCentsText(cents: int)
    requires cents >= 0
    ensures ParseFloat(CentsText(cents)) == Some(cents as real / 100.0)
  {
    var u := UnsignedCentsText(cents);
    UnsignedCentsValue(cents);
    assert CentsText(cents) == u;
    ParseFloatUnsigned(u);
  }

  /** `volume || "0"` read back: the "0" of an empty selection or the summed
      amount's text, as a number. */
  lemma ParseAmountOrZero(t: string, empty: bool, cents: int)
    requires empty ==> cents == 0
    requires t == if empty then "0" else CentsText(cents)
    ensures ParseFloat(t) == Some(cents as real / 100.0)
  {
    if empty {
      ParseZero();
    } else {
      ParseCentsText(cents);
    }
  }

  lemma NegativeCentsText(cents: int)
    requires cents < 0
    ensures ParseFloat(CentsText(cents)) == Some(cents as real / 100.0)
  {
    var u := UnsignedCentsText(-cents);
    UnsignedCentsValue(-cents);
    NegativeLayout(cents);
    ParseFloatNegative(u, (-cents) as real / 100.0);
  }

  lemma NegativeLayout(cents: int)
    requires cents < 0
    ensures CentsText(cents) == "-" + UnsignedCentsText(-cents)
  {
  }

}
