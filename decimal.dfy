/** Decimal rendering of integers with their exact digits, and its inverse.
    This is how a template literal renders an integral JavaScript number
    (`${port}`) up to 2^53 in magnitude; above that JavaScript pads the shortest
    round-trip digits with zeros, which this module does not follow. */
module Decimal {

  predicate IsDigit(c: char) {
    '0' <= c <= '9'
  }

  predicate AllDigits(s: string) {
    forall i :: 0 <= i < |s| ==> IsDigit(s[i])
  }

  function DigitChar(d: nat): (c: char)
    requires d < 10
    ensures IsDigit(c) && c as int - '0' as int == d
  {
    "0123456789"[d]
  }

  /** The shortest decimal numeral of `n`: digits only, never empty, and with
      a leading zero only for zero itself. */
  function NatToString(n: nat): (s: string)
    ensures |s| > 0 && AllDigits(s)
    ensures s[0] == '0' ==> n == 0 && s == "0"
    decreases n
  {
    if n < 10 then [DigitChar(n)] else NatToString(n / 10) + [DigitChar(n % 10)]
  }

  /** An optionally signed decimal numeral. */
  predicate IsNumeral(s: string) {
    AllDigits(s) || (|s| > 0 && s[0] == '-' && AllDigits(s[1..]))
  }

  /** A canonical numeral: an optional minus sign, then digits without a
      leading zero, except for zero itself, which is the unsigned `0`. */
  predicate IsCanonical(s: string) {
    var d := if |s| > 0 && s[0] == '-' then s[1..] else s;
    |d| > 0 && AllDigits(d) && (d[0] == '0' ==> s == "0")
  }

  /** An integer in decimal: the canonical numeral, with a leading minus
      sign exactly when negative. */
  function IntToString(n: int): (s: string)
    ensures IsNumeral(s) && IsCanonical(s)
    ensures |s| > 0 && (s[0] == '-' <==> n < 0)
  {
    if n < 0 then
      var s := "-" + NatToString(-n);
      assert s[1..] == NatToString(-n);
      s
    else NatToString(n)
  }

  /** The value of a string of decimal digits. */
  function ParseNat(s: string): nat
    requires AllDigits(s)
  {
    if s == [] then 0 else ParseNat(s[..|s| - 1]) * 10 + (s[|s| - 1] as int - '0' as int)
  }

  /** The value of an optionally signed decimal numeral. */
  function ParseInt(s: string): int
    requires IsNumeral(s)
  {
    if |s| > 0 && s[0] == '-' then 0 - ParseNat(s[1..]) else ParseNat(s)
  }

  lemma {:induction false} ParseNatToString(n: nat)
    ensures ParseNat(NatToString(n)) == n
    decreases n
  {
    if n >= 10 {
      var s := NatToString(n);
      ParseNatToString(n / 10);
      assert s[..|s| - 1] == NatToString(n / 10);
    }
  }

  /** Reading back the rendering of any integer gives the integer. */
  lemma {:induction false} IntToStringRoundTrip(n: int)
    ensures ParseInt(IntToString(n)) == n
  {
    var s := IntToString(n);
    if n < 0 {
      var m: nat := -n;
      assert s == "-" + NatToString(m);
      assert s[1..] == NatToString(m);
      ParseNatToString(m);
      assert ParseInt(s) == 0 - ParseNat(NatToString(m));
    } else {
      assert s == NatToString(n);
      assert s[0] != '-';
      ParseNatToString(n);
    }
  }

  /** Distinct integers render as distinct strings. */
  lemma IntToStringInjective(a: int, b: int)
    requires IntToString(a) == IntToString(b)
    ensures a == b
  {
    IntToStringRoundTrip(a);
    IntToStringRoundTrip(b);
  }

  /** A digit string not starting with `0` has a positive value. */
  lemma {:induction false} ParseNatPositive(s: string)
    requires AllDigits(s) && |s| > 0 && s[0] != '0'
    ensures ParseNat(s) > 0
    decreases |s|
  {
    if |s| > 1 {
      ParseNatPositive(s[..|s| - 1]);
    }
  }

  /** Two digit strings without leading zeros that have the same value are
      the same string. */
  lemma {:induction false} ParseNatUnique(a: string, b: string)
    requires AllDigits(a) && AllDigits(b)
    requires (|a| == 0 || a[0] != '0') && (|b| == 0 || b[0] != '0')
    requires ParseNat(a) == ParseNat(b)
    ensures a == b
    decreases |a|
  {
    if |a| == 0 {
      if |b| > 0 { ParseNatPositive(b); }
    } else if |b| == 0 {
      ParseNatPositive(a);
    } else {
      var a', b' := a[..|a| - 1], b[..|b| - 1];
      var x, y := a[|a| - 1] as int - '0' as int, b[|b| - 1] as int - '0' as int;
      assert ParseNat(a) == ParseNat(a') * 10 + x && 0 <= x < 10;
      assert ParseNat(b) == ParseNat(b') * 10 + y && 0 <= y < 10;
      assert x == y && ParseNat(a') == ParseNat(b');
      ParseNatUnique(a', b');
      assert a == a' + [a[|a| - 1]] && b == b' + [b[|b| - 1]];
    }
  }

  /** An integer has exactly one canonical numeral: any canonical numeral
      that reads as `n` is `IntToString(n)`. */
  lemma CanonicalUnique(s: string, n: int)
    requires IsCanonical(s) && ParseInt(s) == n
    ensures s == IntToString(n)
  {
    var t := IntToString(n);
    IntToStringRoundTrip(n);
    var ds := if s[0] == '-' then s[1..] else s;
    var dt := if t[0] == '-' then t[1..] else t;
    if ds[0] == '0' {
      assert s == "0" && n == 0;
      assert t == NatToString(0) == "0";
    } else {
      ParseNatPositive(ds);
      assert n != 0;
      assert dt[0] != '0';
      ParseNatUnique(ds, dt);
      if s[0] == '-' {
        assert s == [s[0]] + ds && t == [t[0]] + dt;
      }
    }
  }
}
