/**
 * Decimal text of integers, as a template literal prints an integral
 * number, and the matching reader used to show that tile names can be read
 * back.
 */
module Decimal {
  import opened Wrappers

  predicate IsDigit(c: char) {
    '0' <= c <= '9'
  }

  predicate AllDigits(s: string) {
    forall i :: 0 <= i < |s| ==> IsDigit(s[i])
  }

  function DigitChar(d: int): (c: char)
    requires 0 <= d < 10
    ensures IsDigit(c)
  {
    "0123456789"[d]
  }

  function DigitValue(c: char): (d: int)
    requires IsDigit(c)
    ensures 0 <= d < 10
  {
    c as int - '0' as int
  }

  /** The digits of `n`, most significant first, without leading zeros. */
  function NatToString(n: nat): (s: string)
    ensures |s| >= 1 && AllDigits(s)
    ensures s[0] == '0' <==> n == 0
    ensures |s| == 1 <==> n < 10
    decreases n
  {
    if n < 10 then [DigitChar(n)] else NatToString(n / 10) + [DigitChar(n % 10)]
  }

  /** `${n}` for an integral number: a minus sign before the digits of a negative one. */
  function IntToString(n: int): (s: string)
    ensures |s| >= 1
    ensures s[0] == '-' <==> n < 0
    ensures n < 0 ==> |s| >= 2 && AllDigits(s[1..]) && s[1] != '0'
    ensures n >= 0 ==> AllDigits(s) && (s[0] == '0' <==> n == 0)
  {
    if n < 0 then "-" + NatToString(-n) else NatToString(n)
  }

  /** The value of a string of digits. */
  function DigitsValue(s: string): nat
    requires AllDigits(s)
    decreases |s|
  {
    if s == [] then 0 else DigitsValue(s[..|s| - 1]) * 10 + DigitValue(s[|s| - 1])
  }

  lemma {:induction false} NatToStringValue(n: nat)
    ensures DigitsValue(NatToString(n)) == n
    decreases n
  {
    if n >= 10 {
      NatToStringValue(n / 10);
      var s := NatToString(n);
      assert s[..|s| - 1] == NatToString(n / 10);
      assert DigitValue(DigitChar(n % 10)) == n % 10 by {
        assert "0123456789"[n % 10] as int - '0' as int == n % 10;
      }
    } else {
      assert DigitValue(DigitChar(n)) == n;
    }
  }

  /** The length of the run of digits at the start of `s`. */
  function DigitRun(s: string): (k: nat)
    ensures k <= |s| && AllDigits(s[..k]) && (k == |s| || !IsDigit(s[k]))
    decreases |s|
  {
    if s == [] || !IsDigit(s[0]) then 0
    else
      var k := DigitRun(s[1..]);
      assert s[..k + 1] == [s[0]] + s[1..][..k];
      k + 1
  }

  lemma {:induction false} DigitRunOf(ds: string, rest: string)
    requires AllDigits(ds) && (rest == [] || !IsDigit(rest[0]))
    ensures DigitRun(ds + rest) == |ds|
    decreases |ds|
  {
    if ds != [] {
      assert (ds + rest)[1..] == ds[1..] + rest;
      DigitRunOf(ds[1..], rest);
    }
  }

  /** Reads an optional minus sign and at least one digit off the front of `s`. */
  function ReadInt(s: string): Option<(int, string)> {
    var neg := |s| > 0 && s[0] == '-';
    var body := if neg then s[1..] else s;
    var k := DigitRun(body);
    if k == 0 then None
    else
      var v: int := DigitsValue(body[..k]);
      Some((if neg then -v else v, body[k..]))
  }

  /** Reading the text of `n` gives `n` back, with the rest of the string untouched. */
  lemma ReadIntRoundTrip(n: int, rest: string)
    requires rest == [] || !IsDigit(rest[0])
    ensures ReadInt(IntToString(n) + rest) == Some((n, rest))
  {
    if n < 0 {
      var ds := NatToString(-n);
      assert IntToString(n) == "-" + ds;
      ReadNegative(-n, rest);
    } else {
      assert IntToString(n) == NatToString(n);
      ReadNonNegative(n, rest);
    }
  }

  /** The digits of `m` followed by `rest`: the run is exactly those digits, and their value is `m`. */
  lemma ReadDigits(m: nat, rest: string)
    requires rest == [] || !IsDigit(rest[0])
    ensures var ds := NatToString(m);
      && DigitRun(ds + rest) == |ds|
      && (ds + rest)[..|ds|] == ds && (ds + rest)[|ds|..] == rest
      && DigitsValue(ds) == m
  {
    var ds := NatToString(m);
    DigitRunOf(ds, rest);
    assert (ds + rest)[..|ds|] == ds && (ds + rest)[|ds|..] == rest;
    NatToStringValue(m);
  }

  /** A minus sign, the digits of `m`, then `rest`, reads as `-m`. */
  lemma ReadNegative(m: nat, rest: string)
    requires rest == [] || !IsDigit(rest[0])
    ensures ReadInt("-" + NatToString(m) + rest) == Some((-(m as int), rest))
  {
    var ds := NatToString(m);
    ReadDigits(m, rest);
    var s := "-" + ds + rest;
    assert s[0] == '-' && s[1..] == ds + rest;
  }

  /** The digits of `n`, then `rest`, read as `n`. */
  lemma ReadNonNegative(n: nat, rest: string)
    requires rest == [] || !IsDigit(rest[0])
    ensures ReadInt(NatToString(n) + rest) == Some((n, rest))
  {
    var ds := NatToString(n);
    ReadDigits(n, rest);
    assert IsDigit(ds[0]);
  }
}
