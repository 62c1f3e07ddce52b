/**
 Decimal digit runs: reading the leading digits of a string, their value, and
 the canonical rendering of a natural number. Integers are unbounded here; the
 `uint` wrap-around of very long digit runs is not modelled.
 */
module Decimal {

  predicate IsDigit(c: char) {
    '0' <= c <= '9'
  }

  predicate AllDigits(s: string) {
    forall i :: 0 <= i < |s| ==> IsDigit(s[i])
  }

  /** Plain decimal text: at least one digit and no redundant leading zero ("0", "15", never "", "07"). */
  predicate Canonical(s: string) {
    |s| > 0 && AllDigits(s) && (s[0] == '0' ==> |s| == 1)
  }

  function DigitValue(c: char): (v: nat)
    requires IsDigit(c)
    ensures v < 10
  {
    c as int - '0' as int
  }

  function DigitChar(v: nat): (c: char)
    requires v < 10
    ensures IsDigit(c) && DigitValue(c) == v
  {
    ('0' as int + v) as char
  }

  /** The value of a run of decimal digits, most significant first; the empty run is 0. */
  function ValueOf(s: string): nat
    requires AllDigits(s)
    decreases |s|
  {
    if |s| == 0 then 0 else ValueOf(s[..|s| - 1]) * 10 + DigitValue(s[|s| - 1])
  }

  /** The decimal rendering of `n`, which reads back as `n`. */
  function NatToString(n: nat): (s: string)
    ensures Canonical(s)
    ensures ValueOf(s) == n
    ensures s[0] == '0' <==> n == 0
  {
    if n < 10 then [DigitChar(n)] else NatToString(n / 10) + [DigitChar(n % 10)]
  }

  /** The longest prefix of `s` made of decimal digits. */
  function LeadingDigits(s: string): (d: string)
    ensures d <= s
    ensures AllDigits(d)
    ensures |d| == |s| || !IsDigit(s[|d|])
  {
    if |s| > 0 && IsDigit(s[0]) then [s[0]] + LeadingDigits(s[1..]) else []
  }

  /** A digit run followed by a non-digit (or nothing) is exactly what `LeadingDigits` reads. */
  lemma {:induction false} LeadingDigitsOfRun(d: string, t: string)
    requires AllDigits(d)
    requires |t| == 0 || !IsDigit(t[0])
    ensures LeadingDigits(d + t) == d
  {
    if |d| > 0 {
      assert (d + t)[1..] == d[1..] + t;
      LeadingDigitsOfRun(d[1..], t);
      assert [d[0]] + d[1..] == d;
    }
  }

  /** A run of digits whose first digit is not 0 has a positive value. */
  lemma {:induction false} PositiveValue(s: string)
    requires |s| > 0 && AllDigits(s) && s[0] != '0'
    ensures ValueOf(s) > 0
  {
    if |s| > 1 {
      var p := s[..|s| - 1];
      assert p[0] == s[0];
      PositiveValue(p);
    }
  }

  /** Canonical decimal text is the rendering of its own value. */
  lemma {:induction false} CanonicalRoundTrip(s: string)
    requires Canonical(s)
    ensures NatToString(ValueOf(s)) == s
  {
    var n := ValueOf(s);
    var p := s[..|s| - 1];
    var last := s[|s| - 1];
    if |s| == 1 {
      assert ValueOf(p) == 0;
      assert NatToString(n) == [DigitChar(DigitValue(last))];
      assert DigitChar(DigitValue(last)) == last;
    } else {
      assert p[0] == s[0];
      PositiveValue(p);
      CanonicalRoundTrip(p);
      assert n / 10 == ValueOf(p) && n % 10 == DigitValue(last);
      assert DigitChar(DigitValue(last)) == last;
      assert NatToString(n) == NatToString(ValueOf(p)) + [last] == p + [last];
      assert p + [last] == s;
    }
  }
}
