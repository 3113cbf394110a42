/** Decimal numerals, as printed by "%d" and "%zu" and read back by strtol. */
module Decimals {

  predicate IsDigit(c: char) {
    '0' <= c <= '9'
  }

  function Digit(d: nat): (c: char)
    requires d < 10
    ensures IsDigit(c)
  {
    ('0' as int + d) as char
  }

  function DigitValue(c: char): nat
    requires IsDigit(c)
  {
    c as int - '0' as int
  }

  function Decimal(n: nat): string {
    if n < 10 then [Digit(n)] else Decimal(n / 10) + [Digit(n % 10)]
  }

  predicate AllDigits(s: string) {
    forall i :: 0 <= i < |s| ==> IsDigit(s[i])
  }

  function ParseDigits(s: string): nat
    requires AllDigits(s)
  {
    if s == "" then 0 else 10 * ParseDigits(s[..|s| - 1]) + DigitValue(s[|s| - 1])
  }

  lemma {:induction false} DecimalRoundTrip(n: nat)
    ensures |Decimal(n)| > 0 && AllDigits(Decimal(n)) && ParseDigits(Decimal(n)) == n
  {
    if n >= 10 {
      DecimalRoundTrip(n / 10);
      assert Decimal(n)[..|Decimal(n)| - 1] == Decimal(n / 10);
    } else {
      assert Decimal(n)[..0] == "";
    }
  }

  lemma DecimalInjective(m: nat, n: nat)
    requires Decimal(m) == Decimal(n)
    ensures m == n
  {
    DecimalRoundTrip(m);
    DecimalRoundTrip(n);
  }

  /** Two ways of splitting a string at a separator before nothing but digits are the same split. */
  lemma LastSeparator(a: string, x: string, b: string, y: string, separator: char)
    requires !IsDigit(separator) && AllDigits(x) && AllDigits(y)
    requires a + [separator] + x == b + [separator] + y
    ensures a == b && x == y
  {
    var s, t := a + [separator] + x, b + [separator] + y;
    assert s[|a|] == separator == t[|b|];
    assert forall i :: |a| < i < |s| ==> s[i] == x[i - |a| - 1];
    assert forall i :: |b| < i < |t| ==> t[i] == y[i - |b| - 1];
    assert |a| == |b|;
    assert a == s[..|a|] && b == t[..|b|] && x == s[|a| + 1..] && y == t[|b| + 1..];
  }

  /** A numeral after a non-digit is the same numeral, whatever came before. */
  lemma SuffixNumeral(a: string, m: nat, b: string, n: nat, separator: char)
    requires !IsDigit(separator) && a + [separator] + Decimal(m) == b + [separator] + Decimal(n)
    ensures m == n && a == b
  {
    DecimalRoundTrip(m);
    DecimalRoundTrip(n);
    LastSeparator(a, Decimal(m), b, Decimal(n), separator);
  }
}
