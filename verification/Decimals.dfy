/** Natural numbers in decimal, as JavaScript writes them. */
module Decimals {

  predicate IsDigit(c: char) { '0' <= c <= '9' }

  function Digit(n: nat): (c: char)
    requires n < 10
    ensures IsDigit(c) && DigitValue(c) == n
  {
    "0123456789"[n]
  }

  function DigitValue(c: char): (n: nat)
    requires IsDigit(c)
    ensures n < 10
  {
    c as int - '0' as int
  }

  function Digits(n: nat): (s: string)
    ensures s != "" && forall c <- s :: IsDigit(c)
    ensures n > 0 ==> s[0] != '0'
  {
    if n < 10 then [Digit(n)] else Digits(n / 10) + [Digit(n % 10)]
  }

  function ValueOf(s: string): nat
    requires forall c <- s :: IsDigit(c)
  {
    if s == "" then 0 else ValueOf(s[..|s| - 1]) * 10 + DigitValue(s[|s| - 1])
  }

  lemma {:induction false} ValueOfDigits(n: nat)
    ensures ValueOf(Digits(n)) == n
  {
    if n < 10 {
      assert Digits(n)[..0] == "";
    } else {
      ValueOfDigits(n / 10);
      assert Digits(n)[..|Digits(n)| - 1] == Digits(n / 10);
    }
  }

  lemma DigitOfValue(c: char)
    requires IsDigit(c)
    ensures Digit(DigitValue(c)) == c
  {
  }

  /** Digits without a leading zero are the only spelling of their value. */
  lemma {:induction false} DigitsOfValue(d: string)
    requires d != "" && (forall c <- d :: IsDigit(c)) && (|d| > 1 ==> d[0] != '0')
    ensures Digits(ValueOf(d)) == d
  {
    var n := |d| - 1;
    DigitOfValue(d[n]);
    if n > 0 {
      DigitsOfValue(d[..n]);
      IsPositive(d[..n]);
      DigitsStep(ValueOf(d[..n]), DigitValue(d[n]));
    } else {
      assert ValueOf(d[..0]) == 0;
    }
  }

  lemma {:induction false} IsPositive(d: string)
    requires d != "" && (forall c <- d :: IsDigit(c)) && d[0] != '0'
    ensures 0 < ValueOf(d)
  {
    if |d| > 1 {
      IsPositive(d[..|d| - 1]);
    }
  }

  lemma DigitsStep(v: nat, k: nat)
    requires 0 < v && k < 10
    ensures Digits(v * 10 + k) == Digits(v) + [Digit(k)]
  {
  }

  function Power10(k: nat): nat { if k == 0 then 1 else 10 * Power10(k - 1) }

  lemma {:induction false} DigitsLength(n: nat, k: nat)
    requires 1 <= k && n < Power10(k)
    ensures |Digits(n)| <= k
  {
    if n >= 10 {
      assert Power10(1) == 10 * Power10(0);
      DigitsLength(n / 10, k - 1);
    }
  }

  /** The longest prefix of digits. */
  function LeadingDigits(s: string): (d: string)
    ensures d <= s && forall c <- d :: IsDigit(c)
  {
    if s == "" || !IsDigit(s[0]) then "" else [s[0]] + LeadingDigits(s[1..])
  }

  lemma {:induction false} LeadingDigitsOf(d: string, rest: string)
    requires (forall c <- d :: IsDigit(c)) && (rest == "" || !IsDigit(rest[0]))
    ensures LeadingDigits(d + rest) == d
  {
    if d == "" {
      assert d + rest == rest;
    } else {
      assert (d + rest)[1..] == d[1..] + rest;
      LeadingDigitsOf(d[1..], rest);
    }
  }
}
