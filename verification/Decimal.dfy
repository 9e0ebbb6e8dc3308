/** Decimal numerals without leading zeros. */
module Decimal {
  predicate Digit(c: char) { '0' <= c <= '9' }

  function DigitChar(d: nat): (c: char)
    requires d < 10
    ensures Digit(c) && c as int - '0' as int == d
  {
    ('0' as int + d) as char
  }

  function DigitValue(c: char): (d: nat)
    requires Digit(c)
    ensures d < 10 && DigitChar(d) == c
  {
    c as int - '0' as int
  }

  predicate Digits(s: string) { forall i :: 0 <= i < |s| ==> Digit(s[i]) }

  function Print(n: nat): (s: string)
    ensures s != "" && Digits(s)
  {
    if n < 10 then [DigitChar(n)] else Print(n / 10) + [DigitChar(n % 10)]
  }

  function Value(s: string): nat
    requires Digits(s)
  {
    if s == "" then 0 else 10 * Value(s[..|s| - 1]) + DigitValue(s[|s| - 1])
  }

  /** A numeral in the only form a number is printed in. */
  predicate Canonical(s: string) { s != "" && Digits(s) && (|s| > 1 ==> s[0] != '0') }

  lemma {:induction false} PrintIsCanonical(n: nat)
    ensures Canonical(Print(n)) && Value(Print(n)) == n && (n > 0 ==> Print(n)[0] != '0')
  {
    var s := Print(n);
    if n >= 10 {
      PrintIsCanonical(n / 10);
      assert s[..|s| - 1] == Print(n / 10);
      assert s[0] == Print(n / 10)[0];
    } else {
      assert s[..0] == "";
    }
  }

  lemma OneDigit(s: string)
    requires |s| == 1 && Digits(s)
    ensures Value(s) == DigitValue(s[0]) && Print(Value(s)) == s
  {
    assert s[..0] == "" && s == [s[0]];
  }

  /** Another digit behind a numeral that is not zero. */
  lemma MoreDigits(init: string, last: char)
    requires Digits(init) && Digit(last) && Value(init) > 0 && Print(Value(init)) == init
    ensures var s := init + [last];
            Digits(s) && Value(s) >= 10 && Print(Value(s)) == s
  {
    var s := init + [last];
    assert s[..|s| - 1] == init && s[|s| - 1] == last;
  }

  lemma {:induction false} CanonicalIsPrinted(s: string)
    requires Canonical(s)
    ensures Print(Value(s)) == s
    ensures |s| > 1 ==> Value(s) >= 10
  {
    if |s| == 1 {
      OneDigit(s);
    } else {
      var init := s[..|s| - 1];
      assert s == init + [s[|s| - 1]] && init[0] == s[0];
      CanonicalIsPrinted(init);
      if |init| == 1 { OneDigit(init); }
      hide Print, Value;
      MoreDigits(init, s[|s| - 1]);
    }
  }

  function Power(k: nat): (p: nat)
    ensures p > 0
  {
    if k == 0 then 1 else 10 * Power(k - 1)
  }

  lemma {:induction false} PrintLength(n: nat, k: nat)
    requires k > 0 && n < Power(k)
    ensures |Print(n)| <= k
  {
    if n >= 10 { PrintLength(n / 10, k - 1); }
  }
}
