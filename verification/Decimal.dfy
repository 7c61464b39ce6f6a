/** Decimal printing of counters and cursors, and reading a 64-bit number back. */
module Decimal {
  import opened Wrappers
  import opened Store

  function Digit(d: nat): char
    requires d < 10
  {
    (48 + d) as char
  }

  predicate IsDigit(ch: char) {
    '0' <= ch <= '9'
  }

  predicate AllAreDigits(s: string) {
    forall i :: 0 <= i < |s| ==> IsDigit(s[i])
  }

  function Print(n: nat): (s: string)
    ensures |s| > 0
  {
    if n < 10 then [Digit(n)] else Print(n / 10) + [Digit(n % 10)]
  }

  /** The number a string of digits stands for. */
  function Value(s: string): nat
    requires AllAreDigits(s)
  {
    if s == [] then 0
    else
      assert IsDigit(s[|s| - 1]);
      10 * Value(s[..|s| - 1]) + (s[|s| - 1] as int - 48)
  }

  /** Reads an unsigned 64-bit number: an optional plus sign, then digits, no overflow. */
  function ParseU64(s: string): Option<U64> {
    var digits := if s != [] && s[0] == '+' then s[1..] else s;
    if digits == [] || !AllAreDigits(digits) then None
    else if Value(digits) <= U64_MAX then Some(Value(digits))
    else None
  }

  lemma {:induction false} PrintIsDigits(n: nat)
    ensures AllAreDigits(Print(n))
    ensures Value(Print(n)) == n
  {
    if n >= 10 {
      PrintIsDigits(n / 10);
      assert Print(n)[..|Print(n)| - 1] == Print(n / 10);
    } else {
      assert Print(n)[..0] == [];
    }
  }

  /** No digit more than needed: a printed number starts with 0 only when it is 0. */
  lemma {:induction false} PrintHasNoLeadingZero(n: nat)
    ensures Print(n)[0] == '0' <==> n == 0
  {
    if n >= 10 {
      PrintHasNoLeadingZero(n / 10);
    }
  }

  /** Different numbers print differently. */
  lemma PrintInjective(m: nat, n: nat)
    requires Print(m) == Print(n)
    ensures m == n
  {
    PrintIsDigits(m);
    PrintIsDigits(n);
  }

  /** A printed 64-bit number reads back as itself. */
  lemma ParsePrint(n: U64)
    ensures ParseU64(Print(n)) == Some(n)
  {
    PrintIsDigits(n);
  }

  /** All digits in their place. */
  lemma AllDigits()
    ensures Print(9876543210) == "9876543210"
  {
    assert Print(98765) == "98765";
  }

  /** The text is the number's digits, any leading zeros and one plus sign being allowed. */
  predicate Spells(s: string, n: nat) {
    || (s != "" && AllAreDigits(s) && Value(s) == n)
    || (|s| > 1 && s[0] == '+' && AllAreDigits(s[1..]) && Value(s[1..]) == n)
  }

  /** A text is read as a number exactly when it spells one of 64 bits. */
  lemma ParseExactly(s: string, n: U64)
    ensures ParseU64(s) == Some(n) <==> Spells(s, n)
  {
    if s != [] && s[0] == '+' {
      assert !IsDigit(s[0]) && !AllAreDigits(s);
    }
  }
}
