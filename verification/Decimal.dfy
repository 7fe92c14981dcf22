/** Plain decimal numerals, as an output stream prints a non-negative `int`. */
module Decimal {

  predicate IsDigit(c: char) { '0' <= c <= '9' }

  function DigitValue(c: char): (d: nat)
    requires IsDigit(c)
    ensures d < 10
  {
    (c - '0') as int
  }

  function Digit(d: nat): (c: char)
    requires d < 10
    ensures IsDigit(c) && DigitValue(c) == d
  {
    '0' + d as char
  }

  predicate Numeral(s: string) {
    s != "" && forall i :: 0 <= i < |s| ==> IsDigit(s[i])
  }

  /** The number that a string of digits stands for. */
  function Value(s: string): nat
    requires forall i :: 0 <= i < |s| ==> IsDigit(s[i])
  {
    if s == "" then 0 else Value(s[..|s| - 1]) * 10 + DigitValue(s[|s| - 1])
  }

  function Print(n: nat): string {
    if n < 10 then [Digit(n)] else Print(n / 10) + [Digit(n % 10)]
  }

  /** A printed number is a numeral without a leading zero, and stands for the number. */
  lemma {:induction false} PrintMeaning(n: nat)
    ensures Numeral(Print(n)) && Value(Print(n)) == n
    ensures Print(n)[0] == '0' <==> n == 0
  {
    if n < 10 {
      assert Print(n) == [Digit(n)];
      assert Print(n)[..0] == "";
    } else {
      var q := Print(n / 10);
      PrintMeaning(n / 10);
      assert Print(n)[..|q|] == q;
      assert Print(n)[0] == q[0];
    }
  }

  /** Two numbers print alike only if they are equal. */
  lemma PrintInjective(a: nat, b: nat)
    ensures Print(a) == Print(b) <==> a == b
  {
    PrintMeaning(a);
    PrintMeaning(b);
  }
}
