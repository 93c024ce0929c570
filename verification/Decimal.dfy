/** Decimal text of integers, as std::to_string and the JSON writer print them. */
module Decimal {

  predicate IsDigit(c: char) {
    '0' <= c <= '9'
  }

  function DigitChar(d: nat): (c: char)
    requires d < 10
    ensures IsDigit(c)
  {
    '0' + d as char
  }

  function DigitValue(c: char): (d: nat)
    requires IsDigit(c)
    ensures d < 10
  {
    c as int - '0' as int
  }

  function Digits(n: nat): (s: string)
    ensures s != [] && forall i :: 0 <= i < |s| ==> IsDigit(s[i])
  {
    if n < 10 then [DigitChar(n)] else Digits(n / 10) + [DigitChar(n % 10)]
  }

  function Value(s: string): nat
    requires forall i :: 0 <= i < |s| ==> IsDigit(s[i])
  {
    if s == [] then 0 else 10 * Value(s[..|s| - 1]) + DigitValue(s[|s| - 1])
  }

  /** The printed digits denote the number, and only zero starts with '0'. */
  lemma {:induction false} DigitsDenote(n: nat)
    ensures Value(Digits(n)) == n
    ensures Digits(n)[0] == '0' ==> n == 0
  {
    var s := Digits(n);
    if n < 10 {
      assert s[..0] == [];
    } else {
      DigitsDenote(n / 10);
      assert s[..|s| - 1] == Digits(n / 10);
      assert s[0] == Digits(n / 10)[0];
    }
  }

  /** Base ten, most significant digit first. */
  lemma DigitsInOrder()
    ensures Digits(1234567890) == "1234567890"
  {
    assert Digits(1) == "1";
    assert Digits(12) == Digits(1) + "2" && Digits(123) == Digits(12) + "3";
    assert Digits(1234) == Digits(123) + "4" && Digits(12345) == Digits(1234) + "5";
    assert Digits(123456) == Digits(12345) + "6" && Digits(1234567) == Digits(123456) + "7";
    assert Digits(12345678) == Digits(1234567) + "8" && Digits(123456789) == Digits(12345678) + "9";
  }

  lemma DigitsInjective(m: nat, n: nat)
    requires Digits(m) == Digits(n)
    ensures m == n
  {
    DigitsDenote(m);
    DigitsDenote(n);
  }
}
