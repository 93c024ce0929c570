/** What a JSON number means to the reader, by section 6 of RFC 8259: sign, digits, fraction and exponent. */
module JsonNumbers {
  import opened Common
  import opened Decimal
  import opened JsonText
  import opened JsonRoundTrip

  predicate AllDigits(s: string) {
    forall i :: 0 <= i < |s| ==> IsDigit(s[i])
  }

  predicate StartsDigit(s: string) {
    s != [] && IsDigit(s[0])
  }

  /** No exponent, or its mark and optional sign. */
  datatype Mark = NoMark | Mark(capital: bool, sign: Option<bool>)

  function MarkText(mark: Mark): string {
    match mark
    case NoMark => ""
    case Mark(capital, sign) =>
      (if capital then "E" else "e") + if sign.None? then "" else if sign.value then "+" else "-"
  }

  predicate IsDown(mark: Mark) {
    mark.Mark? && mark.sign == Some(false)
  }

  function FractionText(fraction: string): string {
    if fraction == "" then "" else "." + fraction
  }

  lemma {:induction false} PowersOfTen(a: nat, b: nat)
    ensures Pow10(0) == 1.0 && Pow10(1) == 10.0 && Pow10(a + b) == Pow10(a) * Pow10(b)
  {
    assert Pow10(1) == 10.0 * Pow10(0);
    if a > 0 {
      PowersOfTen(a - 1, b);
      assert Pow10(a + b) == 10.0 * Pow10(a + b - 1);
      assert Pow10(a) == 10.0 * Pow10(a - 1);
    }
  }

  function FractionValue(fraction: string): real
    requires AllDigits(fraction)
  {
    if fraction == "" then 0.0 else Value(fraction) as real / Pow10(|fraction|)
  }

  lemma FractionReads(fraction: string, rest: string)
    requires AllDigits(fraction) && !StartsDigit(rest) && (fraction == "" ==> !Starts(rest, '.'))
    ensures ReadFraction(FractionText(fraction) + rest) == Some(Found(FractionValue(fraction), rest))
  {
    if fraction == "" {
      NoPoint(FractionText(fraction) + rest, rest);
    } else {
      DigitsFollow(fraction, rest);
      var s := "." + fraction + rest;
      assert s[1..] == fraction + rest;
      PointReads(s, fraction, rest);
    }
  }

  lemma NoPoint(s: string, rest: string)
    requires s == "" + rest && !Starts(rest, '.')
    ensures s == rest && ReadFraction(s) == Some(Found(0.0, rest))
  {
    hide Value, Pow10, Run;
  }

  lemma DigitsFollow(digits: string, rest: string)
    requires AllDigits(digits) && !StartsDigit(rest)
    ensures var t := digits + rest; Run(t) == |digits| && t[..|digits|] == digits && t[|digits|..] == rest
  {
    RunOfDigits(digits, rest);
  }

  lemma PointReads(s: string, fraction: string, rest: string)
    requires Starts(s, '.') && AllDigits(fraction) && fraction != "" && s[1..] == fraction + rest
    requires var t := fraction + rest; Run(t) == |fraction| && t[..|fraction|] == fraction && t[|fraction|..] == rest
    ensures ReadFraction(s) == Some(Found(FractionValue(fraction), rest))
  {
    hide Value, Pow10, Run;
  }

  lemma ExponentReads(mark: Mark, digits: string, rest: string)
    requires AllDigits(digits) && !StartsDigit(rest) && (mark.NoMark? <==> digits == "")
    requires mark.NoMark? ==> !Starts(rest, 'e') && !Starts(rest, 'E')
    ensures ReadExponent(MarkText(mark) + (digits + rest)) == Some(Found(Signed(Value(digits), IsDown(mark)), rest))
  {
    if mark.NoMark? {
      assert MarkText(mark) + (digits + rest) == rest && Value("") == 0;
    } else {
      hide Value, Run;
      DigitsFollow(digits, rest);
      var s, t := MarkText(mark) + (digits + rest), digits + rest;
      assert IsDigit(t[0]);
      if mark.sign.None? {
        assert s[1..] == t;
        UnsignedReads(s, t);
      } else {
        assert s[2..] == t;
        SignedReads(s, t);
      }
    }
  }

  lemma UnsignedReads(s: string, t: string)
    requires (Starts(s, 'e') || Starts(s, 'E')) && s[1..] == t && t != [] && IsDigit(t[0]) && Run(t) > 0
    ensures ReadExponent(s) == Some(Found(Value(t[..Run(t)]), t[Run(t)..]))
  {
    hide Value, Run;
  }

  lemma SignedReads(s: string, t: string)
    requires (Starts(s, 'e') || Starts(s, 'E')) && |s| >= 2 && s[1] in {'+', '-'} && s[2..] == t && Run(t) > 0
    ensures ReadExponent(s) == Some(Found(Signed(Value(t[..Run(t)]), s[1] == '-'), t[Run(t)..]))
  {
    hide Value, Run;
    assert s[1..][0] == s[1];
  }

  function Signed(e: nat, down: bool): int {
    if down then 0 - e else e
  }

  function Unscaled(whole: nat, fraction: string): real
    requires AllDigits(fraction)
  {
    whole as real + FractionValue(fraction)
  }

  /** The digits before and after the point, as one whole number. */
  function Mantissa(whole: nat, fraction: string): real
    requires AllDigits(fraction)
  {
    whole as real * Pow10(|fraction|) + Value(fraction) as real
  }

  /** Ten for each digit after the point, and for each unit of the exponent, stands between x and its digits. */
  ghost predicate IsValueOf(x: real, whole: nat, fraction: string, mark: Mark, digits: string)
    requires AllDigits(fraction) && AllDigits(digits)
  {
    var p, q, m := Pow10(|fraction|), Pow10(Value(digits)), Mantissa(whole, fraction);
    if IsDown(mark) then x * p * q == m else x * p == m * q
  }

  lemma ScaledIsValue(whole: nat, fraction: string, mark: Mark, digits: string)
    requires AllDigits(fraction) && AllDigits(digits)
    ensures IsValueOf(Scaled(Unscaled(whole, fraction), Signed(Value(digits), IsDown(mark))), whole, fraction, mark, digits)
  {
    hide Pow10, Value, Scaled, Unscaled, Mantissa, IsDown, Signed;
    var x := Scaled(Unscaled(whole, fraction), Signed(Value(digits), IsDown(mark)));
    PointShifts(whole, fraction);
    ScaledBack(Unscaled(whole, fraction), Value(digits), IsDown(mark), x);
    var p, q, m := Pow10(|fraction|), Pow10(Value(digits)), Mantissa(whole, fraction);
    Combined(x, Unscaled(whole, fraction), p, q, m, IsDown(mark));
  }

  /**
   * A number is its digits with the point taken out, divided by ten for each digit after the point, and then
   * multiplied or divided by ten as often as the exponent says.
   */
  lemma NumberMeans(negative: bool, whole: nat, fraction: string, mark: Mark, digits: string, rest: string)
    returns (x: real)
    requires AllDigits(fraction) && AllDigits(digits) && (mark.NoMark? <==> digits == "") && EndsNumber(rest)
    ensures ReadNumber((if negative then "-" else "") + (Digits(whole) + (FractionText(fraction) + (MarkText(mark) + (digits + rest))))) ==
            Some(Found(if negative then -x else x, rest))
    ensures IsValueOf(x, whole, fraction, mark, digits)
  {
    hide IsValueOf, ReadNumber, EndsNumber, Digits, FractionText, MarkText;
    x := Scaled(Unscaled(whole, fraction), Signed(Value(digits), IsDown(mark)));
    ScaledIsValue(whole, fraction, mark, digits);
    NumberReads(negative, whole, fraction, mark, digits, rest, x);
  }

  lemma NumberReads(negative: bool, whole: nat, fraction: string, mark: Mark, digits: string, rest: string, x: real)
    requires AllDigits(fraction) && AllDigits(digits) && (mark.NoMark? <==> digits == "") && EndsNumber(rest)
    requires x == Scaled(Unscaled(whole, fraction), Signed(Value(digits), IsDown(mark)))
    ensures ReadNumber((if negative then "-" else "") + (Digits(whole) + (FractionText(fraction) + (MarkText(mark) + (digits + rest))))) ==
            Some(Found(if negative then -x else x, rest))
  {
    hide ReadInt, ReadFraction, ReadExponent, Digits, MarkText, FractionText, Scaled, Pow10;
    var tail := MarkText(mark) + (digits + rest);
    var body := Digits(whole) + (FractionText(fraction) + tail);
    TailStarts(fraction, mark, digits, rest);
    ReadIntOfDigits(whole, FractionText(fraction) + tail);
    FractionReads(fraction, tail);
    ExponentReads(mark, digits, rest);
    var s := (if negative then "-" else "") + body;
    if negative {
      assert s[1..] == body;
    } else {
      assert s == body;
      NoMinus(whole, FractionText(fraction) + tail);
    }
  }

  lemma NoMinus(n: nat, rest: string)
    ensures !Starts(Digits(n) + rest, '-')
  {
  }

  /** What follows the integer part, and what follows the fraction, is never taken for more of it. */
  lemma TailStarts(fraction: string, mark: Mark, digits: string, rest: string)
    requires AllDigits(digits) && (mark.NoMark? <==> digits == "") && EndsNumber(rest)
    ensures var tail := MarkText(mark) + (digits + rest);
            !StartsDigit(tail) && !Starts(tail, '.') && !StartsDigit(FractionText(fraction) + tail)
  {
    if mark.NoMark? {
      assert MarkText(mark) + (digits + rest) == rest;
    }
  }

  lemma ScaledBack(y: real, e: nat, down: bool, x: real)
    requires x == Scaled(y, Signed(e, down))
    ensures if down then x * Pow10(e) == y else x == y * Pow10(e)
  {
    NoPower();
    hide Pow10;
    if down {
      Quotient(y, Pow10(e), x);
    }
  }

  lemma Combined(x: real, y: real, p: real, q: real, m: real, down: bool)
    requires y * p == m && if down then x * q == y else x == y * q
    ensures if down then x * p * q == m else x * p == m * q
  {
    if down {
      Reordered(x, p, q);
    } else {
      Reordered(y, q, p);
    }
  }

  lemma NoPower()
    ensures Pow10(0) == 1.0
  {
  }

  lemma PointShifts(whole: nat, fraction: string)
    requires AllDigits(fraction)
    ensures Unscaled(whole, fraction) * Pow10(|fraction|) == Mantissa(whole, fraction)
  {
    NoPower();
    assert Value("") == 0;
    hide Pow10, Value, AllDigits;
    if fraction != "" {
      var p, f := Pow10(|fraction|), Value(fraction) as real / Pow10(|fraction|);
      Quotient(Value(fraction) as real, p, f);
      Distributes(whole as real, f, p);
    }
  }

  lemma Distributes(a: real, b: real, p: real)
    ensures (a + b) * p == a * p + b * p
  {
  }

  lemma Reordered(x: real, p: real, q: real)
    ensures (x * p) * q == (x * q) * p
  {
  }

  lemma Quotient(y: real, q: real, x: real)
    requires q > 0.0 && (x == y / q || (q == 1.0 && x == y * q))
    ensures x * q == y
  {
  }
}
