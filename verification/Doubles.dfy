/**
 * Rounding a decimal to the nearest double: 53 significant bits, ties to even. Overflow and the gradual
 * underflow next to zero are not distinguished; neither changes which int a number becomes.
 */
module Doubles {

  const LEAST: real := 4503599627370496.0
  const BEYOND: real := 9007199254740992.0

  /** The nearest integer, the even one of two equally near. */
  function RoundEven(y: real): int {
    var f := y.Floor;
    var part := y - f as real;
    if part < 0.5 || (part == 0.5 && f % 2 == 0) then f else f + 1
  }

  /** How many halvings or doublings bring a magnitude into [2^52, 2^53), or more. */
  function Distance(a: real): nat
    requires a > 0.0
  {
    if a >= BEYOND then a.Floor else if a < LEAST then (LEAST / a).Floor else 0
  }

  lemma Nearer(a: real)
    requires a > 0.0
    ensures a >= BEYOND ==> Distance(a / 2.0) < Distance(a)
    ensures a < LEAST ==> Distance(a * 2.0) < Distance(a)
  {
    if a >= BEYOND {
      assert (a / 2.0).Floor as real <= a / 2.0 < a - 1.0 < a.Floor as real;
    } else if a < LEAST {
      QuotientAboveOne(a);
      if a * 2.0 < LEAST {
        QuotientHalves(a);
      }
    }
  }

  lemma QuotientAboveOne(a: real)
    requires 0.0 < a < LEAST
    ensures LEAST / a > 1.0
  {
    var q := LEAST / a;
    assert q * a == LEAST;
  }

  lemma QuotientHalves(a: real)
    requires 0.0 < a && a * 2.0 < LEAST
    ensures (LEAST / (a * 2.0)).Floor < (LEAST / a).Floor
  {
    var q, h := LEAST / a, LEAST / (a * 2.0);
    assert q * a == LEAST && h * (a * 2.0) == LEAST;
    assert (h * 2.0) * a == LEAST;
    SameQuotient(q, h * 2.0, a);
    QuotientAboveOne(a * 2.0);
    assert h.Floor as real <= h < q - 1.0 < q.Floor as real;
  }

  lemma SameQuotient(p: real, q: real, a: real)
    requires a > 0.0 && p * a == q * a
    ensures p == q
  {
    assert (p - q) * a == 0.0;
  }

  /** The nearest double to a positive number. */
  function Rounded(a: real): (d: real)
    requires a > 0.0
    ensures d >= 0.0
    decreases Distance(a)
  {
    Nearer(a);
    if a >= BEYOND then 2.0 * Rounded(a / 2.0)
    else if a < LEAST then Rounded(a * 2.0) / 2.0
    else RoundEven(a) as real
  }

  lemma RoundEvenStays(y: real, b: int)
    ensures b as real <= y ==> RoundEven(y) >= b
    ensures y <= b as real ==> RoundEven(y) <= b
  {
  }

  lemma Unfolded(a: real)
    requires a > 0.0
    ensures a >= BEYOND ==> Rounded(a) == 2.0 * Rounded(a / 2.0)
    ensures a < LEAST ==> Rounded(a) == Rounded(a * 2.0) / 2.0
    ensures LEAST <= a < BEYOND ==> Rounded(a) == RoundEven(a) as real
  {
  }

  function AsDouble(x: real): real {
    if x > 0.0 then Rounded(x) else if x < 0.0 then -Rounded(-x) else 0.0
  }

  // ---------------------------------------------------------------- rounding never crosses an integer

  lemma {:induction false} StaysBig(a: real)
    requires a >= LEAST
    ensures Rounded(a) >= LEAST
    decreases Distance(a)
  {
    hide Rounded;
    Unfolded(a);
    Nearer(a);
    if a >= BEYOND {
      StaysBig(a / 2.0);
    }
  }

  /** Rounding a number that is at least a whole number of up to 53 bits stays at least that. */
  lemma {:induction false} AtLeast(a: real, b: nat)
    requires a > 0.0 && b as real <= a && b as real <= BEYOND
    ensures Rounded(a) >= b as real
    decreases Distance(a)
  {
    Unfolded(a);
    Nearer(a);
    RoundEvenStays(a, b);
    hide Rounded, RoundEven, Distance;
    if a >= BEYOND {
      StaysBig(a / 2.0);
    } else if a < LEAST {
      AtLeast(a * 2.0, 2 * b);
    }
  }

  lemma {:induction false} AtMost(a: real, b: nat)
    requires a > 0.0 && a <= b as real <= BEYOND
    ensures Rounded(a) <= b as real
    decreases Distance(a)
  {
    Unfolded(a);
    Unfolded(a / 2.0);
    Nearer(a);
    RoundEvenStays(a, b);
    RoundEvenStays(a / 2.0, 0x10_0000_0000_0000);
    hide Rounded, RoundEven, Distance;
    if a < LEAST {
      var twice: nat := if 2 * b <= 0x20_0000_0000_0000 then 2 * b else 0x20_0000_0000_0000;
      AtMost(a * 2.0, twice);
    }
  }

  /** Whole numbers of up to 53 bits are doubles. */
  lemma WholeIsExact(n: int)
    requires -0x20_0000_0000_0000 <= n <= 0x20_0000_0000_0000
    ensures AsDouble(n as real) == n as real
  {
    if n > 0 {
      AtLeast(n as real, n);
      AtMost(n as real, n);
    } else if n < 0 {
      AtLeast((-n) as real, -n);
      AtMost((-n) as real, -n);
    }
  }

  // ---------------------------------------------------------------- where rounding reaches past an integer

  function Pow2(k: nat): (p: real)
    ensures p >= 1.0
  {
    if k == 0 then 1.0 else 2.0 * Pow2(k - 1)
  }

  lemma {:induction false} ScaledUp(a: real, k: nat, y: real)
    requires a > 0.0 && y == a * Pow2(k) && LEAST <= y < BEYOND
    ensures Rounded(a) * Pow2(k) == RoundEven(y) as real
    decreases k
  {
    hide Rounded, RoundEven, Pow2, Distance;
    Unfolded(a);
    if k > 0 {
      Regroup(a, k);
      Below(a, k);
      ScaledUp(a * 2.0, k - 1, y);
      Regroup(Rounded(a), k);
      TimesEqual(Rounded(a) * 2.0, Rounded(a * 2.0), Pow2(k - 1));
    } else {
      NoScale(a);
      NoScale(Rounded(a));
    }
  }

  lemma NoScale(a: real)
    ensures a * Pow2(0) == a
  {
  }

  lemma Regroup(a: real, k: nat)
    requires k > 0
    ensures (a * 2.0) * Pow2(k - 1) == a * Pow2(k)
  {
    var p := Pow2(k - 1);
    assert Pow2(k) == 2.0 * p;
  }

  lemma TimesEqual(x: real, y: real, p: real)
    requires x == y
    ensures x * p == y * p
  {
  }

  lemma Below(a: real, k: nat)
    requires a > 0.0 && k > 0 && a * Pow2(k) < BEYOND
    ensures a < LEAST
  {
    assert a * Pow2(k) == (a * 2.0) * Pow2(k - 1);
    if a >= LEAST {
      AtLeastTimes(a * 2.0, Pow2(k - 1));
    }
  }

  lemma AtLeastTimes(a: real, p: real)
    requires a > 0.0 && p >= 1.0
    ensures a * p >= a
  {
    assert a * p - a == a * (p - 1.0);
  }

  lemma Pow2Values()
    ensures Pow2(21) == 2097152.0 && Pow2(22) == 4194304.0
  {
    assert Pow2(4) == 16.0 && Pow2(8) == 256.0 && Pow2(12) == 4096.0;
    assert Pow2(16) == 65536.0 && Pow2(20) == 1048576.0;
  }

  /** Up to a half unit in the last place above the largest 32-bit int, and no further, rounds down to it. */
  lemma RoundsToMax(a: real)
    requires a > 0.0
    ensures Rounded(a) <= 2147483647.0 <==> a <= 2147483647.0 + 1.0 / 8388608.0
  {
    if a <= 2147483647.0 {
      AtMost(a, 2147483647);
    } else if a >= 2147483648.0 {
      AtLeast(a, 2147483648);
    } else {
      Pow2Values();
      ScaledUp(a, 22, a * Pow2(22));
      assert 2147483647 * 4194304 == 9007199250546688;
    }
  }

  lemma RoundsToMin(a: real)
    requires a > 0.0
    ensures Rounded(a) <= 2147483648.0 <==> a <= 2147483648.0 + 1.0 / 4194304.0
  {
    if a <= 2147483648.0 {
      AtMost(a, 2147483648);
    } else if a >= 2147483649.0 {
      AtLeast(a, 2147483649);
    } else {
      Pow2Values();
      ScaledUp(a, 21, a * Pow2(21));
      assert 2147483648 * 2097152 == 4503599627370496;
    }
  }

  /** Half way between two, the even one. */
  lemma HalfGoesEven(y: real)
    ensures -0.5 <= RoundEven(y) as real - y <= 0.5
    ensures RoundEven(y) as real - y == 0.5 || y - RoundEven(y) as real == 0.5 ==> RoundEven(y) % 2 == 0
  {
  }

  /**
   * A magnitude that `k` doublings bring to 53 bits is held as the nearest whole number of such units, and half
   * way between two as the even one.
   */
  lemma NearestEven(a: real, k: nat) returns (m: int)
    requires a > 0.0 && LEAST <= a * Pow2(k) < BEYOND
    ensures AsDouble(a) * Pow2(k) == m as real && -0.5 <= m as real - a * Pow2(k) <= 0.5
    ensures m as real - a * Pow2(k) == 0.5 || a * Pow2(k) - m as real == 0.5 ==> m % 2 == 0
  {
    hide Rounded, RoundEven, Pow2;
    m := RoundEven(a * Pow2(k));
    ScaledUp(a, k, a * Pow2(k));
    HalfGoesEven(a * Pow2(k));
  }

  /** Which decimals become a double between the two limits of a 32-bit int. */
  lemma RoundsIntoInt(x: real)
    ensures -2147483648.0 <= AsDouble(x) <= 2147483647.0 <==>
            -2147483648.0 - 1.0 / 4194304.0 <= x <= 2147483647.0 + 1.0 / 8388608.0
  {
    hide Rounded;
    if x > 0.0 {
      RoundsToMax(x);
    } else if x < 0.0 {
      RoundsToMin(-x);
    }
  }

  // ---------------------------------------------------------------- how close

  lemma {:induction false} RoundedIsNear(a: real)
    requires a > 0.0
    ensures -a <= (Rounded(a) - a) * BEYOND <= a
    decreases Distance(a)
  {
    Unfolded(a);
    Nearer(a);
    HalfGoesEven(a);
    hide Rounded, RoundEven, Distance;
    if a >= BEYOND {
      RoundedIsNear(a / 2.0);
    } else if a < LEAST {
      RoundedIsNear(a * 2.0);
    }
  }

  /** A number is off by at most one part in 2^53 of its own size. */
  lemma IsNear(x: real)
    ensures var off := (AsDouble(x) - x) * 9007199254740992.0;
            if x >= 0.0 then -x <= off <= x else x <= off <= -x
  {
    hide Rounded;
    if x > 0.0 {
      RoundedIsNear(x);
    } else if x < 0.0 {
      RoundedIsNear(-x);
    }
  }
}
