/**
 * The page's rounding rule (`roundAmount`): an amount is moved to a whole
 * multiple of 5 baht by looking at its last digit.
 */
module Rounding {

  /** `x` is a whole number of baht divisible by `k`. */
  predicate IsMultipleOf(x: real, k: int)
    requires k > 0
  {
    x.Floor as real == x && x.Floor % k == 0
  }

  /** `Math.trunc`: the integer part, dropping the fraction toward zero. */
  function Trunc(x: real): (n: int)
    ensures x >= 0.0 ==> n as real <= x < n as real + 1.0
    ensures x < 0.0 ==> n as real - 1.0 < x <= n as real
  {
    if x >= 0.0 then x.Floor else -((-x).Floor)
  }

  /** The smallest integer at or above `x`. */
  function Ceil(x: real): (n: int)
    ensures n as real - 1.0 < x <= n as real
  {
    -((-x).Floor)
  }

  /**
   * JavaScript's `x % 10`: the remainder of truncating division, which keeps
   * the sign of the dividend (unlike Dafny's Euclidean `%`).
   */
  function Rem10(x: real): (r: real)
    ensures x >= 0.0 ==> 0.0 <= r < 10.0
    ensures x < 0.0 ==> -10.0 < r <= 0.0
    ensures IsMultipleOf(x - r, 10)
  {
    var q := Trunc(x / 10.0);
    assert x - (x - 10.0 * q as real) == (10 * q) as real;
    x - 10.0 * q as real
  }

  /**
   * `roundAmount`: with `lastDigit = amount % 10` and `base = amount - lastDigit`,
   * a last digit up to 2 drops to `base`, one up to 4 and one up to 7 both go to
   * `base + 5` (two branches with the same result), anything above goes to
   * `base + 10`.
   */
  function RoundAmount(amount: real): (rounded: real)
    ensures IsMultipleOf(rounded, 5)
    ensures amount >= 0.0 ==> 0.0 <= rounded && -2.0 <= rounded - amount < 3.0
    ensures amount < 0.0 ==> rounded <= 0.0 && 0.0 <= rounded - amount < 10.0 && IsMultipleOf(rounded, 10)
  {
    var lastDigit := Rem10(amount);
    var base := amount - lastDigit;
    TensShiftedByFive(base);
    if lastDigit <= 2.0 then
      base
    else if lastDigit <= 4.0 then
      base + 5.0
    else if lastDigit <= 7.0 then
      base + 5.0
    else
      base + 10.0
  }

  /** A multiple of 10, and that plus 5 or 10, are multiples of 5. */
  lemma TensShiftedByFive(base: real)
    requires IsMultipleOf(base, 10)
    ensures IsMultipleOf(base, 5) && IsMultipleOf(base + 5.0, 5) && IsMultipleOf(base + 10.0, 5)
  {
    var n := base.Floor;
    TensShiftedByFiveInt(n);
    assert (base + 5.0).Floor == n + 5;
    assert (base + 10.0).Floor == n + 10;
  }

  lemma TensShiftedByFiveInt(n: int)
    requires n % 10 == 0
    ensures n % 5 == 0 && (n + 5) % 5 == 0 && (n + 10) % 5 == 0
  {
  }

  /**
   * For a non-negative amount the rule picks the one multiple of 5 in
   * `[amount - 2, amount + 3)`, i.e. `5 * ceil((amount - 2) / 5)`.
   */
  lemma RoundAmountIsNearestFive(amount: real)
    requires amount >= 0.0
    ensures RoundAmount(amount) == 5.0 * Ceil((amount - 2.0) / 5.0) as real
  {
    var r := RoundAmount(amount);
    var m := r.Floor / 5;
    assert r == 5.0 * m as real;
    var y := (amount - 2.0) / 5.0;
    assert y <= m as real < y + 1.0;
    var c := Ceil(y);
    assert c as real - 1.0 < y <= c as real;
    assert m == c;
  }

  /**
   * On whole amounts the rule is "round to the nearest multiple of 5": the
   * result is `5 * ((n + 2) div 5)` and never more than 2 baht away.
   */
  lemma RoundWholeAmount(n: int)
    requires n >= 0
    ensures RoundAmount(n as real) == (5 * ((n + 2) / 5)) as real
    ensures -2.0 <= RoundAmount(n as real) - n as real <= 2.0
  {
    RoundAmountIsNearestFive(n as real);
    var y := (n as real - 2.0) / 5.0;
    var c := Ceil(y);
    var q := (n + 2) / 5;
    assert 5 * q <= n + 2 < 5 * q + 5;
    assert c == q;
  }

  /** Amounts already ending in 0 or 5 are left as they are. */
  lemma RoundAmountKeepsMultiplesOfFive(amount: real)
    requires amount >= 0.0 && IsMultipleOf(amount, 5)
    ensures RoundAmount(amount) == amount
  {
    var r := RoundAmount(amount);
    var a, b := amount.Floor, r.Floor;
    assert (b - a) as real == r - amount;
    assert -2 <= b - a < 3;
    assert (b - a) % 5 == 0 by { DifferenceOfMultiples(b, a); }
  }

  lemma DifferenceOfMultiples(x: int, y: int)
    requires x % 5 == 0 && y % 5 == 0
    ensures (x - y) % 5 == 0
  {
    assert x == 5 * (x / 5) && y == 5 * (y / 5);
    assert x - y == 5 * (x / 5 - y / 5);
  }

  /** A negative amount always takes the first branch: it is truncated toward zero to a multiple of 10. */
  lemma RoundNegativeAmount(amount: real)
    requires amount < 0.0
    ensures RoundAmount(amount) == 10.0 * Trunc(amount / 10.0) as real
  {
  }

  /** The sample amounts shown on the import form, with their rounded values. */
  lemma RoundSampleAmounts()
    ensures RoundAmount(4522.0) == 4520.0
    ensures RoundAmount(5222.0) == 5220.0
    ensures RoundAmount(6548.0) == 6550.0
    ensures RoundAmount(2134.0) == 2135.0
    ensures RoundAmount(4444.0) == 4445.0
  {
    RoundWholeAmount(4522);
    RoundWholeAmount(5222);
    RoundWholeAmount(6548);
    RoundWholeAmount(2134);
    RoundWholeAmount(4444);
  }

  /** A negative amount such as -12 is cut toward zero, to -10. */
  lemma RoundNegativeSample()
    ensures RoundAmount(-12.0) == -10.0
  {
    assert (12.0 / 10.0).Floor == 1;
    assert Trunc(-12.0 / 10.0) == -1;
    RoundNegativeAmount(-12.0);
  }
}
