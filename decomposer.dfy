/**
 * The page's `calculateBanknoteBreakdown`: a greedy pass over the seven
 * denominations, largest first.
 */
module Decomposer {
  import opened Banknotes

  /** `Math.round`: the nearest integer, halves going up. */
  function MathRound(x: real): (n: int)
    ensures n as real - 0.5 <= x < n as real + 0.5
  {
    (x + 0.5).Floor
  }

  /** `Math.round` leaves whole numbers unchanged. */
  lemma MathRoundWhole(x: real)
    requires x.Floor as real == x
    ensures MathRound(x) == x.Floor
  {
  }

  /**
   * What the greedy pass hands out for `amount` baht: nothing when the amount
   * is not positive; otherwise, for each denomination, how many fit into what
   * the larger denominations left over.
   */
  function Greedy(amount: int): (b: Breakdown)
    ensures b.NonNegative()
    ensures amount <= 0 ==> b == Zero()
    ensures amount >= 0 ==> b.c1000 == amount / 1000
    ensures b.c500 <= 1 && b.c100 <= 4 && b.c50 <= 1 && b.c20 <= 2 && b.c10 <= 1 && b.c5 <= 1
  {
    if amount <= 0 then Zero()
    else Breakdown(amount / 1000, amount % 1000 / 500, amount % 500 / 100, amount % 100 / 50,
                   amount % 50 / 20, amount % 50 % 20 / 10, amount % 10 / 5)
  }

  /** What is still to be paid out before `Denominations[i]` is tried. */
  function Remaining(amount: int, i: nat): int
    requires i <= 7
  {
    if amount <= 0 then amount
    else match i
      case 0 => amount
      case 1 => amount % 1000
      case 2 => amount % 500
      case 3 => amount % 100
      case 4 => amount % 50
      case 5 => amount % 50 % 20
      case 6 => amount % 10
      case _ => amount % 5
  }

  /**
   * One step of the pass: `floor(remaining / d)` notes of `Denominations[i]`
   * are what Greedy records, and taking them leaves `Remaining(amount, i + 1)`;
   * when none fit, nothing changes.
   */
  lemma GreedyStep(amount: int, i: nat)
    requires i < 7
    ensures var r := Remaining(amount, i); var c := r / Denominations[i];
      (c > 0 ==> Greedy(amount).Count(i) == c && r - c * Denominations[i] == Remaining(amount, i + 1)) &&
      (c <= 0 ==> Greedy(amount).Count(i) == 0 && r == Remaining(amount, i + 1))
  {
    var r := Remaining(amount, i);
    var d := Denominations[i];
    if amount > 0 {
      assert r - r / d * d == r % d;
      assert r % d == Remaining(amount, i + 1) by {
        var a := amount;
        if i == 1 {
          ModOfMod(a, 1000, 500);
        } else if i == 2 {
          ModOfMod(a, 500, 100);
        } else if i == 3 {
          ModOfMod(a, 100, 50);
        } else if i == 5 {
          ModOfMod(a % 50, 20, 10);
          ModOfMod(a, 50, 10);
        } else if i == 6 {
          ModOfMod(a, 10, 5);
        }
      }
    }
  }

  /** Reducing modulo a multiple of `n` first does not change the remainder modulo `n`. */
  lemma ModOfMod(a: int, m: int, n: int)
    requires n > 0 && m > 0 && m % n == 0
    ensures a % m % n == a % n
  {
    var k := m / n;
    assert m == k * n;
    var q1, r1 := a / m, a % m;
    var q2, r2 := r1 / n, r1 % n;
    assert a == q1 * m + r1;
    assert r1 == q2 * n + r2;
    assert a == (q1 * k + q2) * n + r2 by {
      calc {
        a;
        q1 * m + r1;
        q1 * (k * n) + q2 * n + r2;
        (q1 * k) * n + q2 * n + r2;
        (q1 * k + q2) * n + r2;
      }
    }
    DivModUnique(a, n, q1 * k + q2, r2);
  }

  /** The Euclidean remainder is the only `r` in `[0, n)` with `a == q * n + r`. */
  lemma DivModUnique(a: int, n: int, q: int, r: int)
    requires n > 0 && 0 <= r < n && a == q * n + r
    ensures a % n == r
  {
    var q0, r0 := a / n, a % n;
    assert a == q0 * n + r0;
    assert (q - q0) * n == r0 - r;
    if q - q0 >= 1 {
      assert false;
    } else if q - q0 <= -1 {
      assert false;
    }
  }

  /**
   * For a non-negative amount the notes and coins add up to the amount less
   * whatever is below 5 baht; that remainder is silently dropped.
   */
  lemma GreedyValue(amount: int)
    requires amount >= 0
    ensures Value(Greedy(amount)) == amount - amount % 5
  {
    if amount > 0 {
      var a, b := amount, Greedy(amount);
      var r1, r2, r3, r4, r5, r6, r7 := a % 1000, a % 500, a % 100, a % 50, a % 50 % 20, a % 10, a % 5;
      ModOfMod(a, 1000, 500);
      ModOfMod(a, 500, 100);
      ModOfMod(a, 100, 50);
      ModOfMod(a % 50, 20, 10);
      ModOfMod(a, 50, 10);
      ModOfMod(a, 10, 5);
      Telescope(a, 1000, r1, b.c1000);
      Telescope(r1, 500, r2, b.c500);
      Telescope(r2, 100, r3, b.c100);
      Telescope(r3, 50, r4, b.c50);
      Telescope(r4, 20, r5, b.c20);
      Telescope(r5, 10, r6, b.c10);
      Telescope(r6, 5, r7, b.c5);
    }
  }

  /** Taking out the `c = x div d` notes of `d` that fit in `x` leaves the remainder `r`. */
  lemma Telescope(x: int, d: int, r: int, c: int)
    requires d > 0 && r == x % d && c == x / d
    ensures d * c == x - r
  {
  }

  /** Amounts that are multiples of 5 are paid out exactly. */
  lemma GreedyExact(amount: int)
    requires amount >= 0 && amount % 5 == 0
    ensures Value(Greedy(amount)) == amount
  {
    GreedyValue(amount);
  }

  /**
   * `calculateBanknoteBreakdown`: round the amount to whole baht, then for
   * each denomination take `floor(remaining / d)` of it when that is positive.
   */
  method CalculateBanknoteBreakdown(amount: real) returns (result: Breakdown)
    ensures result == Greedy(MathRound(amount))
  {
    var remainingAmount := MathRound(amount);
    ghost var start := remainingAmount;
    result := Zero();
    for i := 0 to 7
      invariant remainingAmount == Remaining(start, i)
      invariant forall j :: 0 <= j < i ==> result.Count(j) == Greedy(start).Count(j)
      invariant forall j :: i <= j < 7 ==> result.Count(j) == 0
    {
      GreedyStep(start, i);
      var count := remainingAmount / Denominations[i];
      if count > 0 {
        result := result.With(i, count);
        remainingAmount := remainingAmount - count * Denominations[i];
      }
    }
    Extensionality(result, Greedy(start));
  }

  /** The greedy pass on the example amounts. */
  lemma GreedySamples()
    ensures Greedy(4520) == Breakdown(4, 1, 0, 0, 1, 0, 0)
    ensures Greedy(6550) == Breakdown(6, 1, 0, 1, 0, 0, 0)
    ensures Greedy(2135) == Breakdown(2, 0, 1, 0, 1, 1, 1)
  {
  }
}
