/**
 * The banknote/coin breakdown record shared by the page and its components
 * (`BanknoteBreakdown` and the `breakdown` field of `SalaryData`).
 */
module Banknotes {

  /** Face values in baht, largest first: the order in which the page hands out cash. */
  const Denominations: seq<int> := [1000, 500, 100, 50, 20, 10, 5]

  /**
   * One count per denomination. All seven keys are always present, so a record
   * with seven fields is the whole type; a count may in principle be any number.
   */
  datatype Breakdown = Breakdown(c1000: int, c500: int, c100: int, c50: int, c20: int, c10: int, c5: int)
  {
    /** The count for `Denominations[i]`. */
    function Count(i: nat): int
      requires i < 7
    {
      match i
      case 0 => c1000
      case 1 => c500
      case 2 => c100
      case 3 => c50
      case 4 => c20
      case 5 => c10
      case _ => c5
    }

    /** The same record with the count for `Denominations[i]` replaced by `n`. */
    function With(i: nat, n: int): (r: Breakdown)
      requires i < 7
      ensures r.Count(i) == n
      ensures forall j :: 0 <= j < 7 && j != i ==> r.Count(j) == Count(j)
    {
      match i
      case 0 => this.(c1000 := n)
      case 1 => this.(c500 := n)
      case 2 => this.(c100 := n)
      case 3 => this.(c50 := n)
      case 4 => this.(c20 := n)
      case 5 => this.(c10 := n)
      case _ => this.(c5 := n)
    }

    /** Every count is zero or more. */
    predicate NonNegative() {
      forall i :: 0 <= i < 7 ==> Count(i) >= 0
    }
  }

  /** The all-zero breakdown every computation starts from. */
  function Zero(): (z: Breakdown)
    ensures forall i :: 0 <= i < 7 ==> z.Count(i) == 0
  {
    Breakdown(0, 0, 0, 0, 0, 0, 0)
  }

  /** Two breakdowns are equal when they agree on every denomination. */
  lemma Extensionality(a: Breakdown, b: Breakdown)
    requires forall i :: 0 <= i < 7 ==> a.Count(i) == b.Count(i)
    ensures a == b
  {
    assert a.Count(0) == b.Count(0) && a.Count(1) == b.Count(1) && a.Count(2) == b.Count(2);
    assert a.Count(3) == b.Count(3) && a.Count(4) == b.Count(4) && a.Count(5) == b.Count(5);
    assert a.Count(6) == b.Count(6);
  }

  /** Denomination-wise sum of two breakdowns. */
  function Add(a: Breakdown, b: Breakdown): (r: Breakdown)
    ensures forall i :: 0 <= i < 7 ==> r.Count(i) == a.Count(i) + b.Count(i)
  {
    Breakdown(a.c1000 + b.c1000, a.c500 + b.c500, a.c100 + b.c100, a.c50 + b.c50,
              a.c20 + b.c20, a.c10 + b.c10, a.c5 + b.c5)
  }

  /** Cash value in baht of a breakdown: the sum of denomination times count. */
  function Value(b: Breakdown): int {
    1000 * b.c1000 + 500 * b.c500 + 100 * b.c100 + 50 * b.c50 + 20 * b.c20 + 10 * b.c10 + 5 * b.c5
  }

  /** Value is additive over Add. */
  lemma ValueAdd(a: Breakdown, b: Breakdown)
    ensures Value(Add(a, b)) == Value(a) + Value(b)
  {
  }

  /**
   * The counts as `Object.values` enumerates them: JavaScript lists
   * integer-like keys in ascending numeric order, so 5 comes first.
   */
  function ValuesInKeyOrder(b: Breakdown): (s: seq<int>)
    ensures |s| == 7
    ensures forall i :: 0 <= i < 7 ==> s[6 - i] == b.Count(i)
  {
    [b.c5, b.c10, b.c20, b.c50, b.c100, b.c500, b.c1000]
  }

  /** `reduce((sum, x) => sum + x, 0)`: a left fold from 0. */
  function SumLeft(s: seq<int>): int {
    if s == [] then 0 else SumLeft(s[..|s| - 1]) + s[|s| - 1]
  }

  /**
   * `totalItems`: the number of notes and coins, folded over the counts in
   * key order. It is the plain sum of the seven counts.
   */
  function TotalItems(b: Breakdown): (n: int)
    ensures n == b.c1000 + b.c500 + b.c100 + b.c50 + b.c20 + b.c10 + b.c5
    ensures b.NonNegative() ==> forall i :: 0 <= i < 7 ==> 0 <= b.Count(i) <= n
  {
    var s := ValuesInKeyOrder(b);
    assert SumLeft(s[..1]) == b.c5 by { assert s[..1][..0] == []; }
    assert SumLeft(s[..2]) == SumLeft(s[..1]) + b.c10 by { assert s[..2][..1] == s[..1]; }
    assert SumLeft(s[..3]) == SumLeft(s[..2]) + b.c20 by { assert s[..3][..2] == s[..2]; }
    assert SumLeft(s[..4]) == SumLeft(s[..3]) + b.c50 by { assert s[..4][..3] == s[..3]; }
    assert SumLeft(s[..5]) == SumLeft(s[..4]) + b.c100 by { assert s[..5][..4] == s[..4]; }
    assert SumLeft(s[..6]) == SumLeft(s[..5]) + b.c500 by { assert s[..6][..5] == s[..5]; }
    assert SumLeft(s) == SumLeft(s[..6]) + b.c1000;
    assert b.Count(0) == b.c1000 && b.Count(1) == b.c500 && b.Count(2) == b.c100 && b.Count(3) == b.c50;
    assert b.Count(4) == b.c20 && b.Count(5) == b.c10 && b.Count(6) == b.c5;
    SumLeft(s)
  }
}
