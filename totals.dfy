/**
 * The page's summary figures, recomputed from the whole entry list on every
 * render: the two totals, their difference and the combined breakdown.
 */
module Totals {
  import opened Banknotes
  import opened Salaries

  /** `salaries.reduce((sum, s) => sum + s.original, 0)`. */
  function OriginalTotal(s: seq<SalaryData>): real {
    if s == [] then 0.0 else OriginalTotal(s[..|s| - 1]) + s[|s| - 1].original
  }

  /** `salaries.reduce((sum, s) => sum + s.rounded, 0)`. */
  function RoundedTotal(s: seq<SalaryData>): real {
    if s == [] then 0.0 else RoundedTotal(s[..|s| - 1]) + s[|s| - 1].rounded
  }

  /** `roundingDifference = roundedTotal - originalTotal`. */
  function RoundingDifference(s: seq<SalaryData>): real {
    RoundedTotal(s) - OriginalTotal(s)
  }

  /** `totalCash`: the breakdowns added up, starting from all zeros. */
  function TotalCash(s: seq<SalaryData>): Breakdown {
    if s == [] then Zero() else Add(TotalCash(s[..|s| - 1]), s[|s| - 1].breakdown)
  }

  /** Reference definition: the count of `Denominations[i]` summed over the entries, front to back. */
  function Column(s: seq<SalaryData>, i: nat): int
    requires i < 7
  {
    if s == [] then 0 else s[0].breakdown.Count(i) + Column(s[1..], i)
  }

  /** Splitting off the last entry of the front-to-back column sum. */
  lemma {:induction false} ColumnSnoc(s: seq<SalaryData>, e: SalaryData, i: nat)
    requires i < 7
    ensures Column(s + [e], i) == Column(s, i) + e.breakdown.Count(i)
  {
    if s != [] {
      assert (s + [e])[1..] == s[1..] + [e];
      ColumnSnoc(s[1..], e, i);
    }
  }

  /** `totalCash[d]` is the sum over all entries of their count for `d`. */
  lemma {:induction false} TotalCashIsColumnSum(s: seq<SalaryData>)
    ensures forall i :: 0 <= i < 7 ==> TotalCash(s).Count(i) == Column(s, i)
  {
    if s != [] {
      var init, last := s[..|s| - 1], s[|s| - 1];
      assert s == init + [last];
      TotalCashIsColumnSum(init);
      forall i | 0 <= i < 7
        ensures TotalCash(s).Count(i) == Column(s, i)
      {
        ColumnSnoc(init, last, i);
      }
    }
  }

  /** Splitting a list splits the total of the original amounts. */
  lemma {:induction false} OriginalTotalAppend(a: seq<SalaryData>, b: seq<SalaryData>)
    ensures OriginalTotal(a + b) == OriginalTotal(a) + OriginalTotal(b)
  {
    if b == [] {
      assert a + b == a;
    } else {
      var init := b[..|b| - 1];
      assert (a + b)[..|a + b| - 1] == a + init;
      OriginalTotalAppend(a, init);
    }
  }

  /** Splitting a list splits the total of the rounded amounts. */
  lemma {:induction false} RoundedTotalAppend(a: seq<SalaryData>, b: seq<SalaryData>)
    ensures RoundedTotal(a + b) == RoundedTotal(a) + RoundedTotal(b)
  {
    if b == [] {
      assert a + b == a;
    } else {
      var init := b[..|b| - 1];
      assert (a + b)[..|a + b| - 1] == a + init;
      RoundedTotalAppend(a, init);
    }
  }

  /** Splitting a list splits the combined breakdown. */
  lemma {:induction false} TotalCashAppend(a: seq<SalaryData>, b: seq<SalaryData>)
    ensures TotalCash(a + b) == Add(TotalCash(a), TotalCash(b))
  {
    if b == [] {
      assert a + b == a;
      Extensionality(TotalCash(a), Add(TotalCash(a), Zero()));
    } else {
      var init, last := b[..|b| - 1], b[|b| - 1];
      assert (a + b)[..|a + b| - 1] == a + init;
      assert (a + b)[|a + b| - 1] == last;
      TotalCashAppend(a, init);
      assert TotalCash(a + b) == Add(Add(TotalCash(a), TotalCash(init)), last.breakdown);
      assert TotalCash(b) == Add(TotalCash(init), last.breakdown);
      Extensionality(TotalCash(a + b), Add(TotalCash(a), TotalCash(b)));
    }
  }

  /** The summary does not depend on which of two blocks of entries came first. */
  lemma TotalsCommute(a: seq<SalaryData>, b: seq<SalaryData>)
    ensures OriginalTotal(a + b) == OriginalTotal(b + a)
    ensures RoundedTotal(a + b) == RoundedTotal(b + a)
    ensures TotalCash(a + b) == TotalCash(b + a)
  {
    OriginalTotalAppend(a, b);
    OriginalTotalAppend(b, a);
    RoundedTotalAppend(a, b);
    RoundedTotalAppend(b, a);
    TotalCashAppend(a, b);
    TotalCashAppend(b, a);
    Extensionality(Add(TotalCash(a), TotalCash(b)), Add(TotalCash(b), TotalCash(a)));
  }

  /** An entry whose notes and coins are worth its rounded value. */
  predicate PaidOut(e: SalaryData) {
    Value(e.breakdown) as real == e.rounded
  }

  /** Every entry computed from a non-negative amount is paid out exactly. */
  lemma EntryPaidOut(e: SalaryData)
    requires Computed(e) && e.original >= 0.0
    ensures PaidOut(e)
  {
    NewEntryPaysRounded(e.id, e.original);
  }

  /** When every entry is paid out exactly, so is the whole list by the combined breakdown. */
  lemma {:induction false} TotalCashPaysOut(s: seq<SalaryData>)
    requires forall k :: 0 <= k < |s| ==> PaidOut(s[k])
    ensures Value(TotalCash(s)) as real == RoundedTotal(s)
  {
    if s != [] {
      var init, last := s[..|s| - 1], s[|s| - 1];
      assert forall k :: 0 <= k < |init| ==> init[k] == s[k];
      TotalCashPaysOut(init);
      assert PaidOut(last);
      var before := TotalCash(init);
      assert TotalCash(s) == Add(before, last.breakdown);
      assert RoundedTotal(s) == RoundedTotal(init) + last.rounded;
      ValueAdd(before, last.breakdown);
      assert Value(TotalCash(s)) == Value(before) + Value(last.breakdown);
      assert (Value(before) + Value(last.breakdown)) as real == Value(before) as real + Value(last.breakdown) as real;
    }
  }

  /** Adding up breakdowns with no negative count gives none either. */
  lemma {:induction false} TotalCashNonNegative(s: seq<SalaryData>)
    requires forall k :: 0 <= k < |s| ==> s[k].breakdown.NonNegative()
    ensures TotalCash(s).NonNegative()
  {
    if s != [] {
      var init, last := s[..|s| - 1], s[|s| - 1];
      assert forall k :: 0 <= k < |init| ==> init[k] == s[k];
      TotalCashNonNegative(init);
      var before := TotalCash(init);
      assert last.breakdown.NonNegative();
      forall i | 0 <= i < 7
        ensures TotalCash(s).Count(i) >= 0
      {
        assert TotalCash(s).Count(i) == before.Count(i) + last.breakdown.Count(i);
      }
    }
  }

  /**
   * When every entry was computed from a non-negative amount, the combined
   * notes and coins are worth exactly the rounded total.
   */
  lemma TotalCashPaysRoundedTotal(s: seq<SalaryData>)
    requires forall k :: 0 <= k < |s| ==> Computed(s[k]) && s[k].original >= 0.0
    ensures Value(TotalCash(s)) as real == RoundedTotal(s)
    ensures TotalCash(s).NonNegative()
  {
    forall k | 0 <= k < |s|
      ensures PaidOut(s[k]) && s[k].breakdown.NonNegative()
    {
      EntryPaidOut(s[k]);
    }
    TotalCashPaysOut(s);
    TotalCashNonNegative(s);
  }

  /**
   * When every entry was computed from a non-negative amount, the rounding
   * moved the total by at least -2 and less than 3 baht per entry.
   */
  lemma {:induction false} RoundingDifferenceBounds(s: seq<SalaryData>)
    requires forall k :: 0 <= k < |s| ==> Computed(s[k]) && s[k].original >= 0.0
    ensures -2.0 * |s| as real <= RoundingDifference(s) <= 3.0 * |s| as real
    ensures s != [] ==> RoundingDifference(s) < 3.0 * |s| as real
  {
    if s != [] {
      RoundingDifferenceBounds(s[..|s| - 1]);
    }
  }

  /** One entry's combined breakdown is its own breakdown. */
  lemma TotalCashSingle(e: SalaryData)
    ensures TotalCash([e]) == e.breakdown
  {
    assert [e][..0] == [];
    assert TotalCash([e]) == Add(Zero(), e.breakdown);
    forall i | 0 <= i < 7
      ensures TotalCash([e]).Count(i) == e.breakdown.Count(i)
    {
    }
    Extensionality(TotalCash([e]), e.breakdown);
  }

  /** The summary of no entries is all zeros. */
  lemma EmptySummary()
    ensures OriginalTotal([]) == 0.0 && RoundedTotal([]) == 0.0 && RoundingDifference([]) == 0.0
    ensures TotalCash([]) == Zero()
  {
  }
}
