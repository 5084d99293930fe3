/**
 * The cash panel (`CashBreakdown`): totals over a breakdown and one row per
 * denomination in use.
 */
module CashBreakdown {
  import opened Banknotes

  /**
   * `Object.entries(breakdown)`: (denomination, count) pairs. JavaScript lists
   * integer-like keys in ascending numeric order, so the 5-baht coin comes first.
   */
  function Entries(b: Breakdown): (e: seq<(int, int)>)
    ensures |e| == 7
    ensures forall i :: 0 <= i < 7 ==> e[6 - i] == (Denominations[i], b.Count(i))
  {
    [(5, b.c5), (10, b.c10), (20, b.c20), (50, b.c50), (100, b.c100), (500, b.c500), (1000, b.c1000)]
  }

  /** `reduce((sum, [denom, count]) => sum + Number(denom) * count, 0)`. */
  function SumValues(entries: seq<(int, int)>): int {
    if entries == [] then 0
    else SumValues(entries[..|entries| - 1]) + entries[|entries| - 1].0 * entries[|entries| - 1].1
  }

  /** `totalCashValue`: the value of the notes and coins, in baht. */
  function TotalCashValue(b: Breakdown): (v: int)
    ensures v == Value(b)
  {
    var e := Entries(b);
    assert SumValues(e[..1]) == 5 * b.c5 by { assert e[..1][..0] == []; }
    assert SumValues(e[..2]) == SumValues(e[..1]) + 10 * b.c10 by { assert e[..2][..1] == e[..1]; }
    assert SumValues(e[..3]) == SumValues(e[..2]) + 20 * b.c20 by { assert e[..3][..2] == e[..2]; }
    assert SumValues(e[..4]) == SumValues(e[..3]) + 50 * b.c50 by { assert e[..4][..3] == e[..3]; }
    assert SumValues(e[..5]) == SumValues(e[..4]) + 100 * b.c100 by { assert e[..5][..4] == e[..4]; }
    assert SumValues(e[..6]) == SumValues(e[..5]) + 500 * b.c500 by { assert e[..6][..5] == e[..5]; }
    assert SumValues(e) == SumValues(e[..6]) + 1000 * b.c1000;
    SumValues(e)
  }

  /** One rendered row: its denomination, its count and `totalValue = denom * count`. */
  datatype Row = Row(denom: int, count: int, value: int)

  /** The row an entry renders, if its count is not zero (`if (count === 0) return null`). */
  function RowsOf(entries: seq<(int, int)>): (rows: seq<Row>)
    ensures |rows| <= |entries|
    ensures forall r :: r in rows ==> r.count != 0 && r.value == r.denom * r.count && (r.denom, r.count) in entries
    ensures forall e :: e in entries && e.1 != 0 ==> Row(e.0, e.1, e.0 * e.1) in rows
  {
    if entries == [] then []
    else
      var init, last := entries[..|entries| - 1], entries[|entries| - 1];
      assert forall e :: e in entries ==> e in init || e == last;
      RowsOf(init) + if last.1 == 0 then [] else [Row(last.0, last.1, last.0 * last.1)]
  }

  /** The rows the panel renders, in key order. */
  function Rows(b: Breakdown): seq<Row> {
    RowsOf(Entries(b))
  }

  /** Row values added in order. */
  function SumRowValues(rows: seq<Row>): int {
    if rows == [] then 0 else SumRowValues(rows[..|rows| - 1]) + rows[|rows| - 1].value
  }

  /** Leaving out the zero-count entries does not change the total value. */
  lemma {:induction false} RowValuesSum(entries: seq<(int, int)>)
    ensures SumRowValues(RowsOf(entries)) == SumValues(entries)
  {
    if entries != [] {
      var init, last := entries[..|entries| - 1], entries[|entries| - 1];
      RowValuesSum(init);
      var tail := if last.1 == 0 then [] else [Row(last.0, last.1, last.0 * last.1)];
      SumRowValuesAppend(RowsOf(init), tail);
    }
  }

  lemma SumRowValuesAppend(a: seq<Row>, b: seq<Row>)
    requires |b| <= 1
    ensures SumRowValues(a + b) == SumRowValues(a) + SumRowValues(b)
  {
    if b != [] {
      assert (a + b)[..|a + b| - 1] == a;
      assert b[..0] == [];
    } else {
      assert a + b == a;
    }
  }

  /** The row values of a breakdown add up to the panel's total value. */
  lemma RowsTotal(b: Breakdown)
    ensures SumRowValues(Rows(b)) == TotalCashValue(b)
  {
    RowValuesSum(Entries(b));
  }

  /** A denomination gets a row exactly when its count is not zero, and the row shows its value. */
  lemma RowsShowUsedDenominations(b: Breakdown, i: nat)
    requires i < 7
    ensures Row(Denominations[i], b.Count(i), Denominations[i] * b.Count(i)) in Rows(b) <==> b.Count(i) != 0
    ensures forall r :: r in Rows(b) ==> r.count != 0 && r.value == r.denom * r.count
  {
    var e := Entries(b);
    assert e[6 - i] == (Denominations[i], b.Count(i));
    if b.Count(i) == 0 {
      if Row(Denominations[i], 0, 0) in Rows(b) {
        assert false;
      }
    }
  }

  /**
   * The share bar `count / totalItems` never divides by zero: with no negative
   * count, every rendered row has a positive count no larger than the total.
   */
  lemma RowShareDefined(b: Breakdown)
    requires b.NonNegative()
    ensures forall r :: r in Rows(b) ==> 0 < r.count <= TotalItems(b)
  {
    var e := Entries(b);
    forall r | r in Rows(b)
      ensures 0 < r.count <= TotalItems(b)
    {
      var k :| 0 <= k < 7 && e[k] == (r.denom, r.count);
      assert e[k] == (Denominations[6 - k], b.Count(6 - k));
    }
  }

  /** The rows come in ascending order of denomination. */
  lemma RowsAscending(b: Breakdown)
    ensures forall j, k :: 0 <= j < k < |Rows(b)| ==> Rows(b)[j].denom < Rows(b)[k].denom
  {
    AscendingRows(Entries(b));
  }

  lemma {:induction false} AscendingRows(entries: seq<(int, int)>)
    requires forall j, k :: 0 <= j < k < |entries| ==> entries[j].0 < entries[k].0
    ensures forall j, k :: 0 <= j < k < |RowsOf(entries)| ==> RowsOf(entries)[j].denom < RowsOf(entries)[k].denom
  {
    if entries != [] {
      var init, last := entries[..|entries| - 1], entries[|entries| - 1];
      AscendingRows(init);
      forall r | r in RowsOf(init)
        ensures r.denom < last.0
      {
        var k :| 0 <= k < |init| && init[k] == (r.denom, r.count);
      }
    }
  }
}
