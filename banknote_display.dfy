/**
 * The badge strip (`BanknoteDisplay`): one badge per denomination in use,
 * largest first, with a share line when there is anything to share.
 */
module BanknoteDisplay {
  import opened Banknotes

  /** `denominationOrder`: the fixed display order, largest first. */
  const DenominationOrder: seq<int> := [1000, 500, 100, 50, 20, 10, 5]

  /** `breakdown[denom]`: the count stored under a denomination key. */
  function CountFor(b: Breakdown, denom: int): (count: int)
    requires denom in DenominationOrder
    ensures forall i :: 0 <= i < 7 && Denominations[i] == denom ==> count == b.Count(i)
  {
    if denom == 1000 then b.c1000
    else if denom == 500 then b.c500
    else if denom == 100 then b.c100
    else if denom == 50 then b.c50
    else if denom == 20 then b.c20
    else if denom == 10 then b.c10
    else b.c5
  }

  /** One badge: a denomination and its count. */
  datatype Badge = Badge(denom: int, count: int)

  /** The `map` over an order of denominations; a count of zero or less renders nothing. */
  function BadgesOf(b: Breakdown, order: seq<int>): (badges: seq<Badge>)
    requires forall k :: 0 <= k < |order| ==> order[k] in DenominationOrder
    ensures |badges| <= |order|
    ensures forall x :: x in badges ==> x.denom in order && x.denom in DenominationOrder && x.count == CountFor(b, x.denom) && x.count > 0
  {
    if order == [] then []
    else
      var rest := BadgesOf(b, order[1..]);
      var count := CountFor(b, order[0]);
      if count <= 0 then rest else [Badge(order[0], count)] + rest
  }

  /** Every denomination of the order whose count is positive gets its badge. */
  lemma {:induction false} BadgesComplete(b: Breakdown, order: seq<int>, k: nat)
    requires forall k :: 0 <= k < |order| ==> order[k] in DenominationOrder
    requires k < |order| && CountFor(b, order[k]) > 0
    ensures Badge(order[k], CountFor(b, order[k])) in BadgesOf(b, order)
  {
    if k > 0 {
      assert order[k] == order[1..][k - 1];
      BadgesComplete(b, order[1..], k - 1);
    }
  }

  /** The badges shown for a breakdown. */
  function Badges(b: Breakdown): seq<Badge> {
    BadgesOf(b, DenominationOrder)
  }

  /** Whether the tooltip shows the share line (`totalItems > 0`). */
  predicate ShowsShare(b: Breakdown) {
    TotalItems(b) > 0
  }

  /** A denomination gets a badge exactly when its count is positive. */
  lemma BadgeShownIffPositive(b: Breakdown, denom: int)
    requires denom in DenominationOrder
    ensures Badge(denom, CountFor(b, denom)) in Badges(b) <==> CountFor(b, denom) > 0
  {
    var k :| 0 <= k < 7 && DenominationOrder[k] == denom;
    if CountFor(b, denom) > 0 {
      BadgesComplete(b, DenominationOrder, k);
    }
  }

  /** Badges follow the order they are drawn from: a strictly descending order gives strictly descending badges. */
  lemma {:induction false} BadgesKeepOrder(b: Breakdown, order: seq<int>)
    requires forall k :: 0 <= k < |order| ==> order[k] in DenominationOrder
    requires forall j, k :: 0 <= j < k < |order| ==> order[j] > order[k]
    ensures forall j, k :: 0 <= j < k < |BadgesOf(b, order)| ==> BadgesOf(b, order)[j].denom > BadgesOf(b, order)[k].denom
  {
    if order != [] {
      var tail := order[1..];
      BadgesKeepOrder(b, tail);
      forall x | x in BadgesOf(b, tail)
        ensures x.denom < order[0]
      {
        var k :| 0 <= k < |tail| && tail[k] == x.denom;
        assert order[k + 1] == x.denom;
      }
    }
  }

  /** The badges come strictly largest first: 1000, 500, 100, 50, 20, 10, 5. */
  lemma BadgesDescending(b: Breakdown)
    ensures forall j, k :: 0 <= j < k < |Badges(b)| ==> Badges(b)[j].denom > Badges(b)[k].denom
  {
    BadgesKeepOrder(b, DenominationOrder);
  }

  /**
   * With no negative count, every badge's count is positive and at most the
   * total number of items, so the tooltip's share `count / totalItems` is a
   * proportion.
   */
  lemma BadgeCountsWithinTotal(b: Breakdown)
    requires b.NonNegative()
    ensures forall x :: x in Badges(b) ==> 0 < x.count <= TotalItems(b)
  {
    var n := TotalItems(b);
    assert b.c1000 >= 0 && b.c500 >= 0 && b.c100 >= 0 && b.c50 >= 0 by {
      assert b.Count(0) >= 0 && b.Count(1) >= 0 && b.Count(2) >= 0 && b.Count(3) >= 0;
    }
    assert b.c20 >= 0 && b.c10 >= 0 && b.c5 >= 0 by {
      assert b.Count(4) >= 0 && b.Count(5) >= 0 && b.Count(6) >= 0;
    }
    forall x | x in Badges(b)
      ensures 0 < x.count <= n
    {
      assert x.count == CountFor(b, x.denom);
    }
  }

  /** With no negative count, the share line is shown exactly when at least one badge is. */
  lemma ShareShownIffBadges(b: Breakdown)
    requires b.NonNegative()
    ensures Badges(b) != [] <==> ShowsShare(b)
  {
    assert b.c1000 >= 0 && b.c500 >= 0 && b.c100 >= 0 && b.c50 >= 0 by {
      assert b.Count(0) >= 0 && b.Count(1) >= 0 && b.Count(2) >= 0 && b.Count(3) >= 0;
    }
    assert b.c20 >= 0 && b.c10 >= 0 && b.c5 >= 0 by {
      assert b.Count(4) >= 0 && b.Count(5) >= 0 && b.Count(6) >= 0;
    }
    if Badges(b) == [] {
      forall k | 0 <= k < 7
        ensures CountFor(b, DenominationOrder[k]) <= 0
      {
        if CountFor(b, DenominationOrder[k]) > 0 {
          BadgesComplete(b, DenominationOrder, k);
        }
      }
      assert CountFor(b, DenominationOrder[0]) <= 0 && CountFor(b, DenominationOrder[1]) <= 0;
      assert CountFor(b, DenominationOrder[2]) <= 0 && CountFor(b, DenominationOrder[3]) <= 0;
      assert CountFor(b, DenominationOrder[4]) <= 0 && CountFor(b, DenominationOrder[5]) <= 0;
      assert CountFor(b, DenominationOrder[6]) <= 0;
    } else {
      assert Badges(b)[0] in Badges(b);
    }
  }
}
