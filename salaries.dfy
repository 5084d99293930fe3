/**
 * One salary entry (`SalaryData`): the amount as entered, its rounded value
 * and the notes and coins that pay it out.
 */
module Salaries {
  import opened Banknotes
  import opened Rounding
  import opened Decomposer

  /**
   * The entry's id. Bulk-imported entries get the import time and their
   * position in the batch; manual ones get only the time, so two manual
   * entries made in the same millisecond share an id.
   */
  datatype EntryId = CsvId(time: int, index: nat) | ManualId(time: int)

  datatype SalaryData = SalaryData(id: EntryId, original: real, rounded: real, breakdown: Breakdown)

  /** The entry the page builds for `amount`: rounded by the rule, then broken down greedily. */
  function NewEntry(id: EntryId, amount: real): (e: SalaryData)
    ensures e.id == id && e.original == amount
    ensures IsMultipleOf(e.rounded, 5) && e.breakdown.NonNegative()
    ensures amount >= 0.0 ==> -2.0 <= e.rounded - amount < 3.0
    ensures amount <= 0.0 ==> e.breakdown == Zero()
  {
    var rounded := RoundAmount(amount);
    SalaryData(id, amount, rounded, Greedy(MathRound(rounded)))
  }

  /**
   * An entry made from a non-negative amount is paid out exactly: its notes
   * and coins are worth its rounded value.
   */
  lemma NewEntryPaysRounded(id: EntryId, amount: real)
    requires amount >= 0.0
    ensures Value(NewEntry(id, amount).breakdown) as real == NewEntry(id, amount).rounded
  {
    var rounded := RoundAmount(amount);
    MathRoundWhole(rounded);
    GreedyExact(rounded.Floor);
  }

  /** An entry whose rounded value and breakdown were computed from its original amount. */
  predicate Computed(e: SalaryData) {
    e == NewEntry(e.id, e.original)
  }

  /**
   * The object literal the page builds for one amount: `roundAmount`, then
   * `calculateBanknoteBreakdown` on the rounded value.
   */
  method MakeEntry(id: EntryId, amount: real) returns (e: SalaryData)
    ensures e == NewEntry(id, amount)
    ensures Computed(e)
  {
    var roundedAmount := RoundAmount(amount);
    var breakdown := CalculateBanknoteBreakdown(roundedAmount);
    e := SalaryData(id, amount, roundedAmount, breakdown);
  }
}
