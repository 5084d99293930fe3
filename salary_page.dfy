/**
 * The page (`Index`): the working list of salary entries and the import
 * text, changed only by the three handlers.
 */
module SalaryPage {
  import opened Wrappers
  import opened Banknotes
  import opened Salaries
  import opened Totals
  import Csv
  import CashBreakdown
  import opened Rounding
  import SalaryForm

  /** What a bulk import reports. */
  datatype ImportOutcome =
    | Imported(count: nat)          // the list was replaced by `count` entries
    | NoData                        // nothing but blanks and commas
    | InvalidToken(token: string)   // the first token that is not a number

  /**
   * The entries a successful import of `amounts` produces. `clock(k)` is the
   * time read for the entry at position `k`: the clock is read once per
   * entry, so one import may carry several times.
   */
  function ImportedEntries(amounts: seq<real>, clock: nat -> int): (s: seq<SalaryData>)
    ensures |s| == |amounts|
    ensures forall k :: 0 <= k < |s| ==> s[k] == NewEntry(CsvId(clock(k), k), amounts[k])
  {
    seq(|amounts|, k requires 0 <= k < |amounts| => NewEntry(CsvId(clock(k), k), amounts[k]))
  }

  /** Entries of one import carry pairwise different ids. */
  lemma ImportedIdsDistinct(amounts: seq<real>, clock: nat -> int, j: nat, k: nat)
    requires j < k < |amounts|
    ensures ImportedEntries(amounts, clock)[j].id != ImportedEntries(amounts, clock)[k].id
  {
  }

  /**
   * The throwing `map` of the import: reads the tokens in order and stops at
   * the first one that is not a number.
   */
  method ReadNumbers(tokens: seq<string>, parse: string -> Option<real>) returns (r: Result<seq<real>, nat>)
    ensures r == Csv.ParseAll(tokens, parse)
  {
    var numbers: seq<real> := [];
    for i := 0 to |tokens|
      invariant |numbers| == i
      invariant forall k :: 0 <= k < i ==> parse(tokens[k]) == Some(numbers[k])
    {
      var num := parse(tokens[i]);
      if num.None? {
        var expected := Csv.ParseAll(tokens, parse);
        assert expected.Err? && expected.error == i;
        return Err(i);
      }
      numbers := numbers + [num.value];
    }
    r := Ok(numbers);
    var expected := Csv.ParseAll(tokens, parse);
    assert expected.Ok?;
    assert |expected.value| == |numbers|;
    assert forall k :: 0 <= k < |numbers| ==> expected.value[k] == numbers[k] by {
      forall k | 0 <= k < |numbers|
        ensures expected.value[k] == numbers[k]
      {
        assert Some(expected.value[k]) == parse(tokens[k]) == Some(numbers[k]);
      }
    }
    assert expected.value == numbers;
  }

  /** The `map` that turns each amount into an entry, in order, with ids from the clock and the position. */
  method BuildEntries(amounts: seq<real>, clock: nat -> int) returns (entries: seq<SalaryData>)
    ensures entries == ImportedEntries(amounts, clock)
  {
    entries := [];
    for index := 0 to |amounts|
      invariant entries == ImportedEntries(amounts[..index], clock)
    {
      var entry := MakeEntry(CsvId(clock(index), index), amounts[index]);
      assert amounts[..index + 1] == amounts[..index] + [amounts[index]];
      entries := entries + [entry];
    }
    assert amounts[..|amounts|] == amounts;
  }

  class Page {
    /** `salaries` state. */
    var salaries: seq<SalaryData>
    /** `csvInput` state. */
    var csvInput: string

    /** Every entry's rounded value and breakdown were computed from its original amount. */
    ghost predicate Valid()
      reads this
    {
      forall k :: 0 <= k < |salaries| ==> Computed(salaries[k])
    }

    constructor ()
      ensures Valid() && salaries == [] && csvInput == ""
    {
      salaries := [];
      csvInput := "";
    }

    /** The text area's `onChange`. */
    method SetCsvInput(text: string)
      requires Valid()
      modifies this
      ensures Valid() && csvInput == text && salaries == old(salaries)
    {
      csvInput := text;
    }

    /**
     * `handleCsvSubmit`: all or nothing. A token that is not a number, or no
     * token at all, leaves both the list and the text as they were; otherwise
     * the list is replaced by one entry per token, in order, and the text cleared.
     */
    method HandleCsvSubmit(parse: string -> Option<real>, clock: nat -> int) returns (outcome: ImportOutcome)
      requires Valid()
      modifies this
      ensures Valid()
      ensures var tokens := Csv.Tokens(old(csvInput));
        match Csv.ParseAll(tokens, parse)
        case Err(k) =>
          outcome == InvalidToken(tokens[k]) && salaries == old(salaries) && csvInput == old(csvInput)
        case Ok(amounts) =>
          if amounts == [] then
            outcome == NoData && salaries == old(salaries) && csvInput == old(csvInput)
          else
            outcome == Imported(|amounts|) && salaries == ImportedEntries(amounts, clock) && csvInput == ""
    {
      var rawValues := Csv.Tokens(csvInput);
      var validNumbers := ReadNumbers(rawValues, parse);
      if validNumbers.Err? {
        return InvalidToken(rawValues[validNumbers.error]);
      }
      if |validNumbers.value| == 0 {
        return NoData;
      }
      var newSalaries := BuildEntries(validNumbers.value, clock);
      salaries := newSalaries;
      csvInput := "";
      outcome := Imported(|newSalaries|);
    }

    /** `handleAddSalary`: one entry is appended; the earlier ones and the text stay. */
    method HandleAddSalary(salary: real, now: int)
      requires Valid()
      modifies this
      ensures Valid()
      ensures salaries == old(salaries) + [NewEntry(ManualId(now), salary)]
      ensures csvInput == old(csvInput)
    {
      var newSalary := MakeEntry(ManualId(now), salary);
      salaries := salaries + [newSalary];
    }

    /** `handleReset`: the list and the text are emptied. */
    method HandleReset()
      requires Valid()
      modifies this
      ensures Valid() && salaries == [] && csvInput == ""
    {
      salaries := [];
      csvInput := "";
    }
  }

  /**
   * The manual form wired to the page (`onSubmit={handleAddSalary}`): a
   * rejected submission changes nothing on the page; an accepted one appends
   * exactly one entry, whose amount is positive.
   */
  method SubmitManualEntry(form: SalaryForm.Form, page: Page, parse: string -> Option<real>, now: int)
    requires page.Valid()
    modifies form, page
    ensures page.Valid() && page.csvInput == old(page.csvInput)
    ensures SalaryForm.Validate(old(form.salary), parse).None? ==>
              page.salaries == old(page.salaries) && form.salary == old(form.salary)
    ensures SalaryForm.Validate(old(form.salary), parse).Some? ==>
              page.salaries == old(page.salaries) + [NewEntry(ManualId(now), SalaryForm.Validate(old(form.salary), parse).value)] &&
              page.salaries[|page.salaries| - 1].original > 0.0 && form.salary == ""
  {
    var submitted := form.HandleSubmit(parse);
    if submitted != [] {
      page.HandleAddSalary(submitted[0], now);
    }
  }

  /**
   * What the cash panel is given (`breakdown={totalCash}`,
   * `totalAmount={roundedTotal}`) agrees: when every entry on the page came
   * from a non-negative amount, the cash value the panel computes equals the
   * total shown beside it.
   */
  lemma CashPanelMatchesTotal(page: Page)
    requires page.Valid()
    requires forall k :: 0 <= k < |page.salaries| ==> page.salaries[k].original >= 0.0
    ensures CashBreakdown.TotalCashValue(TotalCash(page.salaries)) as real == RoundedTotal(page.salaries)
    ensures TotalCash(page.salaries).NonNegative()
  {
    TotalCashPaysRoundedTotal(page.salaries);
  }

  /**
   * The import does not reject negative amounts, and for them the panel's two
   * figures part: an amount of -10 or below (say -12, rounded to -10) gets no
   * notes or coins, so the entry is not paid out and the panel is given an
   * all-zero breakdown (cash value 0) beside a negative total.
   */
  lemma NegativeImportShortfall(id: EntryId, amount: real)
    requires amount <= -10.0
    ensures NewEntry(id, amount).breakdown == Zero() && NewEntry(id, amount).rounded < 0.0
    ensures !PaidOut(NewEntry(id, amount))
    ensures TotalCash([NewEntry(id, amount)]) == Zero()
    ensures RoundedTotal([NewEntry(id, amount)]) < 0.0
  {
    NegativeEntryCash(id, amount);
    NegativeEntryTotal(id, amount);
  }

  /** An entry from an amount at or below zero adds nothing to the combined breakdown. */
  lemma NegativeEntryCash(id: EntryId, amount: real)
    requires amount <= 0.0
    ensures TotalCash([NewEntry(id, amount)]) == Zero()
  {
    TotalCashSingle(NewEntry(id, amount));
  }

  /** An entry from -10 or below makes the rounded total negative. */
  lemma NegativeEntryTotal(id: EntryId, amount: real)
    requires amount <= -10.0
    ensures RoundedTotal([NewEntry(id, amount)]) == NewEntry(id, amount).rounded < 0.0
  {
    assert [NewEntry(id, amount)][..0] == [];
  }
}
