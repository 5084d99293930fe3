# payroll_filter in Dafny

A verified model of the calculating core of payroll_filter, a single-page
payroll helper for paying salaries in Thai baht cash. The page keeps a list
of salary entries and a CSV text box. Entries come from two places: a bulk
import of comma-separated amounts, which replaces the list, and a manual
form, which appends one entry. Each amount is rounded to a multiple of 5 baht
by looking at its last digit. The rounded amount is then split greedily into
1000, 500, 100, 50 and 20 baht notes and 10 and 5 baht coins. The page shows
the totals before and after rounding and the notes and coins needed for the
whole list. Two views display a breakdown: the cash panel shows one row per
denomination that is used, and the badge strip shows one badge per
denomination with a positive count.

Modules, one concept each:

| file | module | models |
|---|---|---|
| `wrappers.dfy` | `Wrappers` | `Option` and `Result` |
| `banknotes.dfy` | `Banknotes` | the seven-key `BanknoteBreakdown` record, its value and its note count |
| `rounding.dfy` | `Rounding` | `roundAmount`, with JavaScript's truncating `%` |
| `decomposer.dfy` | `Decomposer` | `calculateBanknoteBreakdown`: the greedy loop, proved against a closed-form specification |
| `salaries.dfy` | `Salaries` | one `SalaryData` entry, computed from an id and an amount |
| `totals.dfy` | `Totals` | the three `reduce` folds over the entry list and the rounding difference |
| `csv.dfy` | `Csv` | splitting on commas, trimming, dropping blanks, parsing every token |
| `salary_form.dfy` | `SalaryForm` | the manual-entry form and its submit guard |
| `salary_page.dfy` | `SalaryPage` | the page state (`salaries`, `csvInput`) and its three handlers |
| `cash_breakdown.dfy` | `CashBreakdown` | the cash panel's totals and rows |
| `banknote_display.dfy` | `BanknoteDisplay` | the badge strip |

Amounts are exact `real`s. JavaScript's `%` keeps the sign of the dividend,
so `amount % 10` is modelled as `amount - 10 * trunc(amount / 10)` and not
with Dafny's Euclidean `%`. `Number(...)` followed by `isNaN` is a parameter
`parse: string -> Option<real>`. `Date.now()` is a parameter: `now` for a
manual entry, and `clock` for an import, where the clock is read once per
entry and `clock(k)` is the time read for the entry at position `k`. The
page's React state is a class `Page` whose methods reassign `salaries` and
`csvInput`. The form's `salary` text is a class `Form`. The form's `onSubmit`
callback is represented by the sequence of values it was called with.

Where the written description of the system and the code differ, the model
follows the code:
- Negative amounts are not rejected on the CSV path. `roundAmount` then
  always takes its first branch and truncates toward zero to a multiple of 10
  (`Rounding.RoundNegativeAmount`). The greedy loop gives an all-zero
  breakdown for any amount at or below zero (`Decomposer.Greedy`). An
  imported amount of -10 or below therefore ends up with a negative rounded
  total beside notes and coins worth 0 (`SalaryPage.NegativeImportShortfall`).
- The greedy result is described as minimal. The code only promises the
  greedy trace, and that trace is what is proved.

## Model

| member | source | states |
|---|---|---|
| Banknotes.Breakdown.With | src/types/salary.ts:17-25 | setting one key of the record changes that key and leaves the other six as they were |
| Banknotes.Zero | src/pages/Index.tsx:132-140 | the initial record has all seven keys, each with count 0 |
| Banknotes.Add | src/pages/Index.tsx:188-196 | adding two records adds their counts key by key |
| Banknotes.Value | src/components/CashBreakdown.tsx:25-27 | the cash value of a record, the sum of denomination times count; `CashBreakdown.TotalCashValue` and `Decomposer.GreedyValue` are proved against it |
| Banknotes.ValueAdd | src/pages/Index.tsx:187-205 | the value of the sum of two records is the sum of their values |
| Banknotes.ValuesInKeyOrder | src/components/CashBreakdown.tsx:22 | `Object.values` lists the seven counts in ascending key order, 5 first |
| Banknotes.SumLeft | src/components/CashBreakdown.tsx:22 | `reduce((sum, count) => sum + count, 0)` over a list of counts; `Banknotes.TotalItems` proves what it gives for a record |
| Banknotes.TotalItems | src/components/CashBreakdown.tsx:22 | the note-and-coin count is the sum of the seven counts; with no negative count, each count lies between 0 and that total |
| Rounding.Trunc | src/pages/Index.tsx:68 | truncation toward zero: within one of `x`, on the side nearer zero |
| Rounding.Rem10 | src/pages/Index.tsx:68-69 | `amount % 10` has the sign of the amount and magnitude below 10, and `amount - lastDigit` is a whole multiple of 10 |
| Rounding.RoundAmount | src/pages/Index.tsx:67-85 | the result is a whole multiple of 5; for `amount >= 0` it is non-negative and `rounded - amount` lies in [-2, 3); for a negative amount it is a non-positive multiple of 10 at most 10 above the amount |
| Rounding.RoundAmountIsNearestFive | src/pages/Index.tsx:68-81 | for `amount >= 0` the result is the single multiple of 5 in [amount - 2, amount + 3) |
| Rounding.RoundWholeAmount | src/pages/Index.tsx:68-81 | for non-negative whole amounts the result is `5 * ((n + 2) div 5)`, at most 2 baht from the amount |
| Rounding.RoundAmountKeepsMultiplesOfFive | src/pages/Index.tsx:73-78 | a non-negative whole amount ending in 0 or 5 is left unchanged |
| Rounding.RoundNegativeAmount | src/pages/Index.tsx:68-74 | a negative amount is truncated toward zero to a multiple of 10 |
| Rounding.RoundNegativeSample | src/pages/Index.tsx:68-74 | -12 rounds to -10 |
| Rounding.RoundSampleAmounts | src/pages/Index.tsx:249 | the form's sample amounts 4522, 5222, 6548, 2134 and 4444 round to 4520, 5220, 6550, 2135 and 4445 |
| Decomposer.MathRound | src/pages/Index.tsx:120 | `Math.round` returns the integer within half a unit, rounding halves up |
| Decomposer.MathRoundWhole | src/pages/Index.tsx:119-120 | `Math.round` leaves whole amounts unchanged |
| Decomposer.Greedy | src/pages/Index.tsx:143-150 | counts are never negative; an amount at or below zero gives all zeros; for a non-negative amount the 1000 count is `amount div 1000` and the others are bounded by 1, 4, 1, 2, 1, 1 |
| Decomposer.GreedyStep | src/pages/Index.tsx:144-147 | each loop step takes `floor(remaining / d)` notes of denomination `d` and leaves the remainder modulo `d`, which is the closed form's next remaining amount |
| Decomposer.GreedyValue | src/pages/Index.tsx:143-150 | for a non-negative amount the breakdown is worth `amount - amount mod 5` |
| Decomposer.GreedyExact | src/pages/Index.tsx:143-150 | for a non-negative multiple of 5 the breakdown is worth exactly the amount |
| Decomposer.CalculateBanknoteBreakdown | src/pages/Index.tsx:116-154 | the loop over the seven denominations, writing a key only when its count is positive, returns the greedy breakdown of `Math.round(amount)` |
| Decomposer.GreedySamples | src/pages/Index.tsx:143-150 | 4520, 6550 and 2135 split as (4,1,0,0,1,0,0), (6,1,0,1,0,0,0) and (2,0,1,0,1,1,1) |
| Salaries.NewEntry | src/pages/Index.tsx:43-51 | an entry keeps its id and original amount; its rounded amount is a multiple of 5 within [-2, 3) of a non-negative original; its counts are never negative, and all zero when the original is at or below zero |
| Salaries.NewEntryPaysRounded | src/pages/Index.tsx:44-49 | for a non-negative original the breakdown is worth exactly the rounded amount |
| Salaries.MakeEntry | src/pages/Index.tsx:157-163 | rounding and then running the breakdown loop yields the entry `NewEntry` describes |
| Totals.OriginalTotal | src/pages/Index.tsx:182 | `originalTotal`, the left fold of the original amounts from 0; its properties are proved in `Totals.OriginalTotalAppend` and `Totals.RoundingDifferenceBounds` |
| Totals.RoundedTotal | src/pages/Index.tsx:183 | `roundedTotal`, the left fold of the rounded amounts from 0; see `Totals.RoundedTotalAppend` and `Totals.TotalCashPaysRoundedTotal` |
| Totals.RoundingDifference | src/pages/Index.tsx:184 | `roundingDifference`, rounded total minus original total; bounded in `Totals.RoundingDifferenceBounds` |
| Totals.TotalCash | src/pages/Index.tsx:187-205 | `totalCash`, the left fold of `Add` from the all-zero record; tied to a per-denomination sum in `Totals.TotalCashIsColumnSum` |
| Totals.TotalCashIsColumnSum | src/pages/Index.tsx:187-205 | for each denomination `d`, `totalCash[d]` is the sum of `breakdown[d]` over all entries |
| Totals.OriginalTotalAppend | src/pages/Index.tsx:182 | the original total of a concatenation is the sum of the two totals |
| Totals.RoundedTotalAppend | src/pages/Index.tsx:183 | the rounded total of a concatenation is the sum of the two totals |
| Totals.TotalCashAppend | src/pages/Index.tsx:187-205 | the combined breakdown of a concatenation is the sum of the two combined breakdowns |
| Totals.TotalsCommute | src/pages/Index.tsx:182-205 | the totals do not depend on the order of two blocks of entries |
| Totals.EntryPaidOut | src/pages/Index.tsx:44-49 | an entry computed from a non-negative amount is paid out exactly by its breakdown |
| Totals.TotalCashPaysOut | src/pages/Index.tsx:183-205 | when every entry is paid out exactly, the combined breakdown is worth the rounded total |
| Totals.TotalCashNonNegative | src/pages/Index.tsx:187-205 | adding breakdowns with no negative count gives none |
| Totals.TotalCashPaysRoundedTotal | src/pages/Index.tsx:183-205 | with every entry computed from a non-negative amount, the combined breakdown is worth the rounded total and has no negative count |
| Totals.RoundingDifferenceBounds | src/pages/Index.tsx:184 | over n entries from non-negative amounts, the rounding difference lies in [-2n, 3n], and below 3n when n > 0 |
| Totals.TotalCashSingle | src/pages/Index.tsx:187-205 | a list of one entry has that entry's breakdown as its combined breakdown |
| Totals.EmptySummary | src/pages/Index.tsx:182-205 | the empty list gives zero totals and the all-zero breakdown |
| Csv.IsWhitespace | src/pages/Index.tsx:22 | the characters `trim` removes: the ECMAScript white space and line terminators |
| Csv.IsBlank | src/pages/Index.tsx:24 | a piece that trims to the empty string: whitespace only |
| Csv.Split | src/pages/Index.tsx:22 | splitting yields at least one piece, and no piece contains the separator |
| Csv.JoinSplit | src/pages/Index.tsx:22 | joining the pieces with the separator gives back the input |
| Csv.Trim | src/pages/Index.tsx:22 | the result is a slice of the input with only whitespace removed on each side, and neither end is whitespace; it is empty exactly when the input is all whitespace |
| Csv.Tokens | src/pages/Index.tsx:22-24 | no token is empty |
| Csv.NonBlank | src/pages/Index.tsx:23-24 | blank pieces are dropped and no token is empty; no token is left exactly when every piece is blank |
| Csv.NonBlankSingle | src/pages/Index.tsx:22-24 | one piece gives its trimmed text as a token, or nothing when it is blank |
| Csv.NonBlankAppend | src/pages/Index.tsx:22-24 | trimming and filtering work piece by piece: the tokens of two runs of pieces are those of the first followed by those of the second |
| Csv.NonBlankKeepsPiece | src/pages/Index.tsx:22-24 | every non-blank piece becomes its trimmed text as a token, placed after the tokens of the pieces before it and before those of the pieces after it |
| Csv.TokenIsTrimmedPiece | src/pages/Index.tsx:22-24 | every token is the trimmed form of some piece of the input |
| Csv.ParseAll | src/pages/Index.tsx:25-31 | success gives one number per token, in order; failure names the first token that is not a number; it succeeds exactly when every token parses |
| SalaryForm.Validate | src/components/SalaryForm.tsx:19-20 | text is accepted exactly when it parses to a number greater than 0, and the accepted value is that number |
| SalaryForm.Form.constructor | src/components/SalaryForm.tsx:13 | the field starts empty |
| SalaryForm.Form.SetSalary | src/components/SalaryForm.tsx:46 | typing replaces the field's text |
| SalaryForm.Form.HandleSubmit | src/components/SalaryForm.tsx:16-31 | rejected text calls nothing and stays in the field; accepted text calls `onSubmit` exactly once with the parsed value and clears the field; every submitted value is above 0 |
| SalaryPage.ImportedEntries | src/pages/Index.tsx:43-51 | an import makes one entry per amount, in order, with the id built from the time read for that entry and its position |
| SalaryPage.ImportedIdsDistinct | src/pages/Index.tsx:46 | entries from one import have pairwise different ids |
| SalaryPage.ReadNumbers | src/pages/Index.tsx:23-31 | the parsing loop stops at the first token that is not a number and otherwise returns all numbers, as `ParseAll` specifies |
| SalaryPage.BuildEntries | src/pages/Index.tsx:43-51 | the mapping loop produces exactly `ImportedEntries` |
| SalaryPage.Page.constructor | src/pages/Index.tsx:15-16 | the page starts with no entries and an empty text box |
| SalaryPage.Page.SetCsvInput | src/pages/Index.tsx:255 | typing replaces the text box and leaves the entries alone |
| SalaryPage.Page.HandleCsvSubmit | src/pages/Index.tsx:19-66 | a token that is not a number is reported and nothing changes; no tokens report "no data" and nothing changes; otherwise the list is replaced by one entry per token, in order, and the text box is cleared |
| SalaryPage.Page.HandleAddSalary | src/pages/Index.tsx:156-170 | exactly one entry is appended at the end; earlier entries and the text box are unchanged |
| SalaryPage.Page.HandleReset | src/pages/Index.tsx:172-179 | the list and the text box are emptied |
| SalaryPage.SubmitManualEntry | src/pages/Index.tsx:275 | through the form, a rejected input leaves the page unchanged and an accepted one appends one entry whose original amount is above 0 |
| SalaryPage.CashPanelMatchesTotal | src/pages/Index.tsx:304 | for a valid page whose entries all came from non-negative amounts, the cash value the panel computes from `totalCash` equals the `roundedTotal` shown beside it, and no count is negative |
| SalaryPage.NegativeImportShortfall | src/pages/Index.tsx:23-51 | an entry from an amount of -10 or below gets no notes or coins but a negative rounded amount, so it is not paid out, and a list of just that entry gives the panel an all-zero breakdown beside a negative total |
| CashBreakdown.Entries | src/components/CashBreakdown.tsx:25 | `Object.entries` lists the seven (denomination, count) pairs in ascending key order |
| CashBreakdown.SumValues | src/components/CashBreakdown.tsx:25-27 | `reduce((sum, [denom, count]) => sum + Number(denom) * count, 0)` over the entries; `CashBreakdown.TotalCashValue` proves what it gives |
| CashBreakdown.TotalCashValue | src/components/CashBreakdown.tsx:25-27 | the panel's cash value equals the sum of denomination times count |
| CashBreakdown.RowsOf | src/components/CashBreakdown.tsx:43-47 | each row comes from an entry with a non-zero count and has value denomination times count; every entry with a non-zero count gets a row |
| CashBreakdown.Rows | src/components/CashBreakdown.tsx:43-47 | the rows the panel renders for a breakdown, in key order; see `CashBreakdown.RowsShowUsedDenominations`, `CashBreakdown.RowsAscending` and `CashBreakdown.RowsTotal` |
| CashBreakdown.RowValuesSum | src/components/CashBreakdown.tsx:25-27 | the row values add up to the total over all entries, because skipped zero counts add nothing |
| CashBreakdown.RowsTotal | src/components/CashBreakdown.tsx:25-27 | the row values of a breakdown add up to its cash value |
| CashBreakdown.RowsShowUsedDenominations | src/components/CashBreakdown.tsx:43-47 | a denomination has a row exactly when its count is non-zero |
| CashBreakdown.RowShareDefined | src/components/CashBreakdown.tsx:22 | with no negative count, every row's count is positive and at most the note count, so its percentage never divides by zero |
| CashBreakdown.RowsAscending | src/components/CashBreakdown.tsx:43 | rows appear in ascending denomination order |
| BanknoteDisplay.CountFor | src/components/BanknoteDisplay.tsx:32 | `breakdown[denom]` returns the count stored under that denomination's key, the same count the record holds for that denomination |
| BanknoteDisplay.BadgesOf | src/components/BanknoteDisplay.tsx:31-33 | each badge is for a listed denomination and shows that denomination's count, which is positive |
| BanknoteDisplay.BadgesComplete | src/components/BanknoteDisplay.tsx:31-33 | every listed denomination with a positive count gets its badge |
| BanknoteDisplay.Badges | src/components/BanknoteDisplay.tsx:31-33 | the badges shown, over `denominationOrder`; see `BanknoteDisplay.BadgeShownIffPositive` and `BanknoteDisplay.BadgesDescending` |
| BanknoteDisplay.ShowsShare | src/components/BanknoteDisplay.tsx:49 | the tooltip's share line is shown when the note count is above 0 |
| BanknoteDisplay.BadgeShownIffPositive | src/components/BanknoteDisplay.tsx:32-33 | a denomination's badge is shown exactly when its count is above 0 |
| BanknoteDisplay.BadgesKeepOrder | src/components/BanknoteDisplay.tsx:31 | badges keep the order of a strictly descending denomination list |
| BanknoteDisplay.BadgesDescending | src/components/BanknoteDisplay.tsx:13 | badges appear in the order 1000, 500, 100, 50, 20, 10, 5 |
| BanknoteDisplay.BadgeCountsWithinTotal | src/components/BanknoteDisplay.tsx:27 | with no negative count, every badge's count is positive and at most the note count |
| BanknoteDisplay.ShareShownIffBadges | src/components/BanknoteDisplay.tsx:49-51 | with no negative count, the percentage line can appear (note count above 0) exactly when some badge is shown |

## Left out

- IEEE double arithmetic: amounts are exact reals, so the rounding errors of `%` and subtraction on fractional amounts are not modelled.
- `Number(...)` and `isNaN`: string-to-number conversion is the abstract `parse` parameter. This covers JavaScript's quirks (`"Infinity"`, `"0x10"`, exponent forms) only as whatever `parse` returns. An infinite value is not representable.
- Decomposer.MathRound: `Math.round` is `floor(x + 0.5)` on exact reals. The loop only ever receives whole amounts from `roundAmount`, where the two agree (`Decomposer.MathRoundWhole`).
- `Date.now()` is the parameter `now` for a manual entry and `clock` for an import. Two manual entries added in the same millisecond get the same id in the source and in the model, so no uniqueness is claimed for manual ids.
- `console.log` calls, toast titles and messages, the Thai labels and all JSX, colour and Tailwind rendering are not modelled. An import outcome keeps only its kind and the offending token.
- `toFixed`, `toLocaleString` and the percentage widths of the bars are floating-point presentation. Only the absence of a division by zero is proved (`CashBreakdown.RowShareDefined`, `BanknoteDisplay.ShareShownIffBadges`).
- React's `useState` batching and asynchronous updates: handlers are sequential updates of one `Page` object.
- The commented-out older rounding rule in `src/pages/Index.tsx` is dead code.
- `src/components/SalaryTable.tsx` is presentation only. Its one calculation, `rounded - original`, is covered by the bound in `Rounding.RoundAmount`. `src/pages/NotFound.tsx` is routing only. Neither is part of this model.
- Decomposer.Greedy: the greedy breakdown is not proved to use the fewest notes and coins. The code does not promise this.
