# Returns edition — a Dafny model

The returns edition page of the accounting back office (`test.py`, lines 1-97)
takes the pivot table built by the base edition. Each row of that table has an
account (`Compte`), an analytic code (`Code_Analytique`, the book's ISBN) and a
debit and a credit. The page:

1. rewrites the `Compte` column with `normalize_compte`: a number becomes the
   decimal text of its integer part, a missing value the empty string, and any
   other text is stripped of surrounding whitespace;
2. fills missing `Débit` and `Crédit` with 0;
3. detects the accounts of three categories by prefix: returns (`709000…`),
   bookseller discounts (`709100…`) and provisions on returns (`681…`);
4. keeps the rows of each category;
5. shows nothing when there is neither a returns row nor a discount row;
6. otherwise groups each non-empty category by analytic code. Returns are
   debit − credit, discounts credit − debit, provisions the debit alone;
7. outer-merges the three per-code tables into one synthesis, fills the gaps
   with 0 and adds `Total_impact`, the sum of the three amounts;
8. shows the global totals of the four columns.

The model has six modules:

- `Wrappers` (`wrappers.dfy`): the `Option` type, used for missing cells and
  for NaN during the merges.
- `Accounts` (`accounts.dfy`): account cells, `normalize_compte` and the
  category prefixes.
- `Pivot` (`pivot.dfy`): the rows, the cleaning step, the category
  selections and the group-by.
- `ColumnSums` (`totals.dfy`): sums over tables keyed by analytic code.
- `Synthesis` (`synthesis.dfy`): the per-code amounts, the outer merges, the
  global totals, and the page itself as the method `ReturnsEdition`.
- `Properties` (`properties.dfy`): what the page promises, stated about the
  pivot table it reads.

The loops of pandas' group-by, of the column sums and of the page are modelled
as methods. Each is proved equal to a reference definition:

- `GroupBy` is proved equal to `GroupSums`, a table with one entry per code.
- `SumColumns` is proved equal to `ColumnTotals`.
- `ReturnsEdition` is proved equal to `Edition`.

The lemmas state the page's properties about those reference definitions.

Conventions of the model:

- Amounts are exact integers, read as cents.
- A frame is a sequence of rows.
- A per-code table is a map from analytic code to amount.
- A value not yet known during the merges (NaN in pandas) is `None`.

## Model

| member | source | states |
|---|---|---|
| Accounts.Strip | test.py:14 | Python's `str.strip()`. The result is a slice of the input with only whitespace (Python's `str.isspace` set) before and after it, and it neither starts nor ends with whitespace |
| Accounts.StripIdempotent | test.py:18 | stripping an already stripped account text changes nothing |
| Accounts.StripNoSpace | test.py:14 | a text without whitespace is left unchanged by the strip |
| Accounts.Trunc | test.py:14 | `int()` on a float truncates toward zero: the result lies within 1 of the value, on the value's side of 0 |
| Accounts.Digits | test.py:14 | `str()` of a non-negative int is a non-empty string of decimal digits with no leading zero |
| Accounts.DigitsRoundTrip | test.py:14 | the digits written by `str()` read back as the same number |
| Accounts.DecimalRoundTrip | test.py:14 | the text `str(int(…))` produces reads back as the same integer (so distinct integers give distinct account texts), contains no whitespace and has no fractional part |
| Accounts.NormalizeCompteSpec | test.py:12-18 | `normalize_compte`: a number becomes the canonical decimal text of its integer part (non-empty, no leading zero except "0", no "-0…"), which reads back as that integer and has no '.' and no whitespace; a missing value becomes ""; other text becomes its stripped form, and normalising that result again gives the same text |
| Accounts.NormalizeWholeNumber | test.py:14 | the float 709000.0 becomes the account "709000" |
| Accounts.NormalizeNegativeNumber | test.py:14 | the float -681.9 becomes "-681" (truncation toward zero) |
| Accounts.NormalizePaddedText | test.py:15-18 | the text " 709100 A ", which `float()` rejects, is only stripped, to "709100 A", and that account is in the discounts category |
| Accounts.DecimalCanonical | test.py:14 | `str()` of any int is canonical: non-empty, no leading zero except "0" itself, and no zero right after a minus sign |
| Accounts.Classify | test.py:25-27 | an account has category c exactly when it starts with c's prefix (709000, 709100, 681) |
| Accounts.CategoriesDisjoint | test.py:25-27 | no account starts with the prefixes of two different categories, so no row is counted twice |
| Pivot.Normalize | test.py:20-22 | the cleaned frame has one row per pivot row, in order. Each row has the normalised account, the same analytic code, and amounts with missing values as 0 |
| Pivot.MissingAmountIsZero | test.py:21-22 | a missing debit or credit becomes 0 and a present one keeps its value |
| Pivot.DetectedAccounts | test.py:25-27 | the detected accounts of a category are exactly the distinct accounts of the frame that start with its prefix |
| Pivot.DetectThenSelect | test.py:25-37 | keeping the rows whose account was detected (`isin`) selects exactly the rows whose account has the category's prefix |
| Pivot.RowsOfEmpty | test.py:35-37 | a category's selection is empty exactly when no account of the frame has its prefix |
| Pivot.CategoriesPartition | test.py:35-37 | the three selections and the unclassified rows together are the frame as a multiset: every row is in exactly one |
| Pivot.CodesExist | test.py:47 | a code is a group-by key exactly when some row carries it; a code that is not a key has no rows |
| Pivot.RowsOfCodes | test.py:47 | a code appears in a category's group-by exactly when a row of that category carries it |
| Pivot.CodedRowOrigin | test.py:20 | a cleaned row with code k and some category comes from a pivot row with code k whose normalised account has a category, and back |
| Pivot.GroupSumsLast | test.py:47 | the group-by of a frame is the group-by of the frame without its last row, with that row's amounts added to its own code only |
| Pivot.GroupedIsGroupSums | test.py:47 | folding the rows one at a time into an empty table builds the group-by table |
| Pivot.GroupBy | test.py:47 | the group-by: its keys are the analytic codes present (rows without a code dropped), and each code maps to the debit and credit sums over that code's rows |
| ColumnSums.SumValuesRemove | test.py:89-93 | a column sum does not depend on the order of the codes: any entry can be taken out first |
| ColumnSums.SumValuesUpdate | test.py:89-93 | changing one code's value changes the column sum by the difference |
| ColumnSums.SumValuesPadded | test.py:76 | filling the gaps of an outer merge with 0 does not change a column's sum |
| Synthesis.OuterMerge | test.py:73 | outer merge on `Code_Analytique`. Every code of either side gets a line, the new column holds the merged table's amount (NaN where it lacks the code), and every other column keeps its value (NaN for a code new to the frame) |
| Synthesis.MergeTables | test.py:71-77 | the merges, the fill and `Total_impact`. A merge is skipped only for an empty table, and the result is the synthesis of the three tables: each code of any table, each amount that table's or 0, the total their sum |
| Synthesis.ColumnTotalsInsert | test.py:89-93 | adding a synthesis line for a new code adds that line to every total |
| Synthesis.SumColumns | test.py:89-94 | the totals table is the sum of each synthesis column |
| Synthesis.ImpactIsSumOfTotals | test.py:77-93 | when every line's total is the sum of its amounts, the global impact is the sum of the three global totals |
| Synthesis.SynthesisTotals | test.py:76-93 | the global returns, discount and provision totals are the sums of the three per-code tables, and the global impact is their sum |
| Synthesis.AmountsUpdate | test.py:47-64 | changing one code's sums changes the sum of the amount column by the difference of that code's amount |
| Synthesis.AddRowTotal | test.py:47-64 | folding one row into the group-by adds that row's own amount (or nothing, for a row without a code) to the sum of the amount column |
| Synthesis.GroupedTotal | test.py:47-64 | the amount column of the folded group-by sums to the category's amount over all rows that carry a code |
| Synthesis.GroupingPreservesTotal | test.py:47-64 | summing a category's per-code amounts gives its amount over all its coded rows: the group-by neither loses nor double-counts a row |
| Synthesis.TableLookup | test.py:47-49 | a category's table gives each code the category's amount over that code's rows, and 0 to a code without rows |
| Synthesis.TableKeys | test.py:47-49 | a category's table lists exactly the analytic codes of that category's rows |
| Synthesis.EmptyTable | test.py:67-71 | a category without rows contributes an empty table |
| Synthesis.ReturnsEdition | test.py:9-97 | the page body (clean, detect, select, guard, group, merge, fill, total, sum) yields exactly the reference result `Edition`: nothing when neither returns nor discounts exist, otherwise the synthesis and its totals |
| Properties.NoReportWithoutReturnsOrDiscounts | test.py:43-97 | the page shows nothing exactly when no normalised account starts with 709000 or 709100, whatever provision rows exist |
| Properties.SynthesisCodes | test.py:47-76 | the synthesis has a line for code k exactly when some pivot row carries code k and has a category |
| Properties.SynthesisLine | test.py:45-77 | each synthesis line holds returns as debit − credit over the code's returns rows, discounts as credit − debit over its discount rows, and provisions as the debit of its provision rows (0 where there are none), with `Total_impact` their sum |
| Properties.TotalsMatchRows | test.py:89-94 | the global totals are the net amounts over all coded rows of each category, and the global impact is their sum |

## Left out

- The Streamlit interface is not modelled: headers, `st.write` messages, `st.dataframe`/`st.table` display and the `{:,.0f}` number formatting (lines 4, 29-32, 39-41, 50-51, 58-59, 65-66, 79-85, 95, 97).
- The `session_state` lookup and the warning when no pivot table exists (lines 6-9) are left out: the pivot table is the page's parameter.
- Python's `float()` grammar for text is not modelled. A `Text` cell stands for text that `float()` rejects, and also for `"nan"`: `float()` accepts it, `int()` then raises `ValueError`, and lines 15-18 return the text stripped. Text that `float()` accepts as a finite number, such as `"709000"` or `" 681.5 "`, is given to the model as the `Num` it parses to; text such as `"inf"` raises the uncaught `OverflowError` described below.
- When a category has no rows, its merge is skipped (lines 72 and 74), so the source's synthesis frame has no `Montant_remise` or `Montant_provision` column at all; lines 77 and 90-92 read that missing column as 0. The model always carries all three amounts in a `Line` and puts 0 in a column the source never creates: the numbers agree, the set of columns shown does not.
- Accounts.NormalizeCompte: does not model binary floating point. An account number beyond 2^53 would be rounded by `float()` before `int()`, and infinity raises `OverflowError`, which the `except` clause does not catch. `Num` carries an exact real.
- Amounts are exact integers (cents), not binary floats, so float rounding in the sums is not modelled.
- The row order of the output frames is not modelled: pandas sorts the group-by keys and the outer-merge keys, and the model uses maps.
- A column's dtype and the `_x`/`_y` suffixes of a merge are not modelled. Each merge brings a column the frame does not yet have, so no suffix ever arises.
- The analytic code is a string. A pivot row without a code (`None`) still counts for the "no returns and no discounts" guard. The group-by drops it, as pandas' default `dropna=True` does, so it reaches neither the synthesis nor the totals.
