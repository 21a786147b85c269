# Aggregation core of the FEDER/FSE 2014-2020 dashboard

The dashboard (`app.py`) reads the list of operations co-financed in France by
two European funds, FEDER and FSE, and derives every chart from a few aggregates:

- a cross-tabulation of the programmed EU amount by project theme and beneficiary
  category. It is reindexed onto two fixed canonical orderings (15 themes, 14
  categories), and a second version drops the "Indéterminé" theme row;
- a concentration curve per fund: a min–max scaled rank axis plotted against the
  min–max scaled running totals of the fund's amounts, sorted ascending;
- per fund and per tier ("P1" ordinary, "P2" large operations), the proportion
  of operations in each beneficiary category, the indeterminate category
  excluded, in ascending category order;
- the share of each theme in each category's column total, which feeds the
  radial chart's two menus;
- the angular tick positions of the two radial charts, one per theme row.

The model is a set of pure functions over immutable values, because the source
builds every aggregate as an expression.

- `records.dfy` (`Records`): the operation record, the error kinds, and the
  canonical orderings written out exactly as in the source.
- `keys.dfy` (`Keys`): Python's string order, and the sorted distinct key lists
  that pandas builds for a grouping.
- `crosstab.dfy` (`CrossTab`): pivot, reindex, drop, and mass conservation.
- `curve.dfy` (`Curve`): ascending sort, cumulative sum, min–max scaling, and both
  axes of the concentration curve.
- `shares.dfy` (`Shares`): value counts per tier, and column shares.
- `ticks.dfy` (`Ticks`): the angular ticks.
- `ratios.dfy` (`Ratios`): small facts about quotients and products of reals that
  the other modules share.

A missing value (pandas NaN) is `None` in a table cell. A min–max scaling whose
maximum equals its minimum gives 0/0, that is all NaN; this is
`Scaling.Undefined(size)`. numpy's `min()` of an empty array raises; this is
`Err(EmptyReduction)`. Amounts are exact `real`s.

Two behaviours of the code are easy to misread; the model follows the code:

- A record whose category is outside the canonical list raises no error. Its
  category's column is dropped by the reindex, so its amount reaches no cell, NaN
  counted as 0 (`CrossTab.CrossTabIgnoresUnknown`). It is not without effect:
  when its theme is canonical, it still adds that theme's row to the pivot, and
  `fillna(0)` then turns that row's empty cells into 0. Without the record, a
  theme that no other record has would read NaN in that row.
- Theme/category pairs without operations do not all read 0. `fillna(0)` runs
  before the reindex. A theme and a category that both occur in the data
  therefore read 0 where no record combines them (`CrossTab.PivotCells`). A
  canonical theme or category that no record has gives NaN cells
  (`CrossTab.CrossTabulate`).

## Model

| member | source | states |
|---|---|---|
| Records.CanonicalOrderings | app.py:47-48 | the canonical theme list has 15 distinct entries starting with "Indéterminé"; the category list has 14 distinct entries ending with the indeterminate category |
| Keys.StrLessTransitive | app.py:46 | the key order used to lay out pivot labels is transitive |
| Keys.StrLessTotal | app.py:46 | two different keys are always ordered one way or the other |
| Keys.SortedKeys | app.py:46 | the grouping index is strictly ascending and holds exactly the values that occur |
| Keys.CountOverCovers | app.py:240-243 | counting each distinct key once accounts for every element exactly once |
| CrossTab.PairSum | app.py:46 | the amount of one theme/category pair lies between 0 and the total of all records when amounts are non-negative |
| CrossTab.Pivot | app.py:46 | the pivot's rows and columns are the distinct themes and categories in ascending order, and every cell is filled |
| CrossTab.PivotCells | app.py:46 | each cell is the sum of the amounts of its theme/category pair, and a pair no record has reads 0 after fillna(0) |
| CrossTab.PivotConservesMass | app.py:46 | the pivot's cells add up to the total amount of all records |
| CrossTab.AxisIndexer | app.py:49 | reindexing an axis succeeds exactly when the axis has no repeated labels or already equals the target; every target label is found where the axis has it, and is missing exactly where it has not |
| CrossTab.Reindex | app.py:49 | success exactly when neither axis has repeated labels unless it already equals its target; the result has the target labels in order; an identical target returns the table unchanged; otherwise each cell is carried over from the matching labels, or is NaN |
| CrossTab.CrossTabulate | app.py:46-49 | the reindexed pivot has the given labels; a cell is the pair's sum when both its theme and its category occur in the data, and NaN otherwise |
| CrossTab.DataPivot | app.py:46-49 | the canonical cross-tabulation is 15 × 14 and labelled by the canonical orderings |
| CrossTab.CrossTabCellValues | app.py:46-49 | with NaN taken as 0, every cell equals the sum of its pair, including NaN cells |
| CrossTab.CrossTabConservesMass | app.py:46-49 | over distinct labels, the cells add up to the amount of the records whose theme and category are both among the labels |
| CrossTab.InGridTotalCovers | app.py:46-49 | when every record's theme and category are among the labels, that amount is the whole total |
| CrossTab.CrossTabIgnoresUnknown | app.py:49 | adding a record whose theme or category is outside the orderings changes no cell's amount |
| CrossTab.DropRow | app.py:210 | dropping a label raises KeyError exactly when the index lacks it; otherwise the label is gone and the columns are unchanged |
| CrossTab.DropRowOnce | app.py:210 | dropping a label that occurs once removes exactly its row and keeps the other rows, their cells and their order |
| CrossTab.DataPivotWithoutIndeterminate | app.py:210 | the dropped table is the canonical table without its first row: 14 themes, "Indéterminé" absent, and every other cell unchanged |
| Curve.SumPermutation | app.py:185-186 | reordering amounts does not change their sum |
| Curve.SortAscending | app.py:185-186 | sort_values returns an ascending permutation of the amounts |
| Curve.SortedPermutationUnique | app.py:185-186 | two ascending permutations of the same amounts are equal, so any sorting algorithm gives the same axis |
| Curve.CumSum | app.py:185-186 | element k of cumsum is the sum of the first k+1 amounts, and the last element is the total |
| Curve.CumSumNonDecreasing | app.py:185-186 | running totals of non-negative amounts never decrease |
| Curve.MinMax | app.py:182-183 | an empty series stays empty; the result is all NaN exactly when min equals max; otherwise every value is in [0, 1], the minimum maps to 0, the maximum to 1, and order is preserved |
| Curve.MinMaxUndefinedIffConstant | app.py:182-183 | scaling gives NaN exactly when every value is the same |
| Curve.MinMaxOfAscending | app.py:187-188 | an ascending, non-constant series is scaled to an ascending series from exactly 0 to exactly 1 |
| Curve.RankAxis | app.py:180-181 | arange(1, n) yields the ranks 1 .. n-1, and nothing for n ≤ 1 |
| Curve.NormalizedRanksValues | app.py:180-183 | for n ≥ 3 records the scaled rank axis has n-1 points k/(n-2), strictly rising from 0 to 1 |
| Curve.NormalizedRanksDegenerate | app.py:180-183 | with fewer than two records min() of the empty axis raises; with two records the single rank scales to NaN |
| Curve.NormalizedRanks | app.py:180-183 | scaling the rank axis raises (numpy's min() of an empty array) exactly when there is at most one record; otherwise it has one value per rank, n-1 in all |
| Curve.FundAmounts | app.py:185-186 | the fund's amounts are at most as many as the records, and non-negative when all amounts are |
| Curve.FundAmountsAppend | app.py:185-186 | selecting the fund's amounts from two batches of records gives the first batch's amounts followed by the second's |
| Curve.FundAmountsOne | app.py:185-186 | a single record gives its amount exactly when it belongs to the fund, and nothing otherwise |
| Curve.FundAmountsCount | app.py:185-186 | there are exactly as many amounts as records of the fund |
| Curve.CumulativeAmounts | app.py:185-186 | the cumulative axis has one point per record of the fund and ends at the fund's total; with non-negative amounts it never decreases |
| Curve.NormalizedAmounts | app.py:187-188 | the scaled cumulative axis is empty for a fund without records and has one value per record of the fund, or is NaN for each of them |
| Curve.NormalizedAmountsShape | app.py:187-188 | the scaled cumulative axis is empty for an empty fund and all NaN when constant; otherwise it is ascending within [0, 1] from exactly 0 to exactly 1 |
| Curve.RankAxisOffByOne | app.py:180-188 | the rank axis has one point fewer than the cumulative axis it is plotted against |
| Curve.RankAxisOffByOneExample | app.py:180-188 | for FSE amounts 100, 300 and 600 the cumulative axis scales to [0, 1/3, 1] but the rank axis to [0, 1] |
| Curve.NormalizedRanksFull | app.py:180-183 | with arange(1, n+1), scaling raises only for an empty fund, and otherwise gives one value per record |
| Curve.NormalizedRanksFullValues | app.py:180-183 | with arange(1, n+1), n ≥ 2 records give n scaled ranks k/(n-1), strictly rising from 0 to 1 |
| Curve.RankAxisFullMatches | app.py:180-188 | the corrected rank axis has exactly one point per point of the cumulative axis |
| Shares.TierCategories | app.py:239-243 | the selected categories never include the indeterminate category, and are at most as many as the records |
| Shares.TierCategoriesAppend | app.py:239-243 | selecting from two batches of records gives the first batch's categories followed by the second's |
| Shares.TierCategoriesOne | app.py:239-243 | a single record gives its category exactly when it has the fund and the tier and is not of the indeterminate category |
| Shares.TierCategoriesCount | app.py:239-243 | each category occurs among the selected ones exactly as often as there are records of that fund and tier with it; the indeterminate category never occurs |
| Shares.TierCategoriesLength | app.py:239-243 | there is one selected category per record of that fund and tier outside the indeterminate category |
| Shares.TierCategoriesMembers | app.py:239-243 | a category is selected exactly when some record of that fund and tier, outside the indeterminate category, has it |
| Shares.Proportions | app.py:240-243 | each listed key comes with its count divided by the total |
| Shares.ValueCounts | app.py:240-243 | value_counts(normalize=True) is empty exactly when nothing is counted, and gives each category its count over the number of operations |
| Shares.ValueCountsKeysAndShares | app.py:240-243 | value_counts().sort_index() lists exactly the categories that occur, each once, in ascending order, each with a positive share |
| Shares.ValueCountsSumToOne | app.py:240-243 | the normalized counts of a non-empty selection add up to exactly 1 |
| Shares.TierBreakdown | app.py:239-243 | a fund/tier breakdown is empty exactly when no record of that fund and tier lies outside the indeterminate category; each share is the number of those records with the category over the number of those records |
| Shares.TierBreakdownProperties | app.py:239-243 | each fund/tier breakdown excludes the indeterminate category and lists a category exactly when a selected record has it, ascending and with positive shares; when something is selected it sums to 1 |
| Shares.Column | app.py:287 | the column of a category has one cell per theme row, the cells of that column top to bottom |
| Shares.DivideCells | app.py:287 | dividing a column keeps NaN cells NaN and divides every other cell by the total |
| Shares.SumDivideCells | app.py:287 | the NaN-skipping sum of the divided column is the column sum over the total |
| Shares.ColumnShares | app.py:287 | a zero column total gives no finite shares; otherwise each non-NaN cell becomes its share of the NaN-skipping column total, and NaN cells stay NaN |
| Shares.ColumnSharesSumToOne | app.py:287 | with a non-zero total the shares of a column add up to exactly 1 |
| Shares.ShareButtons | app.py:286-292 | there is one menu series per column, the shares of that column; each that exists has one share per row; such a series sums to 1, it is missing exactly when its column totals 0, and NaN cells line up |
| Ticks.AngularTicks | app.py:222 | there is one tick per row |
| Ticks.AngularTicksRange | app.py:222 | the ticks start at 0°, strictly increase, and stay in [0°, 360°) |
| Ticks.AngularTicksEvenlySpaced | app.py:276 | consecutive ticks are 360/n degrees apart, and the last is one step short of a full turn |
| Ticks.ChartTicks | app.py:222 | the full radial chart has 15 ticks and the chart without the indeterminate theme has 14 |

## Left out

- Reading the CSV file, the column types and date parsing (app.py:20-44): I/O. The model takes the records as a sequence of `Operation` values.
- Every plotly figure, its layout and the Dash page (app.py:190-208, 212-237, 245-263, 265-299, 332-453): rendering only. The model covers the values they plot, not their presentation.
- The report prose and the treemaps built from literal percentages (app.py:51-178, 301-330): constant text and hand-written figures, with no computation on the data.
- The summaries stated in the prose (large operations over 10 million euros, financial instruments, the 90th percentile): the code computes none of them.
- Floating point: amounts are exact reals, so the sums equal to 1 hold exactly here but only up to rounding in float64.
- Missing amounts or categories in the data: every record has a category and an amount. So `count()` is the number of the fund's records, and `dropna=False` changes nothing.
- The pivot's own ordering of its rows and columns is modelled as ascending code-point order (Python's string order). Locale collation is not modelled.
- Shares.ColumnShares: a zero column total gives `None` for the whole column instead of cell by cell NaN (0/0) or ±inf (a non-zero cell over zero, possible only with amounts of both signs).
- Curve.MinMax: the all-NaN result of a constant series is recorded only by its length (`Undefined(size)`), not as a sequence of NaN values.

## Findings

| source | as written | input that shows it | evidently intended | confidence | as-written member | corrected member |
|---|---|---|---|---|---|---|
| app.py:180-181 | `np.arange(1, count)` gives count-1 ranks, one fewer than the count cumulative totals they are plotted against | three FSE operations of 100, 300 and 600: ranks scale to [0, 1] while the cumulative axis scales to [0, 1/3, 1] | `np.arange(1, count + 1)`: one rank per operation, scaled to k/(count-1) | not executed | Curve.RankAxisOffByOneExample | Curve.NormalizedRanksFullValues |
