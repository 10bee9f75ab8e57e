# NPS analyzer — a Dafny model of its aggregation engine

The NPS analyzer reads a table of survey orders. Each order row carries:
- its supplier, sub-account and follower, each as an id and a name;
- a travel date;
- a denominator weight (分母V5);
- a fitted detractor flag (拟合诋毁V5);
- a fitted promoter score (拟合推荐V5);
- a user-feedback flag (有用户反馈).

From these it reports Net Promoter Score tables. This project models the `NPSAnalyzer` class of `nps_analyzer.py`:

- **Load.** The required-column check and the overall NPS baseline.
- **Metric calculator.** For any group of rows: order count, rounded denominator, truncated detractor count, rounded promoter sum, detractor and promoter rates, and NPS.
- **Overall analysis.**
  - One row per (supplier id, supplier name).
  - Sorted by NPS descending and ranked.
  - A row is flagged below the NPS target when its NPS is under it.
  - Each supplier's contribution to the baseline is its share of the total denominator times its NPS minus the baseline. A negative contribution is flagged.
- **Supplier list.** One entry per supplier, with its order count.
- **Follow-up table of one supplier.**
  - Every order gets a priority and a follow-up type.
  - Orders are sorted by priority, then by weight descending.
- **Date breakdown of one supplier.**
  - Day metrics in ascending date order.
  - The NPS of the running totals.
  - Whether that running NPS rose, fell or held against the previous date.
- **Account and follower breakdowns of one supplier.**
  - Shares and contributions are measured against the supplier's own metrics.
  - A group is flagged negative when its NPS is below the supplier's.

## How it is modelled

**Numbers are `real`.**
- Every computation takes an `Arith` mode.
  - `Rounded` applies each `round(x, d)` of `nps_analyzer.py`. It uses round-half-to-even at `d` decimals, as numpy does.
  - `Exact` reads every `round` as the identity.
- `int(...)` truncates toward zero in both modes.
- The analyzer's queries use `Rounded`.
- Identities that rounding would spoil are proved for `Exact`, for example "the shares add up to 1".

**Grouping.** Grouping on (id, name) is `GroupKeys`. It yields the distinct keys in ascending order: by id, then by name in code-point order, as pandas `groupby` does.

**Sorting.** `list.sort(key=..., reverse=True)` is a stable insertion sort on a tuple key. Descending order is ascending on the negated value. Python's reverse sort is stable, so equal NPS values keep group-key order.

**Dates.** Travel dates are day numbers. Their order is the order of the `YYYY-MM-DD` strings the analyzer groups on.

**Modules:**
- `Ordering`: string and key order, sort keys.
- `Rows`: rows, column sums, selection, group keys.
- `Rounding`
- `Metrics`
- `StableSort`
- `Dimension`: one grouped, sorted breakdown with shares, contributions and flags. It is shared by the overall, account and follower tables.
- `Supplier`: baseline, overall analysis, supplier list.
- `Scoped`: the account and follower breakdowns.
- `FollowUp`
- `Dates`
- `Analyzer`: analyzer state, load, queries.
- `Optional`

## Model

| member | source | states |
|---|---|---|
| `Rows.GroupKeys` | nps_analyzer.py:72-74 | the groups are each distinct key of the rows exactly once, strictly ascending |
| `Rows.SupplierRows` | nps_analyzer.py:211-213 | the supplier filter keeps exactly the rows with that supplier id, in table order, and is empty exactly when no row has it |
| `Rows.SupplierRowsPartition` | nps_analyzer.py:211 | the supplier's rows and every other supplier's rows together have as many rows as the table and add up to its column sums, so the filter keeps every copy of a matching row |
| `Rows.SelectSplitSum` | nps_analyzer.py:45-47 | column sums over a union of distinct groups split into the group's sum plus the rest |
| `Rounding.RoundError` | nps_analyzer.py:58-63 | `round(x, d)` lies within half a unit of the d-th decimal of `x` |
| `Rounding.RoundIdempotent` | nps_analyzer.py:58-63 | rounding an already rounded value to the same precision changes nothing |
| `Rounding.RoundSign` | nps_analyzer.py:86-87 | rounding never turns a negative value positive or a positive one negative |
| `Rounding.Trunc` | nps_analyzer.py:59 | `int(x)` truncates toward zero: at most `x` and within 1 of it for positive `x`, symmetric for negative |
| `Metrics.CalcMetrics` | nps_analyzer.py:43-64 | order count is the row count; detractor count is the truncated flag sum; zero rates and NPS without positive denominator; read exactly, the sums and NPS are those of the columns, and with positive denominator the detractor rate is 100 times the flag sum over the denominator and the promoter rate 100 times the weighted promoter score over it |
| `Metrics.MetricsFormula` | nps_analyzer.py:50-53 | read exactly, with positive denominator, NPS equals promoter rate minus detractor rate, and NPS times denominator is 100 times promoter minus detractor sum |
| `Metrics.RoundedMetrics` | nps_analyzer.py:57-63 | as reported, the order and detractor counts are the exact ones and every other quantity is the exact one rounded to two decimals |
| `Metrics.RoundedRatesMissNps` | nps_analyzer.py:50-63 | as reported, NPS need not be promoter rate minus detractor rate: two full-weight detractors and one full-weight promoter report 33.33, 66.67 and NPS -33.33 |
| `Metrics.PromoterRateIsPercent` | nps_analyzer.py:48-62 | with non-negative weights and promoter scores in [0, 1] the promoter rate is in [0, 100] |
| `Metrics.DetractorRateIsPercent` | nps_analyzer.py:47-61 | the detractor rate is in [0, 100] when each flag is at most its row's weight |
| `Metrics.DetractorRateExceeds100` | nps_analyzer.py:47-61 | a single detractor with weight 0.6 has a detractor rate above 100, because flags are summed unweighted |
| `StableSort.Sort` | nps_analyzer.py:91 | the sort is a permutation of its input and ordered by the key |
| `StableSort.SortStable` | nps_analyzer.py:149 | items with equal sort keys keep their input order |
| `StableSort.SortKeepsTieOrder` | nps_analyzer.py:91 | items already ascending by group key stay ascending among equal sort keys |
| `StableSort.SortSum` | nps_analyzer.py:91 | sorting does not change the sum of any attribute |
| `Dimension.StatOf` | nps_analyzer.py:76-87 | a group's metrics are those of its rows; share is its denominator over the total; the contribution is the NPS gap to the reference times the share, read exactly, and that product rounded to four decimals as reported; zero without positive total; under the supplier rule the negative flag holds exactly when the unrounded product is below zero, in either reading, and otherwise exactly when the group's NPS is below the reference; a flagged group never shows a positive contribution |
| `Dimension.Contribution` | nps_analyzer.py:79-86 | the reported contribution `round(gap * share, 4)` is within 0.00005 of the product and never of the opposite sign |
| `Dimension.Analyze` | nps_analyzer.py:73-92 | one statistics row per group key and none other, keys distinct, NPS non-increasing, equal NPS in key order |
| `Dimension.SharesSumToOne` | nps_analyzer.py:78 | read exactly, with positive total denominator the group shares add up to 1 |
| `Dimension.ContributionsCancel` | nps_analyzer.py:35-41 | read exactly, contributions measured against the NPS of all rows add up to 0 whenever every group has positive weight or carries neither promoter score nor detractor flags |
| `Dimension.NonNegativeCancellable` | nps_analyzer.py:45-47 | with no negative weights, a group without weight has no promoter score, so the cancellation condition needs only that such groups carry no detractor flag |
| `Supplier.BaselineIsWholeNps` | nps_analyzer.py:35-41 | the baseline is the NPS of the whole table when its denominator is positive, otherwise the previous baseline |
| `Supplier.OverallAnalysis` | nps_analyzer.py:66-95 | one result per (supplier id, name), ranks 1..n in order, NPS descending with ties in key order, each result its supplier's statistics against the total denominator and the baseline, below-target exactly when NPS is under the target |
| `Supplier.OverallSharesSumToOne` | nps_analyzer.py:78 | read exactly, the suppliers' shares of the total denominator add up to 1 |
| `Supplier.OverallContributionsCancel` | nps_analyzer.py:77-79 | read exactly, right after a load with positive denominator, the suppliers' contributions cancel whenever no supplier without weight carries a promoter score or a detractor flag |
| `Supplier.WeightlessDetractorBreaksCancel` | nps_analyzer.py:37-40 | a detractor that is the only, weight-0, order of its supplier moves the baseline, while its supplier's share is 0, so contributions add up to 100 rather than 0 |
| `Supplier.WeightlessDetractorInWeightedGroupCancels` | nps_analyzer.py:37-41 | adding a weight-0 detractor to a supplier with weight keeps the contributions cancelling, while the same flag in a weightless supplier breaks the condition |
| `Supplier.SupplierList` | nps_analyzer.py:97-105 | one entry per distinct (id, name), ascending, each counting that supplier's rows, never 0 |
| `Supplier.SupplierCountsSum` | nps_analyzer.py:101-105 | the supplier list's counts add up to the number of rows |
| `Supplier.SupplierListMatchesOverall` | nps_analyzer.py:72-101 | the supplier list and the overall analysis cover the same suppliers, and the list's count is the analysis' order count |
| `Scoped.Breakdown` | nps_analyzer.py:206-276 | empty exactly for an unknown supplier; one row per account (follower) of the supplier; each against the supplier's rounded denominator and NPS; negative exactly when its NPS is below the supplier's; NPS descending with ties in key order |
| `Scoped.BreakdownSharesSumToOne` | nps_analyzer.py:227 | read exactly, the groups' shares of the supplier's denominator add up to 1 |
| `Scoped.BreakdownContributionsCancel` | nps_analyzer.py:227-228 | read exactly, the groups' contributions to the supplier's NPS cancel whenever each of its groups has positive weight or carries neither promoter score nor detractor flags |
| `FollowUp.Classify` | nps_analyzer.py:117-146 | priority 1 exactly for weight 1 with detractor 1, 2 exactly for weight 0.6, else 3, with matching label; praise sought exactly without feedback; conversion exactly for a detractor with feedback |
| `FollowUp.FollowUpManagement` | nps_analyzer.py:107-150 | empty exactly for an unknown supplier; a permutation of the supplier's classified orders; priority ascending, weight descending within a priority |
| `FollowUp.FollowUpCoversOrders` | nps_analyzer.py:117-146 | every order of the supplier appears classified, and nothing else |
| `FollowUp.FollowUpStable` | nps_analyzer.py:149 | orders with equal priority and weight keep their row order |
| `FollowUp.ClassifyConsistent` | nps_analyzer.py:119-143 | an order to convert is a detractor with feedback; a priority-1 order is a full-weight detractor; an order for praise has no feedback |
| `Dates.TrendOf` | nps_analyzer.py:187-191 | first date exactly without a previous value; improved, declined or unchanged exactly as the cumulative NPS is above, below or equal to the previous one |
| `Dates.DateDimension` | nps_analyzer.py:152-204 | empty exactly for an unknown supplier; one row per travel date of the supplier, strictly ascending; each row carries that day's metrics |
| `Dates.FoldRunning` | nps_analyzer.py:166-202 | the loop's row at each position carries the NPS of the totals of all dates so far and compares it with the totals one date earlier |
| `Dates.DateRunningTotals` | nps_analyzer.py:175-202 | row i's cumulative NPS is that of the day values over the first i + 1 dates; its trend compares with the first i dates, or is the first-date mark |
| `Dates.CumulativeIsPrefixNps` | nps_analyzer.py:175-184 | read exactly, with whole detractor flags on the supplier's rows, the cumulative NPS on a date is the NPS of all the supplier's rows dated on or before it |
| `Dates.FinalCumulativeIsSupplierNps` | nps_analyzer.py:175-184 | read exactly, with whole detractor flags on the supplier's rows, the last cumulative NPS is the supplier's NPS |
| `Analyzer.MissingColumns` | nps_analyzer.py:12-16 | the missing columns are exactly the required columns not present, listed in the required order, and none exactly when all are present |
| `Analyzer.Load` | nps_analyzer.py:23-33 | rejected exactly when a required column is missing, naming all of them; a rejected table still replaces the frame but keeps the baseline; an accepted one reports its row count and distinct supplier names and sets the baseline when it has weight |
| `Analyzer.LoadIdempotent` | nps_analyzer.py:23-41 | loading the same table twice leaves the analyzer as one load does |
| `Analyzer.WeightlessLoadKeepsBaseline` | nps_analyzer.py:21-41 | after a table without weight the baseline is still the previous table's NPS, or 0 on a fresh analyzer |
| `Analyzer.SupplierCountAtMostList` | nps_analyzer.py:31 | the load message's supplier count counts names, never more than the supplier list's entries |
| `Analyzer.FreshAnalyzerAnswersEmpty` | nps_analyzer.py:18-21 | before any load all six queries answer an empty list |
| `Analyzer.LoadedOverallAnalysis` | nps_analyzer.py:23-95 | after an accepted load with weight, the overall analysis lists as many suppliers as the supplier list, ranked 1..n, against the analyzer's target and the whole table's NPS |
| `Analyzer.RejectedTableFailsQueries` | nps_analyzer.py:26-29 | after a rejected load every query fails naming the missing columns |

## Left out

- Reading Excel files: `Load` takes a table already read, as column names plus typed rows. The exception path of `load_excel` is not modelled.
- `to_csv`, `generate_all_csvs` and app.py: CSV and ZIP output and the web front end are formatting and I/O.
- Binary floating point: the model uses exact reals. `round` is half-to-even on the exact value, so float ties that differ from their decimal reading are not modelled.
- Dates: `pd.to_datetime(...).dt.strftime('%Y-%m-%d')` is modelled as a day number with the same order. Parsing and invalid dates are left out.
- Ids: ids are integers. The `int(...)` and `str(...)` conversions of the output columns are left out, and so are missing (NaN) keys, which pandas drops from groups.
- Output records are datatypes rather than dictionaries; '是'/'否' columns are booleans.
  - The priority label `分母{weight}` is `WeightLabel(weight)` without its float formatting.
  - A group's share, computed but not emitted by the analyzer, is kept as a field.
- Analyzer.RejectedTableFailsQueries: after a rejected load, pandas raises a KeyError only in queries that read a missing column. The model fails every query on such a table.
- Dimension.SharesSumToOne: proved for the exact reading only. With `round` applied, the shares add up to 1 only within rounding error.
- Supplier.OverallSharesSumToOne: exact reading only, for the same reason.
- Scoped.BreakdownSharesSumToOne: exact reading only, for the same reason.
- Dimension.ContributionsCancel: exact reading, and only when every group has positive weight or carries neither promoter score nor detractor flags. Detractor flags are summed unweighted. A weightless detractor in a group with weight moves that group's NPS along with the reference, so the sum still cancels (`Supplier.WeightlessDetractorInWeightedGroupCancels`). One in a group with no weight at all shifts the reference while its group's share is 0 (`Supplier.WeightlessDetractorBreaksCancel`).
- Supplier.OverallContributionsCancel: exact reading and the same per-supplier condition, as above.
- Scoped.BreakdownContributionsCancel: exact reading and the same condition on the supplier's account or follower groups, as above.
- Dates.CumulativeIsPrefixNps: exact reading, and only with whole-number detractor flags on the supplier's rows, because the running detractor total adds the truncated day counts.
- Dates.FinalCumulativeIsSupplierNps: exact reading and whole-number detractor flags, as above.
- Analyzer.LoadedOverallAnalysis: stated for tables with positive total weight. Without weight every share is 0, and the baseline is whatever the previous load left (see `Analyzer.WeightlessLoadKeepsBaseline`).
