# Imbalance settlement pipeline — a Dafny model

This project models the core of a small settlement pipeline for the GB
electricity imbalance market. The pipeline reads two reports for a
settlement day: imbalance prices and imbalance volumes. It then:

1. **Cleans** each report. It keeps only the rows whose document status is
   `Final` and whose active flag is `Y`, projects them onto a fixed column
   set, and renames the volume report's spaced column names onto the price
   report's names (`Imbal_Processing.py`, `clean_Imbalance_Prices` and
   `clean_Imbalance_Volumes`).
2. **Merges** the cleaned tables (`merge_Imbal_dfs`):
   - it rejects empty tables;
   - it inner-joins on settlement period, settlement date and control area;
   - it keeps a joined row only when the price category matches the sign of
     the imbalance: a surplus with "Excess balance", a deficit with
     "Insufficient balance";
   - it prices each row as quantity times price, and attaches the half-hour
     interval of its settlement period (`create_half_hour_timestamps`).
3. **Analyses** the merged series (`Imbal_Analysis.py`):
   - the day's total cost and unit rate, which is the mean price
     (`calc_daily_costs`);
   - the clock hour whose summed imbalance is largest in absolute value,
     with the earliest hour winning ties, and whether it is a surplus or a
     deficit (`calc_highest_hourly_imbalance`).

Representation:
- A date is a day number (days since 1970-01-01).
- A time is minutes since 1970-01-01 00:00.
- Prices, quantities and costs are exact `real`s.
- A report is a set of column names plus typed rows, so a report that lacks a
  column the cleaner reads can be expressed.
- A cleaned table is an ordered list of column names plus typed rows.
- Exceptions raised by the source become the `Failure` values of a `Result`,
  one per error kind.
- The cleaners print and return nothing when a column is missing; the model
  returns `None`.

Modules, following the source:
- `Records`: the row and table types.
- `Seqs`: order-preserving selection.
- `Reals`: sums and means.
- `Cleaning`: the two cleaners.
- `Timestamps`: the settlement-period arithmetic.
- `Merge`: the merger.
- `MergePairs`: which pair of input rows lies behind each merged row, and how often.
- `Pipeline`: properties that cross cleaner and merger.
- `Analysis`: the two analyses.
- `Scenarios`: the repository's test scenarios, stated and proved as lemmas about the model.

Where the repository's tests and the code disagree, the model follows the
code:
- `Tests.py:103-130` expects the merge to keep the period-3 row (quantity 80
  at the "Insufficient balance" price). Line 146 of `Imbal_Processing.py`
  drops it, because a positive quantity needs the "Excess balance" price. The
  model keeps one row (`Scenarios.MergeScenario`).
- The same test expects control area `CA1` from `UK1` inputs, and a cost of
  -400 for 80 times 5. It also calls a function, `merge_dfs`, that does not
  exist.
- The analysis test compares against a return value. The analysis functions
  only print. The model returns the values the functions print.
- Cleaning is not idempotent. A cleaned price table has lost the status
  columns, so cleaning it again takes the missing-column path
  (`Cleaning.RecleaningPricesFails`).

## Model

| member | source | states |
|---|---|---|
| `Seqs.Filter` | Imbal_Processing.py:61 | The kept rows are input rows satisfying the row predicate, and every input row satisfying it is kept; never longer than the input |
| `Seqs.Positions` | Imbal_Processing.py:61 | The kept rows sit at strictly increasing positions of the input, so the selection is an order-preserving subsequence |
| `Seqs.PositionsComplete` | Imbal_Processing.py:61 | A position is selected exactly when its row passes the predicate (both directions) |
| `Cleaning.Rename` | Imbal_Processing.py:86 | Renaming keeps the number of columns, replaces each name in the rename map by its new name and leaves the other names unchanged |
| `Cleaning.Select` | Imbal_Processing.py:61-62 | Row k of the result is the projection of the k-th kept input row; every kept row's projection appears and every output row is the projection of a kept row |
| `Cleaning.CleanImbalancePrices` | Imbal_Processing.py:59-67 | Missing DocumentStatus, ActiveFlag or one of the five projected columns gives None (the print-and-return path), and only that does; otherwise exactly the five columns of line 62, with the Final/Y rows in input order and their values unchanged |
| `Cleaning.CleanImbalanceVolumes` | Imbal_Processing.py:80-91 | Missing one of the six columns read gives None, and only that does; otherwise the columns are the kept report columns renamed (`Cleaning.VolumeColumns`: SettlementDate, SettlementPeriod, ControlArea, ImbalanceQuantity), holding the Final/Y rows in input order with values copied unchanged |
| `Cleaning.VolumeColumnsNormalized` | Imbal_Processing.py:83-86 | The renamed columns are SettlementDate, SettlementPeriod, ControlArea, ImbalanceQuantity: each kept spaced column becomes its price-schema name, and no resulting name contains a space |
| `Cleaning.RecleaningPricesFails` | Imbal_Processing.py:61-67 | A table with only the five cleaned columns lacks DocumentStatus, so cleaning it again yields None |
| `Timestamps.HalfHour` | Imbal_Processing.py:111-115 | The interval ends 30 minutes after it starts; period 1 starts at midnight of the date; periods 1 to 48 lie inside their day |
| `Timestamps.SlotRoundTrip` | Imbal_Processing.py:111-114 | For periods 1 to 48 the start time determines the date and period again (inverse of the timestamp formula) |
| `Timestamps.Contiguous` | Imbal_Processing.py:111-115 | Each period ends exactly where the next one starts |
| `Timestamps.ExtraPeriodsRunIntoNextDay` | Imbal_Processing.py:111 | A period past 48 is not clamped: it is the matching period of the next day |
| `Timestamps.ClockHourOfPeriod` | Imbal_Processing.py:111-114 | Period p of a day starts in clock hour (p - 1) / 2, so two periods share each hour |
| `Merge.JoinWithComplete` | Imbal_Processing.py:144 | Every volume row on a price row's slot contributes its joined row |
| `Merge.JoinWithSound` | Imbal_Processing.py:144 | Every joined row of one price row comes from a volume row on its slot |
| `Merge.InnerJoinComplete` | Imbal_Processing.py:144 | Every price/volume pair that agrees on period, date and area is in the inner join |
| `Merge.InnerJoinSound` | Imbal_Processing.py:144 | Every inner-join row is the join of a price row and a volume row that agree on period, date and area |
| `Merge.PriceMatches` | Imbal_Processing.py:144-147 | Every output row has a matching direction and category, cost equal to quantity times price and the interval of its slot; it links to a joined pair, and every joined pair with a matching direction appears |
| `Merge.PriceMatchesPriced` | Imbal_Processing.py:146-147 | Rows priced from direction-filtered joins satisfy the tariff rule, the cost identity and the timestamp formula |
| `Merge.MergeImbalDfs` | Imbal_Processing.py:139-152 | The empty-input error exactly when either table has no rows or no columns; for non-empty tables, the column error exactly when the model's column check fails (a join or value column missing from its side, or a value column on both sides), and success otherwise; on success every row comes from a price row and a volume row on the same slot, keeps both rows' values, has quantity > 0 with "Excess balance" or < 0 with "Insufficient balance" (so never 0), costs quantity times price and carries its slot's interval; every such pair appears |
| `MergePairs.JoinWithIndicesSpec` | Imbal_Processing.py:144 | The joined rows of one price row come from the volume rows on its slot, in ascending volume position, each such volume row once |
| `MergePairs.JoinIndicesRows` | Imbal_Processing.py:144 | Row k of the inner join is the join of the price and volume rows at pair k, which share a slot |
| `MergePairs.JoinIndicesOrdered` | Imbal_Processing.py:144 | The pairs behind the inner join strictly ascend by price position, then volume position, so no pair appears twice |
| `MergePairs.JoinIndicesComplete` | Imbal_Processing.py:144 | Every pair of rows on one slot lies behind a row of the inner join |
| `MergePairs.MatchIndicesRows` | Imbal_Processing.py:144-147 | Row k of the merge is the priced join of the price and volume rows at pair k |
| `MergePairs.MatchIndicesOrdered` | Imbal_Processing.py:144-146 | The pairs behind the merged rows strictly ascend, so no pair gives two rows |
| `MergePairs.MatchIndicesSound` | Imbal_Processing.py:144-146 | A pair behind a merged row holds rows on one slot whose category matches the imbalance's direction |
| `MergePairs.MatchIndicesComplete` | Imbal_Processing.py:144-146 | Every pair of rows on one slot whose category matches the direction lies behind a merged row |
| `MergePairs.PriceMatchesOnePerPair` | Imbal_Processing.py:144-147 | The merge holds one row per matching pair of positions and no more: row k is the priced join of pair k, no pair repeats, and a pair is listed exactly when its rows share a slot and the category matches the direction |
| `MergePairs.MergeOnePerPair` | Imbal_Processing.py:139-152 | Non-empty tables passing the column check merge successfully, into one row per matching pair of positions |
| `MergePairs.OnePricePerSlot` | Imbal_Processing.py:144-146 | When no two volume rows share a slot and no two price rows share a slot and category, no two merged rows share a slot |
| `Pipeline.CleanedColumnsFit` | Imbal_Processing.py:143-149 | Tables with the cleaners' column lists pass the merge's column check |
| `Pipeline.CleanedTablesFitMerge` | Imbal_Processing.py:86-149 | Tables produced by the two cleaners never fail the merge with the column error |
| `Reals.Mean` | Imbal_Analysis.py:22 | The mean times the count is the sum |
| `Analysis.DateOf` | Imbal_Analysis.py:23 | The date is the day whose 24 hours contain the time |
| `Analysis.HourOf` | Imbal_Analysis.py:46 | The hour bucket is the hour whose 60 minutes contain the time |
| `Analysis.CalcDailyCosts` | Imbal_Analysis.py:17-29 | A non-table gives the type error and only it does; a table without rows gives the calculation error and only it does; a table with rows succeeds, and then the total is the sum of the costs, the unit rate times the row count is the sum of the prices, and the date is the day of the first row's start |
| `Analysis.UnitRateBetween` | Imbal_Analysis.py:22 | The unit rate lies between any lower and upper bound of the prices |
| `Analysis.TotalCostAdditive` | Imbal_Analysis.py:21 | The total cost of two stretches of rows is the sum of their totals |
| `Analysis.Buckets` | Imbal_Analysis.py:46 | Entry k of the hourly series is the summed quantity of the rows starting in hour lo + k |
| `Analysis.EmptyHourIsZero` | Imbal_Analysis.py:46 | An hour holding no row sums to zero |
| `Analysis.HourlyVolumesPartition` | Imbal_Analysis.py:46 | The hourly sums add up to the total quantity of the table: the buckets partition the rows |
| `Analysis.PeakFrom` | Imbal_Analysis.py:48 | Over a range of hours, the chosen hour has the largest absolute sum and every earlier hour a strictly smaller one (first-occurrence arg-max) |
| `Analysis.SelectPeak` | Imbal_Analysis.py:46-54 | The peak lies within the table's hour range; its clock hour is its bucket mod 24; its quantity is its bucket's sum; it is a surplus exactly when that sum is positive; its date is the first row's |
| `Analysis.SelectPeakIsPeak` | Imbal_Analysis.py:48 | The selected bucket holds a row, no hour has a larger absolute sum, and every earlier hour holding a row has a strictly smaller one |
| `Analysis.PeakIsUnique` | Imbal_Analysis.py:48 | Any bucket with those peak properties is the one selected, so the peak is determined uniquely |
| `Analysis.CalcHighestHourlyImbalance` | Imbal_Analysis.py:42-57 | A non-table gives the type error and only it does; a table without rows gives the calculation error and only it does; a table with rows succeeds, and then the hour is the first-occurrence arg-max of the absolute hourly sums with its bucket's sum, surplus exactly when positive, dated by the first row |
| `Analysis.PeakIsHourlyVolume` | Imbal_Analysis.py:46-48 | The peak's quantity is the hourly series' entry at the peak's offset from the first hour |
| `Analysis.LookupByPosition` | Imbal_Analysis.py:49 | The positional lookup succeeds exactly when the clock hour is a valid position of the series, and otherwise fails with the calculation error; on success it keeps the peak's date, bucket and hour, and returns the entry at that position, a surplus exactly when positive |
| `Analysis.CalcHighestHourlyImbalanceAsWritten` | Imbal_Analysis.py:42-57 | As written: a non-table gives the type error and only it does; every failure on a table is the calculation error, an empty table included; for a non-empty table it succeeds exactly when the peak's clock hour is below the series length, and then its quantity is the series entry at that position rather than the peak's own sum, a surplus exactly when positive, dated by the first row |
| `Analysis.AsWrittenAgreesFromMidnight` | Imbal_Analysis.py:48-49 | When the series starts at midnight and the peak falls on its first day, the lookup as written returns the true peak |
| `Scenarios.CleanPricesScenario` | Tests.py:21-52 | Both Final/Y price rows survive, reduced to the five columns with their values |
| `Scenarios.CleanVolumesScenario` | Tests.py:57-78 | Of the four volume rows, the Draft and the inactive row are dropped; the two others survive renamed |
| `Scenarios.TimestampScenario` | Tests.py:82-101 | Periods 1 and 2 of a day start at 00:00 and 00:30 and end 30 minutes later; period 48 ends at the next midnight |
| `Scenarios.MergeScenario` | Imbal_Processing.py:144-150 | On the merge test's tables only period 1 survives (100 at 10, cost 1000, 00:00 to 00:30 of 2022-01-01) |
| `Scenarios.MergeEmptyScenario` | Imbal_Processing.py:140-141 | Either table without rows gives the empty-input error |
| `Scenarios.PeakScenario` | Tests.py:134-147 | The peak is hour 21 of 2023-02-22 with -128.0616, a deficit |
| `Scenarios.PeakScenarioAsWritten` | Imbal_Analysis.py:49 | On the same rows the lookup as written fails with the calculation error |

## Left out

- The `BMReports` report download (`Imbal_Processing.py:6-47`) is not modelled. It is HTTP and CSV parsing.
- `create_imbal_graph` (`Imbal_Analysis.py:60-113`) is not modelled. It is plotting.
- The orchestration script `Imbalances.py` is not part of this model. It holds the wall-clock date, command-line arguments and display options.
- The printed messages and the two-decimal rounding of the analyses are left out. The model returns the values that are printed.
- Date strings are not parsed. Dates are day numbers from the start, so the "cannot create half hourly timestamps" error of `Imbal_Processing.py:119-120` cannot arise and is not modelled.
- The conversion of SettlementDate to a timestamp column, done in place, is left out. Timestamps are computed by a pure function.
- Floating-point rounding and NaN are left out. Amounts are exact reals.
- Timestamp granularity is whole minutes. Settlement periods are whole numbers, as in the reports.
- Extra columns a report may carry are left out. They are named in the report's column set but not stored in rows.
- Merge.MergeImbalDfs: states which rows the result holds, in both directions, and (through `MergePairs.PriceMatchesOnePerPair`) that each matching pair of positions gives exactly one row. It does not state their order in pandas' inner-join output. The model's order is price-row major.
- Merge.MergeImbalDfs: the column check is stricter than the source. The source fails only when a join key is missing or a value column is missing from, or suffixed in, the joined table. A value column held only by the other table (a price column on the volume side, say) would merge there, using that table's values. The model's typed rows cannot carry a value on the other side, so it reports the column error for such tables.
- A cleaner that fails returns None, and passing None to the merge raises an AttributeError at `Imbal_Processing.py:140`, outside the merge's try block. `Merge.MergeImbalDfs` takes tables only, so this path is not modelled.
- Analysis.CalcDailyCosts: a table lacking one of the columns read (the KeyError caught at `Imbal_Analysis.py:28`) cannot be expressed. Merged rows always carry every column.
- Analysis.CalcHighestHourlyImbalance: the same holds for a table lacking `start_time` or `ImbalanceQuantity`.

## Findings

| source | as written | input that shows it | evidently intended | confidence | as-written member | corrected member |
|---|---|---|---|---|---|---|
| Imbal_Analysis.py:49 | The hourly series is indexed by the clock hour of the peak, an integer. On the series' time index this is a position, not the peak's own entry. | The rows of `Tests.py:134-144`: start times 21:00 to 23:30 on 2023-02-22 give a three-entry series (21:00, 22:00, 23:00). Position 21 is out of range, so the call raises, and the caller reports "Unable to calculate maximum imbalances". | The sum of the selected hour: 21:00, -128.0616, deficit, as the test expects | high; not executed | `Analysis.CalcHighestHourlyImbalanceAsWritten` (with `Scenarios.PeakScenarioAsWritten`) | `Analysis.CalcHighestHourlyImbalance` (with `Scenarios.PeakScenario`, `Analysis.SelectPeakIsPeak`) |

The lookup as written agrees with the intended one only when the series
starts at midnight and the peak falls on its first day
(`Analysis.AsWrittenAgreesFromMidnight`). For a series that starts later it
either fails, or returns the sum of another hour.
