# Brita water log — a Dafny model

`brita.py` is a small dashboard. It reads a log of household events from a
spreadsheet: each event is "Brita pitcher refilled" or "Brita filter
replaced", with a timestamp. It turns the log into filter-usage statistics.

This project models the part of it that is logic rather than I/O:

- **The enrichment of the event log** (`brita_log`, lines 26-30). The events
  are sorted by timestamp, and every row gets three new columns:
  - `refills`, which is always 1;
  - `filter`, the filter generation: the running count of replacements up to
    and including the row;
  - `total_refills`, the row's zero-based position within its generation.
- **The statistics block** (lines 37-48):
  - the refill and replacement subsets;
  - the latest timestamp of each;
  - the number of filters used;
  - the mean refills per filter, after pandas' `[:-1]`;
  - the mean refills per day;
  - the mean days per filter;
  - the refills on the current filter;
  - the estimated days remaining.

The modules are:

- `Wrappers`: the `Option` type. It stands for NaN results and for the
  exceptions Python raises (`max` of an empty column, `[-1]` of an empty
  series).
- `Columns`: the pandas column operations the script uses:
  - `cumsum` and `groupby(...).cumcount()`;
  - `groupby(...).sum()` as one group per distinct key, in ascending key order;
  - `[:-1]`, `mean` and `max`.

  Means are exact `real` ratios.
- `BritaLog`: the event and row types, the sort, and the enrichment, with
  its lemmas. It also contains `GenerationSteps`, a row-by-row step relation.
  `EnrichIsTheOnlyStepLog` proves that `Enrich` is the only log that satisfies
  it.
- `Statistics`: the subsets and every statistic, with the lemmas that say
  what each one means.
- `Examples`: small logs worked through the model. The second one shows
  `[:-1]` dropping a completed generation, and an estimate of -1 day. The
  third shows two events with the same timestamp keeping their order.

Timestamps are integers. The calendar day of each event, which pandas
derives from the US/Pacific timestamp, is a separate integer carried by each
event.

Three points of the code deserve a note:

- **The sort.** `sort_index()` returns an index that is already in order
  unchanged, ties included. The model's sort is a stable insertion sort, so
  events with equal timestamps keep their spreadsheet order
  (`SortIndexOfSorted`, `Examples.TiedEventsLog`). When distinct events never
  share a timestamp, the log does not depend on the order of the spreadsheet
  at all (`LogOrderIndependent`).
- **`[:-1]`.** It drops the last group that has refills. That is the current
  generation when the current filter has a refill, and a completed generation
  when it has none yet (`DroppedGenerationIsLatestRefill`,
  `Examples.FiveEventsDropCompletedGeneration`).
- **Raises.** `max` of an empty subset (lines 40-41) raises and ends the
  script, so `Summarize` gives no summary at all without a refill and a
  replacement. The figures of lines 42-48 are NaN-valued instead, and are
  reported as `None` one by one.

## Model

| member | source | states |
|---|---|---|
| BritaLog.SortIndex | brita.py:26 | the sorted log is in timestamp order, has the same length, and is a permutation of the events |
| BritaLog.SortIndexOfSorted | brita.py:26 | events already in timestamp order, ties included, are returned unchanged |
| BritaLog.InsertAfterAll | brita.py:26 | an event no earlier than all others is inserted at the end, after the events it ties with |
| BritaLog.InsertByTime | brita.py:26 | inserting an event into a timestamp-ordered log keeps it ordered and adds exactly that event |
| BritaLog.SortedTailsAgree | brita.py:26 | two timestamp-ordered permutations of the same tie-free events have the same first event, and their tails are again ordered permutations of each other |
| BritaLog.SortedPermutationUnique | brita.py:26 | two timestamp-ordered permutations of the same events are equal when no two distinct events share a timestamp |
| BritaLog.LogOrderIndependent | brita.py:26-30 | under that condition, the enriched log does not depend on the order the spreadsheet delivers the events in |
| BritaLog.SortedLogUnchanged | brita.py:26-30 | events already in timestamp order, ties included, are enriched as they stand |
| BritaLog.Enrich | brita.py:28-30 | every enriched row keeps its event's timestamp, day and label, and has `refills` 1 |
| BritaLog.Log | brita.py:26-30 | `brita_log()` has one row per spreadsheet event, and its rows carry exactly the spreadsheet's events |
| BritaLog.LogKeepsRows | brita.py:22-30 | the enriched table has exactly the input events (same count, same multiset) and every row has `refills` 1 |
| BritaLog.LogInTimeOrder | brita.py:26-29 | each row of the log comes no earlier than the rows before it, and its `filter` counts the replacements at or before it in timestamp order |
| BritaLog.FilterCountsReplacements | brita.py:29 | row i's `filter` is the number of "Brita filter replaced" events among rows 0..i |
| BritaLog.MaskSumCountsReplacements | brita.py:29 | the sum of the replacement mask is the number of replacement events |
| BritaLog.LastFilterCountsAll | brita.py:29 | the last row's `filter` is the total number of replacements |
| BritaLog.FilterStep | brita.py:29 | `filter` starts at 0 (or 1 on a first-row replacement), rises by exactly 1 at a replacement and stays the same on every other row |
| BritaLog.FilterMonotone | brita.py:29 | `filter` never decreases along the log |
| BritaLog.TotalRefillsStep | brita.py:30 | `total_refills` is 0 on the first row of a generation and one more than the previous row's on every later row of it, whatever the label |
| BritaLog.PositionZeroIffReplacement | brita.py:29-30 | a row's `total_refills` is 0 exactly when it is the first row or a replacement: a replacement always opens its generation |
| BritaLog.EnrichStepAt | brita.py:29-30 | each row of the enriched log follows the step relation from the row before it |
| BritaLog.EnrichSteps | brita.py:28-30 | the enriched log satisfies the generation step relation on every row |
| BritaLog.EnrichIsTheOnlyStepLog | brita.py:28-30 | any log over the same events with `refills` 1 that satisfies the step relation is the enriched log |
| BritaLog.StepLogsAgree | brita.py:29-30 | two logs over the same events that both satisfy the step relation agree row by row |
| BritaLog.StepsMonotone | brita.py:29 | in any log satisfying the step relation, `filter` never decreases |
| BritaLog.EnrichPrefix | brita.py:29-30 | enriching a prefix of the events gives the prefix of the enriched log: each row depends only on the rows before it |
| BritaLog.FilterColumnPrefix | brita.py:29 | the `filter` column of a prefix is the prefix of the `filter` column |
| BritaLog.TotalRefillsColumnPrefix | brita.py:30 | the `total_refills` column of a prefix is the prefix of the `total_refills` column |
| BritaLog.StrictlyByTimeSortedTieFree | brita.py:26 | events with strictly increasing timestamps are in timestamp order and no two share a timestamp |
| BritaLog.LogOfOrderedEvents | brita.py:26-30 | for events with strictly increasing timestamps, the log is the row sequence over them, in their order, with `refills` 1 that follows the step relation |
| BritaLog.BasesOfEnrich | brita.py:28-30 | stripping the three new columns from the enriched rows gives back the events |
| BritaLog.CountLabelPermutation | brita.py:26 | reordering the events does not change how many carry a label |
| BritaLog.CountLabelAppend | brita.py:29 | label counts add over concatenation |
| BritaLog.CountLabelPrefix | brita.py:29 | a prefix has no more events with a label than the whole log |
| Columns.CumSum | brita.py:29 | entry i of `cumsum` is the sum of entries 0..i |
| Columns.CumSumPrefix | brita.py:29 | the `cumsum` of a prefix is the prefix of the `cumsum` |
| Columns.CumCount | brita.py:30 | entry i of `groupby(key).cumcount()` is the number of earlier rows with the same key |
| Columns.CumCountPrefix | brita.py:30 | the `cumcount` of a prefix is the prefix of the `cumcount` |
| Columns.CumCountFrom | brita.py:30 | the one-pass count with a per-key tally adds, at each row, the tally to the key's earlier occurrences |
| Columns.SortedKeys | brita.py:42-43 | the group keys are strictly ascending and are exactly the distinct keys of the column |
| Columns.InsertKey | brita.py:42-43 | inserting a key into ascending distinct keys keeps them ascending and adds exactly that key |
| Columns.GroupSum | brita.py:42-43 | `groupby(key).sum()` has one group per distinct key, in ascending key order, each holding the sum of its rows' values |
| Columns.GroupSumTwoGroups | brita.py:42 | there are at least two groups exactly when two rows have different keys |
| Columns.GroupSumLastKey | brita.py:42 | the last group's key is the largest key of the column |
| Columns.GroupSumOfOnesPositive | brita.py:42-43 | grouping a column of ones gives no group with a total below 1 |
| Columns.SumWhereOfOnes | brita.py:42-43 | summing ones over a key's rows counts those rows |
| Columns.Mean | brita.py:42-43 | `mean` is undefined (NaN) for an empty series and otherwise times the length gives the sum |
| Columns.MeanAtLeastOne | brita.py:42-43 | the mean of a non-empty series of values at least 1 is at least 1 |
| Columns.SumAtLeastLength | brita.py:42-43 | a series whose values are all at least 1 sums to at least its length |
| Columns.MaxOf | brita.py:40-41 | `max` raises on an empty column and otherwise is an element no smaller than any other |
| Columns.OccurrencesPositive | brita.py:30 | a key that occurs has at least one occurrence |
| Statistics.RefillRows | brita.py:37 | `refills_df` holds exactly the log's rows labelled "Brita pitcher refilled" |
| Statistics.ReplacementRows | brita.py:38 | `replacements_df` holds exactly the log's rows labelled "Brita filter replaced" |
| Statistics.Select | brita.py:37-38 | a boolean-mask selection keeps exactly the rows with the label and is no longer than the log |
| Statistics.SubsetsPartition | brita.py:37-38 | the refill and replacement subsets hold exactly the rows with their label, are disjoint, have sizes equal to the label counts and together fit in the log |
| Statistics.SelectCounts | brita.py:37-38 | a subset's size is the count of its label |
| Statistics.TwoLabelsAtMostAll | brita.py:37-38 | the counts of two different labels add up to no more than the number of events |
| Statistics.ReplacementCount | brita.py:53 | `len(replacements_df)` is the number of replacement rows of the log, at most its length |
| Statistics.ReplacementCountIsReplacementEvents | brita.py:38 | `len(replacements_df)` is the number of replacement events, and equals the last row's `filter` |
| Statistics.Summarize | brita.py:37-48 | there is a summary exactly when the spreadsheet has a refill and a replacement (otherwise `max` raises at line 40 or 41), and its filter count is the number of replacement events |
| Statistics.SubsetSizesOfLog | brita.py:37-38 | the refill and replacement subsets of the log are as large as the label counts of the spreadsheet |
| Statistics.RecentRefilled | brita.py:40 | `recent_refilled` raises exactly when there is no refill row, and otherwise is the timestamp of a refill row no earlier than any other |
| Statistics.RecentReplaced | brita.py:41 | `recent_replaced` raises exactly when there is no replacement row, and otherwise is the timestamp of a replacement row no earlier than any other |
| Statistics.MaxTimestampOf | brita.py:40-41 | `max` of the timestamp column raises on no rows, and otherwise is the timestamp of a row no earlier than any other |
| Statistics.RecentIsLastOfSubset | brita.py:40-41 | in a timestamp-ordered log, `recent_refilled` / `recent_replaced` are the timestamps of the last refill / replacement row, and undefined exactly when that subset is empty |
| Statistics.LatestOfOrdered | brita.py:40-41 | the maximum timestamp of rows in timestamp order is the last row's |
| Statistics.LogByTime | brita.py:26 | the enriched log is in timestamp order |
| Statistics.EnrichByTime | brita.py:26 | enriching sorted events keeps them in timestamp order |
| Statistics.LogMeetsStatisticsAssumptions | brita.py:26-30 | the enriched log satisfies the step relation, has `refills` 1 and is in time order; if the spreadsheet holds only the two labels, so does the log |
| Statistics.RowsByTimeOfBases | brita.py:26 | rows are in timestamp order exactly when the events they carry are |
| Statistics.SelectKeepsTimeOrder | brita.py:37-38 | a subset of a time-ordered log is time-ordered |
| Statistics.SelectKeepsFilterOrder | brita.py:37-38 | a subset of a generation-ordered log is generation-ordered |
| Statistics.StepsByFilter | brita.py:29 | a log satisfying the step relation is ordered by generation |
| Statistics.RefillGenerations | brita.py:42 | the groups by `filter` have strictly ascending keys, and there is a group exactly when there is a refill row |
| Statistics.GenerationKeys | brita.py:42 | each group by `filter` is the generation of a refill row, and each refill row's generation has a group |
| Statistics.MeanRefillsPerFilter | brita.py:42 | `mean_refills_per_filter` is NaN unless at least two generations have refills, since `[:-1]` drops one group |
| Statistics.MeanRefillsPerFilterDefined | brita.py:42 | `mean_refills_per_filter` is defined exactly when two refill rows lie in different generations |
| Statistics.KeptGroupsCountRefills | brita.py:42 | each group `[:-1]` keeps has as its total the number of refill rows in its generation |
| Statistics.MeanRefillsPerFilterAtLeastOne | brita.py:42 | when defined, `mean_refills_per_filter` is at least 1 |
| Statistics.AllInGenerationZero | brita.py:29 | with no replacement event, every row of the log is in generation 0 |
| Statistics.NoReplacementNoMean | brita.py:42 | with no replacement event, `mean_refills_per_filter` is undefined |
| Statistics.DroppedGenerationIsLatestRefill | brita.py:42 | the group `[:-1]` drops is the generation of the latest refill row; every kept group is an earlier generation; that generation is the current one exactly when the current generation has a refill |
| Statistics.LastGroupOfOrderedRows | brita.py:42 | grouping generation-ordered refill rows, the last group is the last row's generation and every other group is an earlier one |
| Statistics.LatestRefillInLatestGeneration | brita.py:42 | the latest refill's generation is at most the current one, and equal to it exactly when the current generation has a refill |
| Statistics.RefillDays | brita.py:43 | the groups by day have strictly ascending keys, and there is a group exactly when there is a refill row |
| Statistics.DayKeys | brita.py:43 | each group by day is the day of a refill row, and each refill row's day has a group |
| Statistics.MeanRefillsPerDay | brita.py:43 | `mean_refills_per_day` is NaN exactly when there is no refill row |
| Statistics.MeanRefillsPerDayPositive | brita.py:43 | `mean_refills_per_day` is defined exactly when there is a refill, and is then positive |
| Statistics.CurrentRefillsHavePerDay | brita.py:43-45 | when every row has `refills` 1, a defined `mean_refills_per_day` is positive, and it is defined whenever `refills_this_iteration` is |
| Statistics.Ratio | brita.py:44 | a division of two figures is defined exactly when both are (NaN in gives NaN out), and the quotient times the divisor gives the dividend |
| Statistics.MeanDaysPerFilter | brita.py:44 | `mean_days_per_filter` is defined exactly when both means are |
| Statistics.MeanDaysPerFilterEquation | brita.py:42-44 | when both means are defined, `mean_refills_per_day` is positive and `mean_days_per_filter` is their quotient |
| Statistics.RefillsThisIteration | brita.py:45 | `refills_this_iteration` raises exactly when there is no refill row, and otherwise is the `total_refills` of the last refill row of the log: a refill row with no refill row after it |
| Statistics.LastSelected | brita.py:37-45 | the last row of a subset is a row of the log with the label and no row of that label after it |
| Statistics.RefillsThisIterationCounts | brita.py:45 | when every row is a refill or a replacement, `refills_this_iteration` is the number of refills in the latest refill's generation, less one in generation 0, which has no replacement row at position 0 |
| Statistics.PositionCountsGenerationRefills | brita.py:29-30 | when every row is a refill or a replacement, on every row `total_refills` counts the refill rows of its generation up to and including it, less one in generation 0 |
| Statistics.PositionAtReplacement | brita.py:29-30 | a replacement row opens a generation with no refills before it: `filter` above 0 and position 0 |
| Statistics.PositionAtRefill | brita.py:29-30 | a refill row adds one to its generation's refills and to the position |
| Statistics.PositionStepAtRefill | brita.py:29-30 | the position-counts-refills relation carries over a refill row |
| Statistics.NoEarlierRefillInNewGeneration | brita.py:29-30 | no refill before a replacement row lies in the generation that replacement opens |
| Statistics.LatestRefill | brita.py:45 | the last refill row is a row of the log, and the refills before it are all the refills |
| Statistics.RefillRowsSkip | brita.py:37 | a row that is not a refill adds nothing to the refill subset |
| Statistics.RefillRowsTake | brita.py:37 | a refill row adds its generation to the refill subset's `filter` column |
| Statistics.Estimate | brita.py:46-48 | the estimate from three figures is defined exactly when all three are, and times the daily rate it gives the refills per filter less the current refills |
| Statistics.EstimateSignOf | brita.py:46-48 | with a positive daily rate, the estimate is negative exactly when the current refills exceed the mean per filter, and zero exactly when they are equal |
| Statistics.EstimatedDaysRemaining | brita.py:46-48 | `estimated_days_remaining` is defined exactly when `mean_refills_per_filter` and `refills_this_iteration` are, and then `mean_refills_per_day` is defined and positive |
| Statistics.EstimateEquation | brita.py:42-48 | when the three figures are defined, the daily rate is positive and the estimate is `(mean_refills_per_filter - refills_this_iteration) / mean_refills_per_day` |
| Statistics.EstimateSign | brita.py:46-48 | the estimate is negative exactly when the current filter has had more refills than the mean, and zero exactly when as many: it is not clamped |
| Examples.FourEventsLog | brita.py:26-30 | two refills, a replacement and a refill give generations 0, 0, 1, 1 and positions 0, 1, 0, 1 |
| Examples.FourEventsFiltersUsed | brita.py:38 | that log has used one filter |
| Examples.FourEventsMeanPerFilter | brita.py:42 | in that log, `[:-1]` keeps generation 0's two refills: a mean of 2 |
| Examples.FourEventsThisIteration | brita.py:45 | in that log, `refills_this_iteration` is 1 |
| Examples.FiveEventsLog | brita.py:26-30 | refill, replacement, refill, refill, replacement give generations 0, 1, 1, 1, 2 and positions 0, 0, 1, 2, 0 |
| Examples.FiveEventsDropCompletedGeneration | brita.py:42 | with no refill on the current filter, `[:-1]` drops completed generation 1, and the mean is 1 rather than 1.5 |
| Examples.FiveEventsMeanPerDay | brita.py:43 | in that log, one refill on each of three days gives a mean of 1 refill a day |
| Examples.FiveEventsThisIteration | brita.py:45 | in that log, `refills_this_iteration` is read from generation 1's last refill: 2 |
| Examples.EstimateAtOnePerDay | brita.py:46-48 | at one refill a day, the estimate is the mean refills per filter less the current refills |
| Examples.TiedEventsLog | brita.py:26-30 | a refill and a replacement with the same timestamp keep their order: the refill stays in generation 0 at position 0 |
| Examples.TiedEventsThisIteration | brita.py:45 | in that log, `refills_this_iteration` is 0 |
| Examples.FiveEventsNegativeEstimate | brita.py:46-48 | in that log, the estimate is -1 day |

## Left out

- Reading the spreadsheet, the service-account credentials and the
  `st.cache(ttl=60)` memoisation (brita.py:11-20): these are network I/O and
  host caching. The model starts from the list of events.
- Renaming the columns, parsing `%d/%m/%Y %H:%M:%S` and localising to
  US/Pacific (brita.py:22-25): these are library text and time-zone handling.
  Timestamps are integers, and each event carries its calendar day as an
  integer. The model starts from a list of events, which may be empty:
  an empty spreadsheet raises `KeyError` at line 24, while `Log([])` is empty
  and `Summarize([])` is `None`. Malformed rows, which would raise while
  parsing, are not modelled.
- `now` (brita.py:34): a wall-clock read, used only for display.
- `humanize.naturaltime` and the Markdown number formatting (brita.py:50-56):
  these are string presentation. `len(replacements_df)` from line 53 is
  `ReplacementCount`.
- The Altair charts (brita.py:58-143): these are UI.
- BritaLog.SortIndex: it keeps events with equal timestamps in spreadsheet
  order. `sort_index()` does the same for an index that is already in order.
  On an unordered index its default sort is not stable, so ties may come out
  in another order there.
- Statistics.RefillDays: `groupby(pd.Grouper(freq="D"))` is modelled as one
  group per calendar day that has a refill. The bins pandas builds, which
  may include empty days between the first and last refill, are not
  modelled.
- Statistics.RefillsThisIterationCounts: holds only when every row is a
  refill or a replacement. Line 30 counts rows of every label, so a row with a
  third label shifts the positions of the refills after it in its generation.
- Statistics.PositionCountsGenerationRefills: the same condition, for the
  same reason.
- Statistics.MeanRefillsPerDay: because the daily bins are modelled that way,
  the value can differ from pandas' when a day inside the range has no refill
  (pandas may then average in zeros). Only its definedness and its
  positivity (`MeanRefillsPerDayPositive`) are independent of the binning.
- Statistics.MeanDaysPerFilter: its own contract states only when it is
  defined. `MeanDaysPerFilterEquation` states the quotient, and `Ratio` the
  product relation.
- Statistics.EstimatedDaysRemaining: its own contract states only when it is
  defined and that the divisor is then positive. `EstimateEquation` states
  the quotient, and `Estimate` the product relation.
- Statistics.RefillsAreOne: the statistics that divide take `refills` to be
  1 on every row. `LogMeetsStatisticsAssumptions` proves this for the
  enriched log, so the divisor is positive. Floating-point rounding and the
  infinities of a division by zero are not modelled; the values are exact
  reals.
