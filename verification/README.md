# CPU forecasting core in Dafny

A model of the forecasting core of a CPU-utilisation forecasting service.
The service has two pieces of table logic:

- **Feature pipeline** (`preprocess_data` in `api/server.py`, and the same
  transform inside `prepare_data` in `prepare_data.py`). It encodes the
  service label as a code, parses timestamps (unparseable ones become NaT),
  sorts stably by (server, service, timestamp), and derives
  `time_gap_minutes` per (server, service) series. It shifts
  `cpu_lag_1..3` per server only, drops every row holding a NaN, and maps
  the season label to a code.
- **Rollout engine** (`forecast_14_days` and `get_season_from_date` in
  `api/server.py`). It takes the latest row of one series as the seed and
  runs a loop a fixed number of times. Each iteration derives the calendar
  flags of the simulated clock, builds a ten-field model input with a forced
  30-minute gap, asks the model for a prediction and emits a point. It then
  shifts the three-slot lag window and advances the clock by 30 minutes.

Modules, one per concept:

| module | file | models |
|---|---|---|
| `Wrappers` | wrappers.dfy | `Option` (a NaN/NaT cell) and `Result` (a call that returns or raises) |
| `Seqs` | seqs.dfy | the order-preserving row filter and map |
| `Mappings` | mappings.dfy | `service_description_mapping` and `season_mapping` |
| `Calendar` | calendar.dfy | minute flooring, hour, weekday and month of an instant |
| `Ordering` | ordering.dfy | the stable three-key `sort_values`, NaT last |
| `Grouping` | grouping.dfy | `groupby(...).shift(d)` / `.diff()` as "the d-th earlier row of the same group" |
| `Pipeline` | pipeline.dfy | `preprocess_data` |
| `PrepareScript` | prepare.dfy | the transform of `prepare_data` |
| `Rollout` | rollout.dfy | `get_season_from_date` and `forecast_14_days` |

Instants are whole seconds on the naive local wall clock, counted from
1970-01-01 00:00. A raw timestamp is modelled as what `to_datetime` turns it
into: an instant, or `None` for NaT. The model is an uninterpreted
parameter `predict: FeatureVec -> real`, and the wall clock is the
parameter `now`.

## Model

| member | source | states |
|---|---|---|
| `Mappings.ServiceCode` | api/server.py:6-10 | a mapped service label gets a code in 1..3 |
| `Mappings.ServiceMappingRoundTrip` | api/server.py:6-10 | a label maps to code c exactly when code c names that label back, so the enumeration is one-to-one |
| `Mappings.ServiceMappingClosed` | prepare_data.py:11-15 | exactly the three listed labels are mapped; any other text gives NaN |
| `Mappings.SeasonCode` | api/server.py:12-21 | a mapped season label gets a code in 0..3 |
| `Mappings.SeasonSpellings` | api/server.py:12-21 | the lower-case and the capitalised spelling of the i-th season both give code i |
| `Mappings.SeasonMappingClosed` | prepare_data.py:17-20 | a season label is mapped exactly when it is one of the eight spellings; upper-case or other text is not |
| `Calendar.FloorToMinute` | api/server.py:130 | the start instant is a whole minute, at most 59 seconds before the clock reading |
| `Calendar.HourOf` | api/server.py:137 | the hour of day lies in 0..23 |
| `Calendar.DayOfWeek` | api/server.py:138 | the weekday lies in 0..6 |
| `Calendar.MonthOf` | api/server.py:78 | the month lies in 1..12 for every instant |
| `Calendar.DayOfWeekNextDay` | api/server.py:138 | one day later the weekday is the next one, cyclically |
| `Calendar.HourOfNextHour` | api/server.py:137 | one hour later the hour of day is the next one, cyclically |
| `Calendar.EpochIsThursdayInJanuary` | api/server.py:137-138 | the calendar is anchored correctly: 1970-01-01 00:00 is a Thursday (weekday 3, Monday = 0) in January at hour 0 |
| `Ordering.Insert` | api/server.py:52 | inserting into a sorted table keeps it sorted, adds exactly the one element, and puts it before the elements of equal key |
| `Ordering.StableSort` | api/server.py:52 | the output is sorted by (server, service, timestamp) with NaT last; it is a permutation of the input; and within every key class the input order is kept (stability) |
| `Ordering.SortSortedIsIdentity` | api/server.py:99-101 | sorting an already sorted table changes nothing |
| `Ordering.FilterKeepsSorted` | api/server.py:68 | dropping rows from a sorted table leaves it sorted |
| `Ordering.SortMapCommute` | prepare_data.py:53 | a column change that does not touch the sort keys does not change the order rows come out in |
| `Grouping.PrevInGroup` | api/server.py:55-65 | the row a grouped shift or diff reads lies strictly above and belongs to the same group |
| `Grouping.Matches` | api/server.py:55-65 | the positions below n whose group key is k: every such position, each once, in increasing order |
| `Grouping.PrevInGroupIsAdjacent` | api/server.py:55-65 | when every group is contiguous, the d-th earlier row of the same group is row i-d if that row is in the group, and there is none otherwise |
| `Pipeline.CoerceCodes` | api/server.py:40-49 | `astype(int64)` succeeds exactly when no cell is NaN, keeps every value, and otherwise fails with a coercion error |
| `Pipeline.EncodeServices` | api/server.py:32-49 | on success there is one code per input row; which code each row gets is stated by `EncodeServicesCharacterised` |
| `Pipeline.EncodeServicesCharacterised` | api/server.py:32-49 | encoding succeeds exactly when the column is all numbers, or all text from the three labels; a text label becomes its code and a number is kept |
| `Pipeline.SeasonValue` | api/server.py:70-72 | in a text season column a label becomes its mapped code or NaN, and a number becomes NaN; in a numeric column a number is kept |
| `Pipeline.PreprocessData` | api/server.py:24-74 | the call succeeds exactly when there is a `Timestamp` column and the service column coerces; it fails with the coercion error exactly when the service column is bad; the output is sorted by (server, service, timestamp) and has no more rows than the input |
| `Pipeline.TransformSorted` | api/server.py:52-68 | the filtered feature table is still sorted |
| `Pipeline.SortedTableIsGrouped` | api/server.py:52-65 | after the sort every server, and every (server, service) series, is one contiguous block |
| `Pipeline.FeaturesOfSortedTable` | api/server.py:55-65 | `Gap` and `Lag` on the sorted table: `cpu_lag_d` of row i is the CPU value of row i-d when that row is the same server's, of any service; `time_gap_minutes` of row i is the minutes since row i-1 when that row is of the same (server, service) series and both timestamps parsed; otherwise both are NaN |
| `Pipeline.AddFeatures` | api/server.py:55-65 | one featured row per sorted sample, carrying that sample unchanged; its derived columns are stated by `FeaturesOfSortedTable` |
| `Pipeline.LagCrossesServiceBoundary` | prepare_data.py:56-66 | the first row of a server's next service has no gap and is dropped, yet its first lag is the last CPU value of the previous service |
| `Pipeline.ShortSeriesRowSurvives` | api/server.py:55-68 | a series with only two samples can still yield a row: for one server with three samples of service 1 then two of service 2, the second sample of service 2 gets gap 1.0 and lags 5.0, 4.0 and 3.0, so it is complete, while the first sample of service 2 is not |
| `Pipeline.SingleSeriesSurvivors` | api/server.py:55-68 | a sorted single series of n fully populated rows keeps max(0, n-3) rows |
| `Pipeline.SingleSeriesYield` | api/server.py:24-74 | one server with one service and n fully populated samples succeeds and yields max(0, n-3) rows |
| `Pipeline.SingleSeriesSorted` | api/server.py:52 | sorting the samples of one fully populated series keeps all n of them, each still of that server and service with timestamp, CPU and season present |
| `Pipeline.OutputRowsComeFromInput` | api/server.py:36-68 | every output row is an input row whose timestamp parsed and whose CPU value and season are present, with that row's service code and with `season` equal to the mapped value of that row's season cell; a NaT row never survives |
| `Pipeline.FinishedRowOrigin` | api/server.py:67-72 | `Finish`: every row kept by `dropna` is emitted from a featured row with no NaN in any column `dropna` inspects |
| `Pipeline.TransformRowsComeFromInput` | api/server.py:51-72 | `Transform`: every row is an input row with its service code and its mapped season |
| `Pipeline.AddFeaturesIgnoresSeason` | api/server.py:55-65 | gap and lag columns do not depend on the season column |
| `Pipeline.SameServiceColumn` | api/server.py:32-49 | tables that differ only in season cells encode their service column identically |
| `Pipeline.TransformIgnoresSeason` | prepare_data.py:53-73 | such tables give the same number of rows, equal in every column except `season` |
| `Pipeline.SeasonDoesNotDecideSurvival` | prepare_data.py:68-73 | the season mapping runs after the NaN filter, so the season labels never change whether the call succeeds, which rows survive, or any other column |
| `PrepareScript.PrepareData` | prepare_data.py:31-73 | without a `Timestamp` column the script fails on that column first; with one it succeeds exactly when the service column coerces |
| `PrepareScript.PrepareMatchesPreprocess` | prepare_data.py:31-73 | with a `Timestamp` column the script equals the server's `preprocess_data`; without one both fail, with the same error exactly when the service column is valid |
| `Rollout.SeasonOfMonth` | api/server.py:77-86 | the season name of every month is a key of `season_mapping`, so the lookup on line 143 cannot raise |
| `Rollout.SeasonOfMonthQuarters` | api/server.py:77-86 | for months 1..12 the season is quarter (month mod 12) div 3 of the year counted from December (Dec-Feb winter, Mar-May spring, Jun-Aug summer, Sep-Nov autumn), and its code is that quarter index |
| `Rollout.ModelInput` | api/server.py:137-157 | the model input carries the current lags, gap 30.0 and the requested service code; its hour and weekday come from the clock; `is_weekend` (`WeekendFlag`) is 1 exactly on weekdays 5 and 6 and 0 otherwise; `is_working_hour` (`WorkingHourFlag`) is 1 exactly for hours 8..18 on weekdays and 0 otherwise; the season code is that of the clock's month, in 0..3 |
| `Rollout.Roll` | api/server.py:134 | the loop emits exactly `steps` points, or none when `steps` is not positive |
| `Rollout.RollShape` | api/server.py:134-175 | point k is stamped start + 30 min times k with the requested server and label and carries the model's answer to input k; input k is built from its lag window and the calendar of its own timestamp; the first window is the seed's; each next window is the previous one shifted by the previous prediction |
| `Rollout.LagWindowClosedForm` | api/server.py:147-172 | `Shift` makes each prediction lag 1 and moves the older lags down one slot, so at step k lag d is the prediction of step k-d, and for k < d it is the seed's lag d-k: from step 3 on the model sees only its own outputs |
| `Rollout.Matching` | api/server.py:106-109 | every kept row is a table row of the requested (server, service), every such table row is kept, and a sorted table stays sorted |
| `Rollout.MatchingByRows` | api/server.py:106-109 | the boolean mask keeps table order and multiplicity: a single row is kept exactly when it belongs to the series, and selecting from a concatenation concatenates the selections |
| `Rollout.MatchingEndsAtLast` | api/server.py:106-109 | the last row selected is the row at the last table position that belongs to the series |
| `Seqs.FilterAppend` | api/server.py:106-109 | a row filter applied to two consecutive parts of a table gives the two filtered parts, in order |
| `Seqs.FilterLast` | api/server.py:117 | the last row a filter keeps is the row at the last position that passes it, so nothing after that position passes |
| `Ordering.KeyClassIsFilter` | api/server.py:52 | the rows of a table with one sort key, in table order, are exactly what filtering the table on that key keeps |
| `Rollout.Seed` | api/server.py:99-117 | a seed exists exactly when some row matches; it is such a row of the table, and no matching row has a later timestamp; among the matching rows tied at the latest timestamp it is the one that comes last in the table (`LastOfLatest`: every matching row after its position is strictly older), as the stable sort followed by `iloc[-1]` picks |
| `Rollout.SeedIsLastTie` | api/server.py:99-117 | for any reordering that keeps each key class in table order, the end of the sorted series, being no older than any row of the series, is the last of the latest rows in the table |
| `Rollout.SeedOfPipelineOutput` | api/server.py:99-117 | on the pipeline's output the rollout's re-sort is a no-op, so the seed is the last matching row as the pipeline returned it |
| `Rollout.Forecast14Days` | api/server.py:89-177 | an unknown label raises the label error; otherwise the call fails with "no data" exactly when no row matches; on success it returns max(steps, 0) points, point k stamped floor(now) + 30 min times k, each with the requested server id and label string |
| `Rollout.DefaultHorizon` | api/server.py:94 | with the default `steps=14*48` a successful call returns 672 points; the first is at the floored clock and the last is half an hour short of fourteen days later |
| `Rollout.TraceFromSeed` | api/server.py:106-175 | `ForecastTrace` looks up the label, takes the seed and runs the loop from the floored clock; on success the first model input holds the seed's lags, every input has gap 30.0 and the service code, input k carries the hour, weekday, weekend and working-hour flags and season of point k's timestamp, point k carries the prediction for input k, and the lag window shifts by each prediction |
| `Rollout.FailureComesBeforePrediction` | api/server.py:106-112 | a failing call fails identically for every model, so no prediction is made before the error |
| `Rollout.ConstantModelForecast` | api/server.py:160-166 | a model that always answers c yields c at every point |
| `Rollout.RunLoop` | api/server.py:132-175 | the imperative loop emits exactly the points of the recursive rollout |
| `Rollout.ForecastLoop` | api/server.py:99-177 | the statement-by-statement function returns exactly what `Forecast14Days` returns |

## Left out

- The Flask route, request/response JSON, logging prints and the `joblib` model load (api/server.py:179-228). These are I/O and global state; the model is the `predict` parameter.
- `score.py`, the `azure_ml/` scripts, `docs/AZURE_QUICKSTART.py` and `tests/`. They are cloud provisioning, HTTP clients and file loading; score.py is not part of this model.
- CSV reading and writing and argument parsing in prepare_data.py. These are file I/O.
- The wall clock `pd.Timestamp.now()`. It is the parameter `now`, in seconds.
- Parsing of timestamp text. Each raw timestamp is given as the instant it parses to, or as NaT. Time zones and daylight saving are not modelled; the clock is naive local time.
- The `float32` and `int8` widths of `astype`. CPU values and lags are `real`, integers are unbounded, and float32 rounding and int8 wrap-around are not modelled.
- Coercion failures of `server_id`, `service_id`, `CPU_percent`, `hour`, `day_of_week`, `is_weekend` and `is_working_hour` (api/server.py:40-49, prepare_data.py:41-50). These columns are modelled as already numeric, with `CPU_percent` a present or missing real. A non-numeric cell in any of them, which makes `astype` raise, cannot be represented. Only the service column can fail coercion in the model.
- A missing required column other than `Timestamp`, and the column lookups on an empty frame. These are schema errors of the input frame.
- Columns outside the documented schema. `parallel_flag` and `unique_services` are dropped by the source anyway; a NaN in any other extra column would also drop its row in `dropna`.
- Exceptions raised by the model. `predict` is a total function, so a mid-rollout model failure cannot happen in the model.
- `Rollout.Seed`: the seed's `time_gap_minutes` is coerced to float in the source (api/server.py:125) but never read afterwards, so the model does not carry it.
- `Rollout.Forecast14Days`: the label string in each point is the requested string; the model does not state the pandas DataFrame layout of the result.
- No idempotence claim for the pipeline, because it is not idempotent. A second run recomputes the gaps and lags from the shortened table. It drops the first three rows of each server (all of them when the server has fewer), plus the first row of each further series of that server, plus every row whose season became NaN.

## Behaviour worth noting

- An unknown season label is not an error. The season mapping runs after
  `dropna` (api/server.py:68-72, prepare_data.py:69-73) and nothing coerces
  the column afterwards. A row with such a label survives with a NaN season
  (`Pipeline.SeasonValue`, `Pipeline.OutputRowsComeFromInput`).
- The lag shift is grouped by server only (api/server.py:63-65), while the
  gap is grouped by (server, service) (api/server.py:55-60). A lag can
  therefore come from another service of the same server
  (`Pipeline.LagCrossesServiceBoundary`). For the same reason a series with
  fewer than four samples can still produce rows, when other services of the
  same server precede it (`Pipeline.ShortSeriesRowSurvives`).
- The cadence of 30 minutes and the forced gap of 30.0 are fixed in the code
  (api/server.py:150, 175). They are `Rollout.CadenceSeconds` and
  `Rollout.ForcedGap`.
- The rollout rejects only an empty series (api/server.py:111-112). It sets
  no minimum number of rows.
- The pipeline is not idempotent. Running it on its own output recomputes
  the gaps and lags from the shortened table, so the second run drops rows
  again (see "## Left out" for which).
- In `preprocess_data` the `Timestamp` column is optional at line 37. A frame
  without it reaches `astype` (lines 40-49) before the sort at line 52 fails,
  so a bad service column is reported first. `prepare_data` reads `Timestamp`
  at line 38, before `astype` (`PrepareScript.PrepareMatchesPreprocess`).
