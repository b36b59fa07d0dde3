/** The rollout engine, `forecast_14_days` and `get_season_from_date` of the
    forecasting server: starting from the latest feature row of one
    (server, service) series, predict one point, feed the prediction back
    as the newest lag, advance the clock by half an hour, and repeat. */
module Rollout {
  import opened Wrappers
  import Seqs
  import opened Mappings
  import opened Calendar
  import opened Ordering
  import opened Pipeline

  /** `pd.Timedelta(minutes=30)`, in seconds. */
  const CadenceSeconds: int := 1800

  /** The `time_gap_minutes` every model input carries. */
  const ForcedGap: real := 30.0

  /** The default `steps`: 14 days of half-hour points. */
  const DefaultSteps: int := 14 * 48

  /** One row of `X_next`, the single-row frame given to `model.predict`. */
  datatype FeatureVec = FeatureVec(
    lag1: real, lag2: real, lag3: real, gap: real, hour: int, dayOfWeek: int,
    isWeekend: int, isWorkingHour: int, season: int, service: int)

  /** The three lag slots of the rollout state, newest first. */
  datatype LagWindow = LagWindow(lag1: real, lag2: real, lag3: real)

  /** One row of the returned frame. */
  datatype ForecastPoint = ForecastPoint(stamp: int, serverId: int, service: string, predicted: real)

  /** One iteration of the loop: what was asked of the model, what was emitted. */
  datatype Step = Step(input: FeatureVec, point: ForecastPoint)

  /** The requested series: server, service label, and the label's code. */
  datatype Target = Target(serverId: int, name: string, code: int)

  /** `KeyError` for an unknown service label; `ValueError` when no row matches. */
  datatype RolloutError = UnknownService(name: string) | NoHistory

  // ---------------------------------------------------------------------
  // Calendar features
  // ---------------------------------------------------------------------

  /** `get_season_from_date`, applied to the month of the timestamp. */
  function SeasonOfMonth(month: int): (name: string)
    ensures SeasonCode(name).Some?
  {
    if month in {12, 1, 2} then "winter"
    else if month in {3, 4, 5} then "spring"
    else if month in {6, 7, 8} then "summer"
    else "autumn"
  }

  /** Each calendar quarter starting in December is one season, and the
      season code is the quarter's index. */
  lemma SeasonOfMonthQuarters(month: int)
    requires 1 <= month <= 12
    ensures SeasonOfMonth(month) == SeasonNames[(month % 12) / 3]
    ensures SeasonCode(SeasonOfMonth(month)) == Some((month % 12) / 3)
  {
    SeasonSpellings((month % 12) / 3);
  }

  function WeekendFlag(dayOfWeek: int): int
  {
    if dayOfWeek >= 5 then 1 else 0
  }

  function WorkingHourFlag(hour: int, weekend: int): int
  {
    if 8 <= hour <= 18 && weekend == 0 then 1 else 0
  }

  function WindowOf(x: FeatureVec): LagWindow
  {
    LagWindow(x.lag1, x.lag2, x.lag3)
  }

  /** The model input for the lag window `w` at instant `ts`. */
  function ModelInput(w: LagWindow, ts: int, code: int): (x: FeatureVec)
    ensures WindowOf(x) == w && x.gap == ForcedGap && x.service == code
    ensures x.hour == HourOf(ts) && x.dayOfWeek == DayOfWeek(ts)
    ensures x.isWeekend in {0, 1} && (x.isWeekend == 1 <==> x.dayOfWeek >= 5)
    ensures x.isWorkingHour in {0, 1} && (x.isWorkingHour == 1 <==> 8 <= x.hour <= 18 && x.dayOfWeek < 5)
    ensures SeasonCode(SeasonOfMonth(MonthOf(ts))) == Some(x.season) && 0 <= x.season <= 3
  {
    var hour := HourOf(ts);
    var dayOfWeek := DayOfWeek(ts);
    var weekend := WeekendFlag(dayOfWeek);
    var season := SeasonCode(SeasonOfMonth(MonthOf(ts))).value;
    FeatureVec(w.lag1, w.lag2, w.lag3, ForcedGap, hour, dayOfWeek, weekend,
               WorkingHourFlag(hour, weekend), season, code)
  }

  /** The lag update after a prediction: the prediction becomes lag 1 and
      the two older slots move down by one; the oldest value is dropped. */
  function Shift(w: LagWindow, predicted: real): LagWindow
  {
    LagWindow(predicted, w.lag1, w.lag2)
  }

  // ---------------------------------------------------------------------
  // The loop
  // ---------------------------------------------------------------------

  /** `n` iterations of the loop from window `w` at instant `ts`; a
      non-positive `n` runs none, as `range(n)` does. */
  function Roll(predict: FeatureVec -> real, target: Target, w: LagWindow, ts: int, n: int): (r: seq<Step>)
    ensures |r| == if n > 0 then n else 0
    decreases n
  {
    if n <= 0 then []
    else
      var x := ModelInput(w, ts, target.code);
      var p := predict(x);
      [Step(x, ForecastPoint(ts, target.serverId, target.name, p))]
        + Roll(predict, target, Shift(w, p), ts + CadenceSeconds, n - 1)
  }

  /** Step k is emitted at `ts` plus k half-hours for the requested series,
      carries the model's answer to its own input, builds that input from
      its lag window and its timestamp's calendar, and its window is the
      previous window shifted by the previous prediction. */
  lemma {:induction false} RollShape(predict: FeatureVec -> real, target: Target, w: LagWindow, ts: int, n: int)
    ensures var r := Roll(predict, target, w, ts, n);
      && (forall k :: 0 <= k < |r| ==>
            r[k].point == ForecastPoint(ts + CadenceSeconds * k, target.serverId, target.name, predict(r[k].input)))
      && (forall k :: 0 <= k < |r| ==>
            r[k].input == ModelInput(WindowOf(r[k].input), r[k].point.stamp, target.code))
      && (|r| > 0 ==> WindowOf(r[0].input) == w)
      && (forall j, k :: 0 <= j < |r| && k == j + 1 && k < |r| ==>
            WindowOf(r[k].input) == Shift(WindowOf(r[j].input), r[j].point.predicted))
    decreases n
  {
    if n > 0 {
      var x := ModelInput(w, ts, target.code);
      var p := predict(x);
      RollShape(predict, target, Shift(w, p), ts + CadenceSeconds, n - 1);
    }
  }

  /** After step k the lag inputs are the last three predictions, reaching
      back into the seed window only for the first three steps: from step 3
      on, every lag the model sees is one of its own outputs. */
  lemma {:induction false} LagWindowClosedForm(
    predict: FeatureVec -> real, target: Target, w: LagWindow, ts: int, n: int, k: nat)
    requires k < |Roll(predict, target, w, ts, n)|
    ensures var r := Roll(predict, target, w, ts, n);
      && r[k].input.lag1 == (if k >= 1 then r[k - 1].point.predicted else w.lag1)
      && r[k].input.lag2 == (if k >= 2 then r[k - 2].point.predicted else if k == 1 then w.lag1 else w.lag2)
      && r[k].input.lag3 == (if k >= 3 then r[k - 3].point.predicted
                             else if k == 2 then w.lag1 else if k == 1 then w.lag2 else w.lag3)
  {
    var r := Roll(predict, target, w, ts, n);
    RollShape(predict, target, w, ts, n);
    if k > 0 {
      LagWindowClosedForm(predict, target, w, ts, n, k - 1);
      assert WindowOf(r[k].input) == Shift(WindowOf(r[k - 1].input), r[k - 1].point.predicted);
    }
  }

  // ---------------------------------------------------------------------
  // Seed selection and the whole call
  // ---------------------------------------------------------------------

  /** The test "belongs to this (server, service) series". */
  function InSeries(serverId: int, code: int): FeatureRow -> bool
  {
    (x: FeatureRow) => x.serverId == serverId && x.service == code
  }

  /** The rows of one (server, service) series, in table order. The last
      of them sits at the last position of the table holding that series. */
  function Matching(rows: seq<FeatureRow>, serverId: int, code: int): (r: seq<FeatureRow>)
    ensures forall i :: 0 <= i < |r| ==> r[i] in rows && r[i].serverId == serverId && r[i].service == code
    ensures forall i :: 0 <= i < |rows| && rows[i].serverId == serverId && rows[i].service == code ==> rows[i] in r
    ensures SortedBy(RowKey, rows) ==> SortedBy(RowKey, r)
  {
    var p := InSeries(serverId, code);
    if SortedBy(RowKey, rows) then
      FilterKeepsSorted(RowKey, p, rows);
      Seqs.Filter(p, rows)
    else
      Seqs.Filter(p, rows)
  }

  /** The last row of a series sits at the last position of the table
      holding that series. */
  lemma MatchingEndsAtLast(rows: seq<FeatureRow>, serverId: int, code: int)
    ensures Seqs.EndsAtLastPassing(InSeries(serverId, code), rows, Matching(rows, serverId, code))
  {
    Seqs.FilterLast(InSeries(serverId, code), rows);
  }

  /** Selecting a series keeps table order and multiplicity: a single row
      is kept exactly when it belongs to the series, and the selection of
      a concatenation is the concatenation of the selections. */
  lemma MatchingByRows(a: seq<FeatureRow>, b: seq<FeatureRow>, x: FeatureRow, serverId: int, code: int)
    ensures Matching([x], serverId, code) == if x.serverId == serverId && x.service == code then [x] else []
    ensures Matching(a + b, serverId, code) == Matching(a, serverId, code) + Matching(b, serverId, code)
  {
    Seqs.FilterAppend(InSeries(serverId, code), a, b);
  }

  predicate HasHistory(rows: seq<FeatureRow>, serverId: int, code: int)
  {
    exists i :: 0 <= i < |rows| && rows[i].serverId == serverId && rows[i].service == code
  }

  /** Every row of the series after position `j` is strictly older than
      `stamp`. */
  ghost predicate OnlyOlderAfter(rows: seq<FeatureRow>, serverId: int, code: int, j: int, stamp: int)
  {
    forall i :: 0 <= i < |rows| && j < i && rows[i].serverId == serverId && rows[i].service == code ==> rows[i].stamp < stamp
  }

  /** `x` sits at a position of the table after which every row of the
      series is strictly older than `x`: among the series rows with the
      latest timestamp, `x` is the one that comes last. */
  ghost predicate LastOfLatest(rows: seq<FeatureRow>, serverId: int, code: int, x: FeatureRow)
  {
    exists j {:trigger OnlyOlderAfter(rows, serverId, code, j, x.stamp)} ::
      0 <= j < |rows| && rows[j] == x && OnlyOlderAfter(rows, serverId, code, j, x.stamp)
  }

  /** `df_srv.iloc[-1]` after sorting: the time-latest row of the series,
      and among the rows tied at that time the one that comes last in the
      table, because the sort is stable. */
  function Seed(rows: seq<FeatureRow>, serverId: int, code: int): (r: Option<FeatureRow>)
    ensures r.Some? <==> HasHistory(rows, serverId, code)
    ensures r.Some? ==> r.value in rows && r.value.serverId == serverId && r.value.service == code
    ensures r.Some? ==> forall i :: 0 <= i < |rows| && rows[i].serverId == serverId && rows[i].service == code ==>
      rows[i].stamp <= r.value.stamp
    ensures r.Some? ==> LastOfLatest(rows, serverId, code, r.value)
  {
    var sorted := StableSort(RowKey, rows);
    var group := Matching(sorted, serverId, code);
    SortKeepsMembers(rows);
    SeriesEndFacts(rows, sorted, group, serverId, code);
    if |group| == 0 then None
    else
      MatchingEndsAtLast(sorted, serverId, code);
      SeedIsLastTie(rows, sorted, group, serverId, code);
      Some(group[|group| - 1])
  }

  lemma SortKeepsMembers(rows: seq<FeatureRow>)
    ensures forall x :: x in StableSort(RowKey, rows) <==> x in rows
  {
    var sorted := StableSort(RowKey, rows);
    forall x ensures x in sorted <==> x in rows {
      assert x in sorted <==> x in multiset(sorted);
      assert x in rows <==> x in multiset(rows);
    }
  }

  /** Within one series the sort key orders by timestamp alone. */
  lemma SeriesLastIsLatest(group: seq<FeatureRow>, serverId: int, code: int)
    requires SortedBy(RowKey, group) && |group| > 0
    requires forall i :: 0 <= i < |group| ==> group[i].serverId == serverId && group[i].service == code
    ensures forall j :: 0 <= j < |group| ==> group[j].stamp <= group[|group| - 1].stamp
  {
    forall j | 0 <= j < |group| - 1 ensures group[j].stamp <= group[|group| - 1].stamp {
      assert !KeyBefore(RowKey(group[|group| - 1]), RowKey(group[j]));
    }
  }

  lemma SeriesEndFacts(rows: seq<FeatureRow>, sorted: seq<FeatureRow>, group: seq<FeatureRow>, serverId: int, code: int)
    requires SortedBy(RowKey, sorted) && forall x :: x in sorted <==> x in rows
    requires group == Matching(sorted, serverId, code)
    ensures |group| > 0 <==> HasHistory(rows, serverId, code)
    ensures |group| > 0 ==> group[|group| - 1] in rows
    ensures |group| > 0 ==> forall i :: 0 <= i < |rows| && rows[i].serverId == serverId && rows[i].service == code ==>
      rows[i].stamp <= group[|group| - 1].stamp
  {
    forall i | 0 <= i < |rows| && rows[i].serverId == serverId && rows[i].service == code
      ensures rows[i] in group
    {
      assert rows[i] in sorted;
      var j :| 0 <= j < |sorted| && sorted[j] == rows[i];
    }
    if |group| > 0 {
      SeriesLastIsLatest(group, serverId, code);
      assert forall x :: x in group ==> exists j :: 0 <= j < |group| && group[j] == x;
    }
  }

  /** The stable sort keeps rows with equal keys in table order, so the end
      of the sorted series is, among the rows tied with it, the last one in
      the table. */
  lemma SeedIsLastTie(rows: seq<FeatureRow>, sorted: seq<FeatureRow>, group: seq<FeatureRow>, serverId: int, code: int)
    requires |group| > 0 && Seqs.EndsAtLastPassing(InSeries(serverId, code), sorted, group)
    requires KeyClass(RowKey, sorted, RowKey(group[|group| - 1])) == KeyClass(RowKey, rows, RowKey(group[|group| - 1]))
    requires forall i :: 0 <= i < |rows| && rows[i].serverId == serverId && rows[i].service == code ==>
      rows[i].stamp <= group[|group| - 1].stamp
    ensures LastOfLatest(rows, serverId, code, group[|group| - 1])
  {
    var q :| Seqs.LastPassing(InSeries(serverId, code), sorted, q) && group[|group| - 1] == sorted[q];
    LastOfSeriesEndsKeyClass(sorted, serverId, code, q);
    LastOfKeyClassIsLastOfLatest(rows, serverId, code, sorted[q]);
  }

  /** A series row that ends its key class and is no older than any row of
      its series is the last of the latest. */
  lemma LastOfKeyClassIsLastOfLatest(rows: seq<FeatureRow>, serverId: int, code: int, x: FeatureRow)
    requires x.serverId == serverId && x.service == code
    requires var c := KeyClass(RowKey, rows, RowKey(x)); |c| > 0 && c[|c| - 1] == x
    requires forall i :: 0 <= i < |rows| && rows[i].serverId == serverId && rows[i].service == code ==>
      rows[i].stamp <= x.stamp
    ensures LastOfLatest(rows, serverId, code, x)
  {
    var hk := HasKey(RowKey, RowKey(x));
    var f := Seqs.Filter(hk, rows);
    KeyClassIsFilter(RowKey, rows, RowKey(x));
    assert |f| > 0 && f[|f| - 1] == x;
    Seqs.FilterLast(hk, rows);
    assert Seqs.EndsAtLastPassing(hk, rows, f);
    var j :| Seqs.LastPassing(hk, rows, j) && f[|f| - 1] == rows[j];
    OnlyOlderAfterLastOfKey(rows, serverId, code, j);
  }

  /** After the last row with its sort key, a row that is no older than
      its series has only strictly older series rows. */
  lemma OnlyOlderAfterLastOfKey(rows: seq<FeatureRow>, serverId: int, code: int, j: int)
    requires 0 <= j < |rows| && Seqs.LastPassing(HasKey(RowKey, RowKey(rows[j])), rows, j)
    requires rows[j].serverId == serverId && rows[j].service == code
    requires forall i :: 0 <= i < |rows| && rows[i].serverId == serverId && rows[i].service == code ==>
      rows[i].stamp <= rows[j].stamp
    ensures LastOfLatest(rows, serverId, code, rows[j])
  {
    forall i | j < i < |rows| && rows[i].serverId == serverId && rows[i].service == code
      ensures rows[i].stamp < rows[j].stamp
    {
      assert !HasKey(RowKey, RowKey(rows[j]))(rows[i]);
      assert RowKey(rows[i]) != RowKey(rows[j]);
    }
    assert OnlyOlderAfter(rows, serverId, code, j, rows[j].stamp);
  }

  /** The last row of a series in a table is also the last row with its
      own sort key, so it ends that key's class. */
  lemma LastOfSeriesEndsKeyClass(s: seq<FeatureRow>, serverId: int, code: int, q: int)
    requires Seqs.LastPassing(InSeries(serverId, code), s, q)
    ensures var c := KeyClass(RowKey, s, RowKey(s[q])); |c| > 0 && c[|c| - 1] == s[q]
  {
    var hk := HasKey(RowKey, RowKey(s[q]));
    KeyClassIsFilter(RowKey, s, RowKey(s[q]));
    assert hk(s[q]);
    Seqs.FilterLast(hk, s);
    var q2 :| Seqs.LastPassing(hk, s, q2) && Seqs.Filter(hk, s)[|Seqs.Filter(hk, s)| - 1] == s[q2];
    assert InSeries(serverId, code)(s[q2]);
  }

  /** `forecast_14_days` with its loop trace: the service label is looked
      up first, then the series must have at least one row, then the loop
      runs from the current time floored to the minute. */
  function ForecastTrace(predict: FeatureVec -> real, table: seq<FeatureRow>, serverId: int,
                         name: string, now: int, steps: int): Result<seq<Step>, RolloutError>
  {
    match ServiceCode(name)
    case None => Failure(UnknownService(name))
    case Some(code) =>
      match Seed(table, serverId, code)
      case None => Failure(NoHistory)
      case Some(last) =>
        Success(Roll(predict, Target(serverId, name, code), LagWindow(last.lag1, last.lag2, last.lag3),
                     FloorToMinute(now), steps))
  }

  /** On success the trace starts from the seed's lags, runs `steps` times
      at half-hour spacing from the floored clock, shifts its lag window by
      each prediction, and every model input carries the forced gap and the
      requested service code. */
  lemma TraceFromSeed(predict: FeatureVec -> real, table: seq<FeatureRow>, serverId: int,
                      name: string, now: int, steps: int)
    requires ForecastTrace(predict, table, serverId, name, now, steps).Success?
    ensures ServiceCode(name).Some? && Seed(table, serverId, ServiceCode(name).value).Some?
    ensures var trace := ForecastTrace(predict, table, serverId, name, now, steps).value;
      var last := Seed(table, serverId, ServiceCode(name).value).value;
      && |trace| == (if steps > 0 then steps else 0)
      && (|trace| > 0 ==> WindowOf(trace[0].input) == LagWindow(last.lag1, last.lag2, last.lag3))
      && (forall k :: 0 <= k < |trace| ==>
            trace[k].point == ForecastPoint(FloorToMinute(now) + CadenceSeconds * k, serverId, name,
                                            predict(trace[k].input)))
      && (forall k :: 0 <= k < |trace| ==>
            trace[k].input.gap == ForcedGap && trace[k].input.service == ServiceCode(name).value)
      && (forall k :: 0 <= k < |trace| ==>
            trace[k].input == ModelInput(WindowOf(trace[k].input), trace[k].point.stamp, ServiceCode(name).value))
      && (forall j, k :: 0 <= j < |trace| && k == j + 1 && k < |trace| ==>
            WindowOf(trace[k].input) == Shift(WindowOf(trace[j].input), trace[j].point.predicted))
  {
    var code := ServiceCode(name).value;
    var last := Seed(table, serverId, code).value;
    RollShape(predict, Target(serverId, name, code), LagWindow(last.lag1, last.lag2, last.lag3),
              FloorToMinute(now), steps);
  }

  function PointOf(s: Step): ForecastPoint
  {
    s.point
  }

  /** `forecast_14_days`: the returned frame of forecast points. */
  function Forecast14Days(predict: FeatureVec -> real, table: seq<FeatureRow>, serverId: int,
                          name: string, now: int, steps: int): (r: Result<seq<ForecastPoint>, RolloutError>)
    ensures ServiceCode(name).None? ==> r == Failure(UnknownService(name))
    ensures ServiceCode(name).Some? ==>
      (r == Failure(NoHistory) <==> !HasHistory(table, serverId, ServiceCode(name).value))
    ensures r.Success? <==> ServiceCode(name).Some? && HasHistory(table, serverId, ServiceCode(name).value)
    ensures r.Success? ==> |r.value| == if steps > 0 then steps else 0
    ensures r.Success? ==> forall k :: 0 <= k < |r.value| ==>
      && r.value[k].stamp == FloorToMinute(now) + CadenceSeconds * k
      && r.value[k].serverId == serverId
      && r.value[k].service == name
    ensures r.Success? ==>
      && ForecastTrace(predict, table, serverId, name, now, steps).Success?
      && r.value == Seqs.MapSeq(PointOf, ForecastTrace(predict, table, serverId, name, now, steps).value)
  {
    match ForecastTrace(predict, table, serverId, name, now, steps)
    case Failure(e) => Failure(e)
    case Success(trace) =>
      TraceFromSeed(predict, table, serverId, name, now, steps);
      Success(Seqs.MapSeq(PointOf, trace))
  }

  /** One iteration of the loop, unfolded. */
  lemma RollStep(predict: FeatureVec -> real, target: Target, w: LagWindow, ts: int, n: int)
    requires n > 0
    ensures var x := ModelInput(w, ts, target.code);
      Roll(predict, target, w, ts, n)
        == [Step(x, ForecastPoint(ts, target.serverId, target.name, predict(x)))]
           + Roll(predict, target, Shift(w, predict(x)), ts + CadenceSeconds, n - 1)
  {
  }

  /** The loop as the server writes it: a mutable lag window and clock,
      one point appended per iteration. It emits exactly the points of the
      recursive definition. */
  method RunLoop(predict: FeatureVec -> real, target: Target, seed: LagWindow, start: int, steps: int)
    returns (points: seq<ForecastPoint>)
    ensures points == Seqs.MapSeq(PointOf, Roll(predict, target, seed, start, steps))
  {
    ghost var whole := Roll(predict, target, seed, start, steps);
    var window := seed;
    var ts := start;
    points := [];
    var i := 0;
    while i < steps
      invariant 0 <= i <= |whole|
      invariant |points| == i && forall k :: 0 <= k < i ==> points[k] == whole[k].point
      invariant Roll(predict, target, window, ts, steps - i) == whole[i..]
    {
      var x := ModelInput(window, ts, target.code);
      var p := predict(x);
      RollStep(predict, target, window, ts, steps - i);
      assert whole[i..][0] == whole[i] && whole[i..][1..] == whole[i + 1..];
      points := points + [ForecastPoint(ts, target.serverId, target.name, p)];
      window := Shift(window, p);
      ts := ts + CadenceSeconds;
      i := i + 1;
    }
  }

  /** `forecast_14_days` as a statement sequence: look up the label, pick
      the seed, run the loop. */
  method ForecastLoop(predict: FeatureVec -> real, table: seq<FeatureRow>, serverId: int,
                      name: string, now: int, steps: int) returns (r: Result<seq<ForecastPoint>, RolloutError>)
    ensures r == Forecast14Days(predict, table, serverId, name, now, steps)
  {
    var code := ServiceCode(name);
    if code.None? {
      return Failure(UnknownService(name));
    }
    var seed := Seed(table, serverId, code.value);
    if seed.None? {
      return Failure(NoHistory);
    }
    var last := seed.value;
    var points := RunLoop(predict, Target(serverId, name, code.value),
                          LagWindow(last.lag1, last.lag2, last.lag3), FloorToMinute(now), steps);
    return Success(points);
  }

  /** A failing call fails the same way whatever the model is: the error
      is raised before any prediction is asked for. */
  lemma FailureComesBeforePrediction(p1: FeatureVec -> real, p2: FeatureVec -> real, table: seq<FeatureRow>,
                                     serverId: int, name: string, now: int, steps: int)
    requires Forecast14Days(p1, table, serverId, name, now, steps).Failure?
    ensures Forecast14Days(p2, table, serverId, name, now, steps) == Forecast14Days(p1, table, serverId, name, now, steps)
  {
  }

  /** The pipeline's output is already in sort order, so the rollout's own
      sort changes nothing and the seed is the last row of the series as
      the pipeline returned it. */
  lemma SeedOfPipelineOutput(t: RawTable, serverId: int, code: int)
    requires PreprocessData(t).Success?
    ensures var out := PreprocessData(t).value;
      var g := Matching(out, serverId, code);
      Seed(out, serverId, code) == if |g| == 0 then None else Some(g[|g| - 1])
  {
    SeedOfSorted(PreprocessData(t).value, serverId, code);
  }

  /** On a sorted table the seed is the last row of the series in table
      order. */
  lemma SeedOfSorted(rows: seq<FeatureRow>, serverId: int, code: int)
    requires SortedBy(RowKey, rows)
    ensures var g := Matching(rows, serverId, code);
      Seed(rows, serverId, code) == if |g| == 0 then None else Some(g[|g| - 1])
  {
    SortSortedIsIdentity(RowKey, rows);
  }

  lemma ConstantModelForecast(c: real, table: seq<FeatureRow>, serverId: int, name: string, now: int, steps: int)
    requires Forecast14Days((x: FeatureVec) => c, table, serverId, name, now, steps).Success?
    ensures var r := Forecast14Days((x: FeatureVec) => c, table, serverId, name, now, steps).value;
      forall k :: 0 <= k < |r| ==> r[k].predicted == c
  {
    TraceFromSeed((x: FeatureVec) => c, table, serverId, name, now, steps);
  }

  /** With the default `steps` the call covers exactly fourteen days: 672
      half-hour points, the last one half an hour short of fourteen days
      after the floored clock. */
  lemma DefaultHorizon(predict: FeatureVec -> real, table: seq<FeatureRow>, serverId: int, name: string, now: int)
    requires Forecast14Days(predict, table, serverId, name, now, DefaultSteps).Success?
    ensures var r := Forecast14Days(predict, table, serverId, name, now, DefaultSteps).value;
      && |r| == 672
      && r[0].stamp == FloorToMinute(now)
      && r[|r| - 1].stamp + CadenceSeconds == FloorToMinute(now) + 14 * SecondsPerDay
  {
  }
}
