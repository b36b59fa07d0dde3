/** The feature pipeline, `preprocess_data` of the forecasting server: raw
    telemetry rows in, model-ready feature rows out. */
module Pipeline {
  import opened Wrappers
  import Seqs
  import opened Mappings
  import opened Ordering
  import opened Grouping

  /** A `service_description` cell: a numeric code, a text label, or NaN. */
  datatype ServiceCell = ServiceNumber(code: int) | ServiceText(text: string) | ServiceMissing

  /** A present `season` cell: a numeric code or a text label. */
  datatype SeasonCell = SeasonNumber(code: int) | SeasonText(text: string)

  /** One raw input row. `stamp` is the instant the `Timestamp` text parses
      to, or `None` when `to_datetime(..., errors="coerce")` gives NaT;
      `cpu` and `season` are `None` for NaN. */
  datatype RawSample = RawSample(
    serverId: int, serviceId: int, service: ServiceCell, stamp: Option<int>,
    cpu: Option<real>, hour: int, dayOfWeek: int, isWeekend: int,
    isWorkingHour: int, season: Option<SeasonCell>)

  /** The input frame; `hasTimestamp` says whether it has a `Timestamp` column. */
  datatype RawTable = RawTable(hasTimestamp: bool, rows: seq<RawSample>)

  /** A row after the service column has been coerced to integer codes. */
  datatype Sample = Sample(
    serverId: int, serviceId: int, service: int, stamp: Option<int>,
    cpu: Option<real>, hour: int, dayOfWeek: int, isWeekend: int,
    isWorkingHour: int, season: Option<SeasonCell>)

  /** A sample with its derived columns, before the NaN filter. */
  datatype Featured = Featured(
    sample: Sample, gap: Option<real>,
    lag1: Option<real>, lag2: Option<real>, lag3: Option<real>)

  /** An output row: every column the filter inspects is present. `season`
      is the mapped code, or `None` for a label the mapping does not know. */
  datatype FeatureRow = FeatureRow(
    serverId: int, serviceId: int, service: int, stamp: int, cpu: real,
    hour: int, dayOfWeek: int, isWeekend: int, isWorkingHour: int,
    season: Option<int>, gap: real, lag1: real, lag2: real, lag3: real)

  /** `KeyError` for an absent column; `ValueError` from `astype`. */
  datatype PipelineError = MissingColumn(column: string) | CoercionFailed(column: string)

  // ---------------------------------------------------------------------
  // Service column: `map(service_description_mapping)` then `astype(int64)`
  // ---------------------------------------------------------------------

  /** pandas gives the column dtype `object` as soon as one cell is text. */
  predicate ServiceColumnIsText(rows: seq<RawSample>)
  {
    exists i :: 0 <= i < |rows| && rows[i].service.ServiceText?
  }

  /** A text column is mapped cell by cell through the label dictionary
      (a number or NaN is not a key, so it becomes NaN); a numeric column
      is left as it is. */
  function MapServiceCell(isText: bool, c: ServiceCell): Option<int>
  {
    match c
    case ServiceText(t) => ServiceCode(t)
    case ServiceNumber(n) => if isText then None else Some(n)
    case ServiceMissing => None
  }

  function MapServiceColumn(rows: seq<RawSample>): (r: seq<Option<int>>)
    ensures |r| == |rows|
  {
    var isText := ServiceColumnIsText(rows);
    seq(|rows|, i requires 0 <= i < |rows| => MapServiceCell(isText, rows[i].service))
  }

  /** `astype("int64")`: fails as a whole when any cell is NaN. */
  function CoerceCodes(col: seq<Option<int>>): (r: Result<seq<int>, PipelineError>)
    ensures r.Success? <==> forall i :: 0 <= i < |col| ==> col[i].Some?
    ensures r.Success? ==> |r.value| == |col| && forall i :: 0 <= i < |col| ==> col[i] == Some(r.value[i])
    ensures r.Failure? ==> r.error == CoercionFailed("service_description")
    decreases |col|
  {
    if |col| == 0 then Success([])
    else if col[0].None? then Failure(CoercionFailed("service_description"))
    else
      var rest :- CoerceCodes(col[1..]);
      Success([col[0].value] + rest)
  }

  function EncodeServices(rows: seq<RawSample>): (r: Result<seq<int>, PipelineError>)
    ensures r.Success? ==> |r.value| == |rows|
  {
    CoerceCodes(MapServiceColumn(rows))
  }

  /** The service column survives coercion exactly when it is all numbers,
      or all text drawn from the three known labels. */
  predicate ServiceColumnValid(rows: seq<RawSample>)
  {
    if ServiceColumnIsText(rows) then
      forall i :: 0 <= i < |rows| ==> rows[i].service.ServiceText? && rows[i].service.text in ServiceLabels
    else
      forall i :: 0 <= i < |rows| ==> rows[i].service.ServiceNumber?
  }

  /** Encoding succeeds iff the column is valid; on success every text
      label is replaced by its code and every number is kept. */
  lemma EncodeServicesCharacterised(rows: seq<RawSample>)
    ensures EncodeServices(rows).Success? <==> ServiceColumnValid(rows)
    ensures EncodeServices(rows).Success? ==>
      forall i :: 0 <= i < |rows| ==>
        match rows[i].service
        case ServiceText(t) => ServiceCode(t) == Some(EncodeServices(rows).value[i])
        case ServiceNumber(n) => n == EncodeServices(rows).value[i]
        case ServiceMissing => false
  {
    var col := MapServiceColumn(rows);
    forall i | 0 <= i < |rows|
      ensures col[i].Some? <==>
        if ServiceColumnIsText(rows) then rows[i].service.ServiceText? && rows[i].service.text in ServiceLabels
        else rows[i].service.ServiceNumber?
    {
      if rows[i].service.ServiceText? {
        ServiceMappingClosed(rows[i].service.text);
      }
    }
  }

  // ---------------------------------------------------------------------
  // Sorting and the derived columns
  // ---------------------------------------------------------------------

  function Samples(rows: seq<RawSample>, codes: seq<int>): (r: seq<Sample>)
    requires |codes| == |rows|
    ensures |r| == |rows|
  {
    seq(|rows|, i requires 0 <= i < |rows| =>
      var x := rows[i];
      Sample(x.serverId, x.serviceId, codes[i], x.stamp, x.cpu, x.hour,
             x.dayOfWeek, x.isWeekend, x.isWorkingHour, x.season))
  }

  function SampleKey(s: Sample): SortKey
  {
    SortKey(s.serverId, s.service, s.stamp)
  }

  function FeaturedKey(f: Featured): SortKey
  {
    SampleKey(f.sample)
  }

  function RowKey(r: FeatureRow): SortKey
  {
    SortKey(r.serverId, r.service, Some(r.stamp))
  }

  /** Group key of the lag columns: `server_id`. */
  function ServerKeys(s: seq<Sample>): (r: seq<int>)
    ensures |r| == |s|
    ensures forall i :: 0 <= i < |s| ==> r[i] == s[i].serverId
  {
    seq(|s|, i requires 0 <= i < |s| => s[i].serverId)
  }

  /** Group key of the time-gap column: `(server_id, service_description)`. */
  function SeriesKeys(s: seq<Sample>): (r: seq<(int, int)>)
    ensures |r| == |s|
    ensures forall i :: 0 <= i < |s| ==> r[i] == (s[i].serverId, s[i].service)
  {
    seq(|s|, i requires 0 <= i < |s| => (s[i].serverId, s[i].service))
  }

  function MinutesBetween(earlier: int, later: int): real
  {
    (later - earlier) as real / 60.0
  }

  /** `groupby([server, service])["Timestamp"].diff()` in minutes: NaN for
      the first row of a series and whenever either instant is NaT. */
  function Gap(s: seq<Sample>, i: nat): Option<real>
    requires i < |s|
  {
    match PrevInGroup(SeriesKeys(s), i, 1)
    case None => None
    case Some(p) =>
      if s[i].stamp.Some? && s[p].stamp.Some? then Some(MinutesBetween(s[p].stamp.value, s[i].stamp.value))
      else None
  }

  /** `groupby("server_id")["CPU_percent"].shift(d)`. */
  function Lag(s: seq<Sample>, i: nat, d: nat): Option<real>
    requires i < |s| && 1 <= d
  {
    match PrevInGroup(ServerKeys(s), i, d)
    case None => None
    case Some(p) => s[p].cpu
  }

  function AddFeatures(s: seq<Sample>): (r: seq<Featured>)
    ensures |r| == |s|
    ensures forall i :: 0 <= i < |s| ==> r[i].sample == s[i]
  {
    seq(|s|, i requires 0 <= i < |s| => Featured(s[i], Gap(s, i), Lag(s, i, 1), Lag(s, i, 2), Lag(s, i, 3)))
  }

  // ---------------------------------------------------------------------
  // `dropna()` and the season mapping
  // ---------------------------------------------------------------------

  /** No NaN / NaT in any column `dropna` looks at. */
  predicate Complete(f: Featured)
  {
    && f.sample.stamp.Some? && f.sample.cpu.Some? && f.sample.season.Some?
    && f.gap.Some? && f.lag1.Some? && f.lag2.Some? && f.lag3.Some?
  }

  /** The season column is `object` when some cell of the whole input
      column is text. */
  predicate SeasonColumnIsText(rows: seq<RawSample>)
  {
    exists i :: 0 <= i < |rows| && rows[i].season.Some? && rows[i].season.value.SeasonText?
  }

  /** `map(season_mapping)` on a text column, the identity on a numeric one.
      There is no coercion afterwards, so an unknown label stays NaN. */
  function SeasonValue(isText: bool, c: SeasonCell): (r: Option<int>)
    ensures c.SeasonText? ==> r == SeasonCode(c.text)
    ensures c.SeasonNumber? ==> (r.Some? <==> !isText)
    ensures c.SeasonNumber? && !isText ==> r == Some(c.code)
  {
    match c
    case SeasonText(t) => SeasonCode(t)
    case SeasonNumber(n) => if isText then None else Some(n)
  }

  function Emit(seasonIsText: bool, f: Featured): (r: FeatureRow)
    requires Complete(f)
    ensures RowKey(r) == FeaturedKey(f)
  {
    var x := f.sample;
    FeatureRow(x.serverId, x.serviceId, x.service, x.stamp.value, x.cpu.value,
               x.hour, x.dayOfWeek, x.isWeekend, x.isWorkingHour,
               SeasonValue(seasonIsText, x.season.value),
               f.gap.value, f.lag1.value, f.lag2.value, f.lag3.value)
  }

  /** Drops incomplete rows, then maps the season of the survivors. */
  function Finish(seasonIsText: bool, f: seq<Featured>): (r: seq<FeatureRow>)
    ensures |r| <= |f|
  {
    var kept := Seqs.Filter(Complete, f);
    seq(|kept|, i requires 0 <= i < |kept| => Emit(seasonIsText, kept[i]))
  }

  /** Steps 4 to 8 of `preprocess_data` once the service codes are known. */
  function Transform(t: RawTable, codes: seq<int>): (r: seq<FeatureRow>)
    requires |codes| == |t.rows|
    ensures |r| <= |t.rows|
  {
    var sorted := StableSort(SampleKey, Samples(t.rows, codes));
    assert |sorted| == |multiset(sorted)| == |t.rows|;
    Finish(SeasonColumnIsText(t.rows), AddFeatures(sorted))
  }

  /** `preprocess_data`. Without a `Timestamp` column the `astype` call
      still runs, so a bad service column is reported first; otherwise
      `sort_values` raises for the missing column. */
  function PreprocessData(t: RawTable): (r: Result<seq<FeatureRow>, PipelineError>)
    ensures r.Success? <==> t.hasTimestamp && ServiceColumnValid(t.rows)
    ensures r.Failure? ==> (r.error == CoercionFailed("service_description") <==> !ServiceColumnValid(t.rows))
    ensures r.Success? ==> SortedBy(RowKey, r.value) && |r.value| <= |t.rows|
  {
    EncodeServicesCharacterised(t.rows);
    var codes :- EncodeServices(t.rows);
    if !t.hasTimestamp then Failure(MissingColumn("Timestamp"))
    else
      TransformSorted(t, codes);
      Success(Transform(t, codes))
  }

  // ---------------------------------------------------------------------
  // Properties
  // ---------------------------------------------------------------------

  lemma TransformSorted(t: RawTable, codes: seq<int>)
    requires |codes| == |t.rows|
    ensures SortedBy(RowKey, Transform(t, codes))
  {
    var sorted := StableSort(SampleKey, Samples(t.rows, codes));
    var f := AddFeatures(sorted);
    assert SortedBy(FeaturedKey, f);
    FilterKeepsSorted(FeaturedKey, Complete, f);
  }

  /** In a sorted table each server, and each (server, service) series,
      occupies one contiguous block. */
  lemma SortedTableIsGrouped(s: seq<Sample>)
    requires SortedBy(SampleKey, s)
    ensures Grouped(ServerKeys(s)) && Grouped(SeriesKeys(s))
  {
    var sk := ServerKeys(s);
    var gk := SeriesKeys(s);
    forall a, b, c | 0 <= a < b < c < |s| && sk[a] == sk[c] ensures sk[b] == sk[a] {
      assert !KeyBefore(SampleKey(s[b]), SampleKey(s[a]));
      assert !KeyBefore(SampleKey(s[c]), SampleKey(s[b]));
    }
    forall a, b, c | 0 <= a < b < c < |s| && gk[a] == gk[c] ensures gk[b] == gk[a] {
      assert !KeyBefore(SampleKey(s[b]), SampleKey(s[a]));
      assert !KeyBefore(SampleKey(s[c]), SampleKey(s[b]));
    }
  }

  /** The CPU value d rows earlier in the table, when that row belongs to
      the same server. */
  function RowsBack(s: seq<Sample>, i: nat, d: nat): Option<real>
    requires i < |s|
  {
    if d <= i && s[i - d].serverId == s[i].serverId then s[i - d].cpu else None
  }

  /** The minutes since the previous row of the table, when that row belongs
      to the same (server, service) series and both instants parsed. */
  function MinutesSincePrevious(s: seq<Sample>, i: nat): Option<real>
    requires i < |s|
  {
    if 1 <= i && s[i - 1].serverId == s[i].serverId && s[i - 1].service == s[i].service
       && s[i - 1].stamp.Some? && s[i].stamp.Some?
    then Some(MinutesBetween(s[i - 1].stamp.value, s[i].stamp.value))
    else None
  }

  /** On a sorted table the grouped shift and diff reduce to looking at the
      neighbouring rows: lag d is the CPU value d rows up if that row is the
      same server's (whatever its service), and the gap is measured to the
      row directly above if it is the same series. */
  lemma FeaturesOfSortedTable(s: seq<Sample>)
    requires SortedBy(SampleKey, s)
    ensures forall i :: 0 <= i < |s| ==>
      && AddFeatures(s)[i].lag1 == RowsBack(s, i, 1)
      && AddFeatures(s)[i].lag2 == RowsBack(s, i, 2)
      && AddFeatures(s)[i].lag3 == RowsBack(s, i, 3)
      && AddFeatures(s)[i].gap == MinutesSincePrevious(s, i)
  {
    SortedTableIsGrouped(s);
    forall i | 0 <= i < |s|
      ensures AddFeatures(s)[i].lag1 == RowsBack(s, i, 1)
      ensures AddFeatures(s)[i].lag2 == RowsBack(s, i, 2)
      ensures AddFeatures(s)[i].lag3 == RowsBack(s, i, 3)
      ensures AddFeatures(s)[i].gap == MinutesSincePrevious(s, i)
    {
      FeaturesAt(s, i);
    }
  }

  /** The features of one row of a table whose servers and series are
      contiguous. */
  lemma FeaturesAt(s: seq<Sample>, i: nat)
    requires Grouped(ServerKeys(s)) && Grouped(SeriesKeys(s)) && i < |s|
    ensures AddFeatures(s)[i].lag1 == RowsBack(s, i, 1)
    ensures AddFeatures(s)[i].lag2 == RowsBack(s, i, 2)
    ensures AddFeatures(s)[i].lag3 == RowsBack(s, i, 3)
    ensures AddFeatures(s)[i].gap == MinutesSincePrevious(s, i)
  {
    assert AddFeatures(s)[i] == Featured(s[i], Gap(s, i), Lag(s, i, 1), Lag(s, i, 2), Lag(s, i, 3));
    LagAt(s, i, 1);
    LagAt(s, i, 2);
    LagAt(s, i, 3);
    PrevInGroupIsAdjacent(SeriesKeys(s), i, 1);
  }

  lemma LagAt(s: seq<Sample>, i: nat, d: nat)
    requires Grouped(ServerKeys(s)) && i < |s| && 1 <= d
    ensures Lag(s, i, d) == RowsBack(s, i, d)
  {
    PrevInGroupIsAdjacent(ServerKeys(s), i, d);
  }

  /** The first row of a server's second service has no time gap, so it is
      dropped, yet its first lag is the last CPU value of the other service. */
  lemma LagCrossesServiceBoundary(s: seq<Sample>, i: nat)
    requires SortedBy(SampleKey, s) && 1 <= i < |s|
    requires s[i - 1].serverId == s[i].serverId && s[i - 1].service != s[i].service
    ensures AddFeatures(s)[i].gap.None?
    ensures !Complete(AddFeatures(s)[i])
    ensures AddFeatures(s)[i].lag1 == s[i - 1].cpu
  {
    FeaturesOfSortedTable(s);
  }

  /** One sample of server 1, with the given service, instant and CPU value. */
  function ExampleSample(service: int, stamp: int, cpu: real): Sample
  {
    Sample(1, service, service, Some(stamp), Some(cpu), 0, 0, 0, 0, Some(SeasonNumber(0)))
  }

  /** A series needs no three earlier samples of its own. Server 1 has three
      samples of service 1 and then two of service 2, which is the table's
      sort order. The second sample of service 2 finds a gap of one minute
      and three lags, two of them from service 1, so it survives `dropna`. */
  lemma ShortSeriesRowSurvives()
    ensures var s := [ExampleSample(1, 100, 2.0), ExampleSample(1, 200, 3.0), ExampleSample(1, 300, 4.0),
                      ExampleSample(2, 100, 5.0), ExampleSample(2, 160, 6.0)];
      && SortedBy(SampleKey, s)
      && AddFeatures(s)[4] == Featured(s[4], Some(1.0), Some(5.0), Some(4.0), Some(3.0))
      && Complete(AddFeatures(s)[4])
      && !Complete(AddFeatures(s)[3])
  {
    var s := [ExampleSample(1, 100, 2.0), ExampleSample(1, 200, 3.0), ExampleSample(1, 300, 4.0),
              ExampleSample(2, 100, 5.0), ExampleSample(2, 160, 6.0)];
    assert SortedBy(SampleKey, s);
    FeaturesAtSorted(s, 4);
    FeaturesAtSorted(s, 3);
  }

  lemma FeaturesAtSorted(s: seq<Sample>, i: nat)
    requires SortedBy(SampleKey, s) && i < |s|
    ensures AddFeatures(s)[i].lag1 == RowsBack(s, i, 1)
    ensures AddFeatures(s)[i].lag2 == RowsBack(s, i, 2)
    ensures AddFeatures(s)[i].lag3 == RowsBack(s, i, 3)
    ensures AddFeatures(s)[i].gap == MinutesSincePrevious(s, i)
  {
    SortedTableIsGrouped(s);
    FeaturesAt(s, i);
  }

  lemma PreprocessIsTransform(t: RawTable)
    requires PreprocessData(t).Success?
    ensures EncodeServices(t.rows).Success?
    ensures PreprocessData(t).value == Transform(t, EncodeServices(t.rows).value)
  {
  }

  /** One (server, service) series of n sorted, fully populated samples
      keeps all but its first three rows. */
  lemma {:induction false} SingleSeriesSurvivors(sorted: seq<Sample>)
    requires SortedBy(SampleKey, sorted)
    requires forall i :: 0 <= i < |sorted| ==>
      && sorted[i].serverId == sorted[0].serverId && sorted[i].service == sorted[0].service
      && sorted[i].stamp.Some? && sorted[i].cpu.Some? && sorted[i].season.Some?
    ensures |Seqs.Filter(Complete, AddFeatures(sorted))| == if |sorted| >= 3 then |sorted| - 3 else 0
  {
    FeaturesOfSortedTable(sorted);
    var f := AddFeatures(sorted);
    var m := if |sorted| >= 3 then 3 else |sorted|;
    assert forall i :: 0 <= i < |f| ==> (Complete(f[i]) <==> m <= i);
    Seqs.FilterKeepsSuffix(Complete, f, m);
  }

  /** One server with one service and n fully populated samples: the first
      three rows lack a lag and are dropped, so max(0, n - 3) rows remain. */
  lemma SingleSeriesYield(t: RawTable, server: int, cell: ServiceCell)
    requires t.hasTimestamp
    requires cell.ServiceNumber? || (cell.ServiceText? && cell.text in ServiceLabels)
    requires forall i :: 0 <= i < |t.rows| ==> t.rows[i].serverId == server && t.rows[i].service == cell
    requires forall i :: 0 <= i < |t.rows| ==>
      t.rows[i].stamp.Some? && t.rows[i].cpu.Some? && t.rows[i].season.Some?
    ensures PreprocessData(t).Success?
    ensures |PreprocessData(t).value| == if |t.rows| >= 3 then |t.rows| - 3 else 0
  {
    var rows := t.rows;
    SingleServiceCodes(rows, cell);
    PreprocessIsTransform(t);
    var codes := EncodeServices(rows).value;
    var code := if cell.ServiceNumber? then cell.code else ServiceCode(cell.text).value;
    var sorted := StableSort(SampleKey, Samples(rows, codes));
    SingleSeriesSorted(rows, codes, server, code);
    SingleSeriesSurvivors(sorted);
    assert Transform(t, codes) == Finish(SeasonColumnIsText(rows), AddFeatures(sorted));
  }

  /** Sorting the samples of one fully populated series keeps every sample
      in that series and fully populated. */
  lemma SingleSeriesSorted(rows: seq<RawSample>, codes: seq<int>, server: int, code: int)
    requires |codes| == |rows|
    requires forall i :: 0 <= i < |rows| ==> rows[i].serverId == server && codes[i] == code
    requires forall i :: 0 <= i < |rows| ==> rows[i].stamp.Some? && rows[i].cpu.Some? && rows[i].season.Some?
    ensures var sorted := StableSort(SampleKey, Samples(rows, codes));
      && |sorted| == |rows|
      && forall i :: 0 <= i < |sorted| ==>
        && sorted[i].serverId == server && sorted[i].service == code
        && sorted[i].stamp.Some? && sorted[i].cpu.Some? && sorted[i].season.Some?
  {
    var samples := Samples(rows, codes);
    var sorted := StableSort(SampleKey, samples);
    forall i | 0 <= i < |sorted|
      ensures sorted[i].serverId == server && sorted[i].service == code
      ensures sorted[i].stamp.Some? && sorted[i].cpu.Some? && sorted[i].season.Some?
    {
      SortedSampleOrigin(samples, i);
    }
    assert |sorted| == |multiset(sorted)| == |rows|;
  }

  /** A column holding one valid service cell throughout encodes to one code. */
  lemma SingleServiceCodes(rows: seq<RawSample>, cell: ServiceCell)
    requires cell.ServiceNumber? || (cell.ServiceText? && cell.text in ServiceLabels)
    requires forall i :: 0 <= i < |rows| ==> rows[i].service == cell
    ensures ServiceColumnValid(rows) && EncodeServices(rows).Success?
    ensures forall i :: 0 <= i < |rows| ==>
      EncodeServices(rows).value[i] == if cell.ServiceNumber? then cell.code else ServiceCode(cell.text).value
  {
    EncodeServicesCharacterised(rows);
    assert ServiceColumnValid(rows);
  }

  /** The columns an output row shares with the raw row it came from. */
  predicate DerivedFrom(x: RawSample, r: FeatureRow)
  {
    && x.serverId == r.serverId && x.serviceId == r.serviceId
    && x.stamp == Some(r.stamp) && x.cpu == Some(r.cpu)
    && x.hour == r.hour && x.dayOfWeek == r.dayOfWeek
    && x.isWeekend == r.isWeekend && x.isWorkingHour == r.isWorkingHour
    && x.season.Some?
  }

  /** Every output row is an input row whose timestamp parsed and whose CPU
      value is present, with its service label replaced by its code: the
      pipeline invents no rows, and a row whose timestamp became NaT never
      survives. */
  lemma OutputRowsComeFromInput(t: RawTable)
    requires PreprocessData(t).Success?
    ensures forall k :: 0 <= k < |PreprocessData(t).value| ==>
      exists j :: 0 <= j < |t.rows| && DerivedFrom(t.rows[j], PreprocessData(t).value[k])
                  && PreprocessData(t).value[k].service == EncodeServices(t.rows).value[j]
                  && PreprocessData(t).value[k].season == SeasonValue(SeasonColumnIsText(t.rows), t.rows[j].season.value)
  {
    PreprocessIsTransform(t);
    TransformRowsComeFromInput(t, EncodeServices(t.rows).value);
  }

  lemma TransformRowsComeFromInput(t: RawTable, codes: seq<int>)
    requires |codes| == |t.rows|
    ensures forall k :: 0 <= k < |Transform(t, codes)| ==>
      exists j :: 0 <= j < |t.rows| && DerivedFrom(t.rows[j], Transform(t, codes)[k])
                  && Transform(t, codes)[k].service == codes[j]
                  && Transform(t, codes)[k].season == SeasonValue(SeasonColumnIsText(t.rows), t.rows[j].season.value)
  {
    var samples := Samples(t.rows, codes);
    var sorted := StableSort(SampleKey, samples);
    var f := AddFeatures(sorted);
    var b := SeasonColumnIsText(t.rows);
    var out := Transform(t, codes);
    assert out == Finish(b, f);
    forall k | 0 <= k < |out|
      ensures exists j :: 0 <= j < |t.rows| && DerivedFrom(t.rows[j], out[k]) && out[k].service == codes[j]
                          && out[k].season == SeasonValue(b, t.rows[j].season.value)
    {
      FinishedRowOrigin(b, f, k);
      var i :| 0 <= i < |f| && Complete(f[i]) && out[k] == Emit(b, f[i]);
      SortedSampleOrigin(samples, i);
      var j :| 0 <= j < |samples| && samples[j] == sorted[i];
      EmitDerived(t, codes, j, b, f[i]);
    }
  }

  lemma EmitDerived(t: RawTable, codes: seq<int>, j: nat, b: bool, f: Featured)
    requires |codes| == |t.rows| && j < |t.rows|
    requires Complete(f) && f.sample == Samples(t.rows, codes)[j]
    ensures DerivedFrom(t.rows[j], Emit(b, f)) && Emit(b, f).service == codes[j]
    ensures Emit(b, f).season == SeasonValue(b, t.rows[j].season.value)
  {
  }

  /** Every finished row is emitted from some complete featured row. */
  lemma FinishedRowOrigin(b: bool, f: seq<Featured>, k: nat)
    requires k < |Finish(b, f)|
    ensures exists i :: 0 <= i < |f| && Complete(f[i]) && Finish(b, f)[k] == Emit(b, f[i])
  {
    var kept := Seqs.Filter(Complete, f);
    assert kept[k] in f;
    var i :| 0 <= i < |f| && f[i] == kept[k];
  }

  /** Every sorted sample is one of the input samples. */
  lemma SortedSampleOrigin(samples: seq<Sample>, i: nat)
    requires i < |StableSort(SampleKey, samples)|
    ensures exists j :: 0 <= j < |samples| && samples[j] == StableSort(SampleKey, samples)[i]
  {
    var sorted := StableSort(SampleKey, samples);
    assert sorted[i] in multiset(sorted);
    assert sorted[i] in multiset(samples);
  }

  /** Two tables that differ only in the contents of present season cells. */
  predicate DifferOnlyInSeason(t1: RawTable, t2: RawTable)
  {
    && t1.hasTimestamp == t2.hasTimestamp
    && |t1.rows| == |t2.rows|
    && forall i :: 0 <= i < |t1.rows| ==>
         && t1.rows[i].(season := None) == t2.rows[i].(season := None)
         && t1.rows[i].season.Some? == t2.rows[i].season.Some?
  }

  /** Forgets the contents, not the presence, of the season cell. */
  function EraseSeason(x: Sample): Sample
  {
    x.(season := if x.season.Some? then Some(SeasonNumber(0)) else None)
  }

  function EraseFeaturedSeason(f: Featured): Featured
  {
    f.(sample := EraseSeason(f.sample))
  }

  lemma AddFeaturesIgnoresSeason(s: seq<Sample>)
    ensures AddFeatures(Seqs.MapSeq(EraseSeason, s)) == Seqs.MapSeq(EraseFeaturedSeason, AddFeatures(s))
  {
    var e := Seqs.MapSeq(EraseSeason, s);
    assert ServerKeys(e) == ServerKeys(s);
    assert SeriesKeys(e) == SeriesKeys(s);
    forall i | 0 <= i < |s|
      ensures AddFeatures(e)[i] == EraseFeaturedSeason(AddFeatures(s)[i])
    {
      assert Gap(e, i) == Gap(s, i);
      assert Lag(e, i, 1) == Lag(s, i, 1) && Lag(e, i, 2) == Lag(s, i, 2) && Lag(e, i, 3) == Lag(s, i, 3);
    }
  }

  lemma SameServiceColumn(t1: RawTable, t2: RawTable)
    requires DifferOnlyInSeason(t1, t2)
    ensures EncodeServices(t1.rows) == EncodeServices(t2.rows)
  {
    forall i | 0 <= i < |t1.rows| ensures t1.rows[i].service == t2.rows[i].service {
      assert t1.rows[i].(season := None).service == t2.rows[i].(season := None).service;
    }
    assert ServiceColumnIsText(t1.rows) == ServiceColumnIsText(t2.rows) by {
      if ServiceColumnIsText(t1.rows) {
        var i :| 0 <= i < |t1.rows| && t1.rows[i].service.ServiceText?;
        assert t2.rows[i].service.ServiceText?;
      }
      if ServiceColumnIsText(t2.rows) {
        var i :| 0 <= i < |t2.rows| && t2.rows[i].service.ServiceText?;
        assert t1.rows[i].service.ServiceText?;
      }
    }
    assert MapServiceColumn(t1.rows) == MapServiceColumn(t2.rows);
  }

  lemma SamplesIgnoreSeason(t1: RawTable, t2: RawTable, codes: seq<int>)
    requires DifferOnlyInSeason(t1, t2) && |codes| == |t1.rows|
    ensures Seqs.MapSeq(EraseSeason, Samples(t1.rows, codes)) == Seqs.MapSeq(EraseSeason, Samples(t2.rows, codes))
  {
    var s1 := Samples(t1.rows, codes);
    var s2 := Samples(t2.rows, codes);
    forall i | 0 <= i < |s1| ensures EraseSeason(s1[i]) == EraseSeason(s2[i]) {
      assert t1.rows[i].(season := None) == t2.rows[i].(season := None);
    }
  }

  /** Sorting, the feature columns and the NaN filter see only the presence
      of a season cell, never its contents. */
  lemma KeptIgnoresSeason(s1: seq<Sample>, s2: seq<Sample>)
    requires Seqs.MapSeq(EraseSeason, s1) == Seqs.MapSeq(EraseSeason, s2)
    ensures Seqs.MapSeq(EraseFeaturedSeason, Seqs.Filter(Complete, AddFeatures(StableSort(SampleKey, s1))))
         == Seqs.MapSeq(EraseFeaturedSeason, Seqs.Filter(Complete, AddFeatures(StableSort(SampleKey, s2))))
  {
    var sorted1 := StableSort(SampleKey, s1);
    var sorted2 := StableSort(SampleKey, s2);
    SortMapCommute(SampleKey, EraseSeason, s1);
    SortMapCommute(SampleKey, EraseSeason, s2);
    AddFeaturesIgnoresSeason(sorted1);
    AddFeaturesIgnoresSeason(sorted2);
    Seqs.FilterMapCommute(Complete, EraseFeaturedSeason, AddFeatures(sorted1));
    Seqs.FilterMapCommute(Complete, EraseFeaturedSeason, AddFeatures(sorted2));
  }

  lemma FinishIgnoresSeason(b1: bool, b2: bool, f1: seq<Featured>, f2: seq<Featured>)
    requires Seqs.MapSeq(EraseFeaturedSeason, Seqs.Filter(Complete, f1))
          == Seqs.MapSeq(EraseFeaturedSeason, Seqs.Filter(Complete, f2))
    ensures |Finish(b1, f1)| == |Finish(b2, f2)|
    ensures forall k :: 0 <= k < |Finish(b1, f1)| ==>
      Finish(b1, f1)[k].(season := None) == Finish(b2, f2)[k].(season := None)
  {
    var kept1 := Seqs.Filter(Complete, f1);
    var kept2 := Seqs.Filter(Complete, f2);
    forall k | 0 <= k < |kept1|
      ensures Emit(b1, kept1[k]).(season := None) == Emit(b2, kept2[k]).(season := None)
    {
      assert EraseFeaturedSeason(kept1[k]) == EraseFeaturedSeason(kept2[k]);
    }
  }

  lemma TransformIgnoresSeason(t1: RawTable, t2: RawTable, codes: seq<int>)
    requires DifferOnlyInSeason(t1, t2) && |codes| == |t1.rows|
    ensures |Transform(t1, codes)| == |Transform(t2, codes)|
    ensures forall k :: 0 <= k < |Transform(t1, codes)| ==>
      Transform(t1, codes)[k].(season := None) == Transform(t2, codes)[k].(season := None)
  {
    var s1 := Samples(t1.rows, codes);
    var s2 := Samples(t2.rows, codes);
    SamplesIgnoreSeason(t1, t2, codes);
    KeptIgnoresSeason(s1, s2);
    FinishIgnoresSeason(SeasonColumnIsText(t1.rows), SeasonColumnIsText(t2.rows),
                        AddFeatures(StableSort(SampleKey, s1)), AddFeatures(StableSort(SampleKey, s2)));
  }

  /** The season mapping runs after the NaN filter, so what a season cell
      says never decides which rows survive, nor any other output column. */
  lemma SeasonDoesNotDecideSurvival(t1: RawTable, t2: RawTable)
    requires DifferOnlyInSeason(t1, t2)
    ensures PreprocessData(t1).Success? <==> PreprocessData(t2).Success?
    ensures PreprocessData(t1).Success? ==>
      && |PreprocessData(t1).value| == |PreprocessData(t2).value|
      && forall k :: 0 <= k < |PreprocessData(t1).value| ==>
           PreprocessData(t1).value[k].(season := None) == PreprocessData(t2).value[k].(season := None)
  {
    SameServiceColumn(t1, t2);
    if PreprocessData(t1).Success? {
      PreprocessIsTransform(t1);
      PreprocessIsTransform(t2);
      TransformIgnoresSeason(t1, t2, EncodeServices(t1.rows).value);
    }
  }
}
