/** scripts/download_forecast.py: the forecast window, the conversion of the
    "daily" block into CSV rows, and the name of the CSV file. */
module DownloadForecast {
  import opened Payloads
  import opened Calendar
  import Days

  /** The command line after argparse: `--start-date` parsed to a date,
      `--output-dir` as its path components. */
  datatype ForecastArgs = ForecastArgs(
    latitude: real,
    longitude: real,
    startDate: Date,
    outputDir: seq<string>,
    forecastDays: int)

  const MaxForecastDays: int := 16

  /** `choices=range(1, 17)`: the values argparse lets through for `--forecast-days`. */
  predicate AllowedForecastDays(n: int)
  {
    1 <= n <= MaxForecastDays
  }

  /** The query parameters; the two dates as day ordinals. */
  datatype ForecastQuery = ForecastQuery(
    latitude: real,
    longitude: real,
    startDate: int,
    endDate: int,
    timezone: string,
    daily: seq<string>)

  const ForecastVariables: seq<string> := ["precipitation_sum", "temperature_2m_max", "temperature_2m_min"]

  /** `build_request_params`: the window starts on the start date and ends
      `forecast_days - 1` days later, so it covers exactly `forecast_days` days. */
  function BuildRequestParams(args: ForecastArgs): (q: ForecastQuery)
    ensures q.startDate == Ordinal(args.startDate)
    ensures |Days.Covered(q.startDate, q.endDate)| == if args.forecastDays > 0 then args.forecastDays else 0
    ensures AllowedForecastDays(args.forecastDays) ==>
      q.startDate <= q.endDate <= q.startDate + (MaxForecastDays - 1)
    ensures args.forecastDays >= 1 && DaysLater(args.startDate, args.forecastDays - 1).Shifted? ==>
      q.endDate == Ordinal(DaysLater(args.startDate, args.forecastDays - 1).date)
    ensures q.latitude == args.latitude && q.longitude == args.longitude
    ensures q.timezone == "UTC" && q.daily == ForecastVariables
  {
    var start := Ordinal(args.startDate);
    var end := start + (args.forecastDays - 1);
    Days.CoveredCount(start, end);
    DaysLaterOrdinal(args.startDate, if args.forecastDays >= 1 then args.forecastDays - 1 else 0);
    ForecastQuery(args.latitude, args.longitude, start, end, "UTC", ForecastVariables)
  }

  /** One CSV row. */
  datatype ForecastRow = ForecastRow(
    date: Cell,
    precipitationMm: Cell,
    tempMaxC: Cell,
    tempMinC: Cell)

  /** Python's `zip` over the four arrays: stops at the shortest. */
  function Zip(dates: Column, precipitation: Column, tempMax: Column, tempMin: Column): seq<ForecastRow>
  {
    if dates == [] || precipitation == [] || tempMax == [] || tempMin == [] then []
    else
      [ForecastRow(dates[0], precipitation[0], tempMax[0], tempMin[0])]
        + Zip(dates[1..], precipitation[1..], tempMax[1..], tempMin[1..])
  }

  function Min(a: int, b: int): int { if a <= b then a else b }

  /** `zip` yields as many rows as the shortest array has elements, row `i`
      made of the `i`-th element of each array. */
  lemma {:induction false} ZipRows(dates: Column, precipitation: Column, tempMax: Column, tempMin: Column)
    ensures var rows := Zip(dates, precipitation, tempMax, tempMin);
      && |rows| == Min(Min(|dates|, |precipitation|), Min(|tempMax|, |tempMin|))
      && forall i :: 0 <= i < |rows| ==>
           rows[i] == ForecastRow(dates[i], precipitation[i], tempMax[i], tempMin[i])
  {
    if dates != [] && precipitation != [] && tempMax != [] && tempMin != [] {
      ZipRows(dates[1..], precipitation[1..], tempMax[1..], tempMin[1..]);
    }
  }

  /** The four columns of a list of rows: the inverse of `Zip`. */
  function Unzip(rows: seq<ForecastRow>): (Column, Column, Column, Column)
  {
    if rows == [] then ([], [], [], [])
    else
      var (d, p, x, n) := Unzip(rows[1..]);
      ([rows[0].date] + d, [rows[0].precipitationMm] + p, [rows[0].tempMaxC] + x, [rows[0].tempMinC] + n)
  }

  /** Zipping arrays of one length loses nothing: unzipping gives them back. */
  lemma {:induction false} UnzipZip(dates: Column, precipitation: Column, tempMax: Column, tempMin: Column)
    requires |dates| == |precipitation| == |tempMax| == |tempMin|
    ensures Unzip(Zip(dates, precipitation, tempMax, tempMin)) == (dates, precipitation, tempMax, tempMin)
  {
    if dates != [] {
      UnzipZip(dates[1..], precipitation[1..], tempMax[1..], tempMin[1..]);
      assert dates == [dates[0]] + dates[1..];
      assert precipitation == [precipitation[0]] + precipitation[1..];
      assert tempMax == [tempMax[0]] + tempMax[1..];
      assert tempMin == [tempMin[0]] + tempMin[1..];
    }
  }

  /** Every list of rows is the zip of its own columns. */
  lemma {:induction false} ZipUnzip(rows: seq<ForecastRow>)
    ensures var (d, p, x, n) := Unzip(rows);
      && |d| == |p| == |x| == |n| == |rows|
      && Zip(d, p, x, n) == rows
  {
    if rows != [] {
      ZipUnzip(rows[1..]);
      assert rows == [rows[0]] + rows[1..];
    }
  }

  /** The two `ValueError`s of `parse_daily_data`. */
  datatype ParseError = NoDailyBlock | UnequalLengths

  /** `payload.get("daily")` as `if not daily` sees it: absent and empty are the same. */
  function DailyOf(payload: Payload): Daily
  {
    if "daily" in payload then payload["daily"] else map[]
  }

  /** `parse_daily_data`. */
  method ParseDailyData(payload: Payload) returns (r: Result<seq<ForecastRow>, ParseError>)
    ensures r == Err(NoDailyBlock) <==> DailyOf(payload) == map[]
    ensures r == Err(UnequalLengths) <==>
      var daily := DailyOf(payload);
      && daily != map[]
      && !(|ColumnOr(daily, "time")| == |ColumnOr(daily, "precipitation_sum")|
           == |ColumnOr(daily, "temperature_2m_max")| == |ColumnOr(daily, "temperature_2m_min")|)
    ensures r.Ok? ==>
      var daily := DailyOf(payload);
      var dates := ColumnOr(daily, "time");
      && |r.value| == |dates|
      && forall i :: 0 <= i < |r.value| ==>
           r.value[i] == ForecastRow(dates[i], ColumnOr(daily, "precipitation_sum")[i],
                                     ColumnOr(daily, "temperature_2m_max")[i],
                                     ColumnOr(daily, "temperature_2m_min")[i])
    ensures r.Ok? ==>
      var daily := DailyOf(payload);
      r.value == Zip(ColumnOr(daily, "time"), ColumnOr(daily, "precipitation_sum"),
                     ColumnOr(daily, "temperature_2m_max"), ColumnOr(daily, "temperature_2m_min"))
    ensures
      var daily := DailyOf(payload);
      daily != map[] && "time" !in daily && "precipitation_sum" !in daily
        && "temperature_2m_max" !in daily && "temperature_2m_min" !in daily
      ==> r == Ok([])
  {
    var daily := DailyOf(payload);
    if daily == map[] {
      return Err(NoDailyBlock);
    }
    var dates := ColumnOr(daily, "time");
    var precipitation := ColumnOr(daily, "precipitation_sum");
    var tempMax := ColumnOr(daily, "temperature_2m_max");
    var tempMin := ColumnOr(daily, "temperature_2m_min");
    if !(|dates| == |precipitation| == |tempMax| == |tempMin|) {
      return Err(UnequalLengths);
    }
    var rows: seq<ForecastRow> := [];
    var i := 0;
    while i < |dates|
      invariant 0 <= i <= |dates|
      invariant |rows| == i
      invariant forall k :: 0 <= k < i ==>
        rows[k] == ForecastRow(dates[k], precipitation[k], tempMax[k], tempMin[k])
    {
      rows := rows + [ForecastRow(dates[i], precipitation[i], tempMax[i], tempMin[i])];
      i := i + 1;
    }
    ZipRows(dates, precipitation, tempMax, tempMin);
    return Ok(rows);
  }

  const FilePrefix: string := "forecast_"
  const FileSuffix: string := ".csv"

  /** The CSV path `main` writes to: `output_dir / f"forecast_{timestamp}.csv"`,
      where the timestamp is the start date as `%Y%m%d`. */
  function OutputFile(args: ForecastArgs): (path: seq<string>)
    ensures |path| == |args.outputDir| + 1 && path[..|args.outputDir|] == args.outputDir
    ensures var name := path[|path| - 1];
      && |name| == 21
      && name[..9] == FilePrefix
      && name[17..] == FileSuffix
      && AllDigits(name[9..17])
      && ReadStamp(name[9..17]) == args.startDate
  {
    StampRoundTrip(args.startDate);
    var name := FilePrefix + Stamp(args.startDate) + FileSuffix;
    assert name[9..17] == Stamp(args.startDate);
    args.outputDir + [name]
  }

  /** Forecasts that start on different dates go to different files. */
  lemma OutputFilesDistinct(a: ForecastArgs, b: ForecastArgs)
    requires a.outputDir == b.outputDir && a.startDate != b.startDate
    ensures OutputFile(a) != OutputFile(b)
  {
  }
}
