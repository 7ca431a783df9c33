/** download_meteo.py: the request window check and the checks on the
    "daily" block of the Open-Meteo answer, around the one HTTP call. */
module DownloadMeteo {
  import opened Payloads
  import opened KeyOrder
  import Days

  /** `MeteoRequest`: dates are day ordinals. */
  datatype MeteoRequest = MeteoRequest(
    latitude: real,
    longitude: real,
    startDate: int,
    endDate: int,
    timezone: string)

  /** The shortest window, in days, that `validate` lets through. */
  const MinWindowDays: int := 10

  /** The two `ValueError`s of `validate`; `WindowTooShort` carries the day count it reports. */
  datatype WindowError = StartAfterEnd | WindowTooShort(days: int)

  /** `validate` returning normally (`Pass`) or raising (`Fail`). */
  datatype Check = Pass | Fail(error: WindowError)

  /** `MeteoRequest.validate`. The ordering check runs first; then the window,
      counted with both ends included, must hold at least `MinWindowDays` days. */
  function Validate(req: MeteoRequest): (r: Check)
    ensures r.Pass? <==> |Days.Covered(req.startDate, req.endDate)| >= MinWindowDays
    ensures r == Fail(StartAfterEnd) <==> req.startDate > req.endDate
    ensures r.Fail? && r.error.WindowTooShort? ==>
      r.error.days == |Days.Covered(req.startDate, req.endDate)| && 1 <= r.error.days < MinWindowDays
  {
    Days.CoveredCount(req.startDate, req.endDate);
    if req.startDate > req.endDate then Fail(StartAfterEnd)
    else
      var delta := req.endDate - req.startDate + 1;
      if delta < MinWindowDays then Fail(WindowTooShort(delta)) else Pass
  }

  /** The inclusive count at the boundary: ten days pass, nine do not. */
  lemma ValidateBoundary(req: MeteoRequest)
    ensures Validate(req.(endDate := req.startDate + 9)) == Pass
    ensures Validate(req.(endDate := req.startDate + 8)) == Fail(WindowTooShort(9))
  {
  }

  /** The query parameters sent to the forecast endpoint. */
  datatype MeteoQuery = MeteoQuery(
    latitude: real,
    longitude: real,
    daily: string,
    startDate: int,
    endDate: int,
    timezone: string)

  const DailyVariables: string := "precipitation_sum,temperature_2m_max,temperature_2m_min"

  function QueryFor(req: MeteoRequest): MeteoQuery
  {
    MeteoQuery(req.latitude, req.longitude, DailyVariables, req.startDate, req.endDate, req.timezone)
  }

  /** What the HTTP exchange hands back: a decoded body, or a failure
      (`raise_for_status`, a timeout, a connection error). */
  datatype Reply = Delivered(payload: Payload) | RequestFailed

  /** The four columns the data frame is built from, before `temp_media_c`. */
  datatype WeatherTable = WeatherTable(
    fecha: Column,
    precipitacionMm: Column,
    tempMaxC: Column,
    tempMinC: Column)

  datatype FetchError =
    | InvalidWindow(window: WindowError)
    | HttpFailure
    | DailyNotFound
    | MissingRequiredKeys(keys: seq<string>)

  const RequiredKeys: set<string> :=
    {"time", "precipitation_sum", "temperature_2m_max", "temperature_2m_min"}

  /** The required keys in Python's string order. */
  const SortedRequiredKeys: seq<string> :=
    ["precipitation_sum", "temperature_2m_max", "temperature_2m_min", "time"]

  lemma SortedRequiredKeysIsSorted()
    ensures IsSortedListOf(SortedRequiredKeys, RequiredKeys)
  {
    RequiredKeysInOrder();
    RequiredKeysListed();
  }

  lemma RequiredKeysInOrder()
    ensures StrictlySorted(SortedRequiredKeys)
  {
    PrecipitationBeforeMax();
    MaxBeforeMin();
    MinBeforeTime();
    SortedChain("precipitation_sum", "temperature_2m_max", "temperature_2m_min", "time");
  }

  lemma PrecipitationBeforeMax()
    ensures Below("precipitation_sum", "temperature_2m_max")
  {
    BelowAt("precipitation_sum", "temperature_2m_max", 0);
  }

  lemma MaxBeforeMin()
    ensures Below("temperature_2m_max", "temperature_2m_min")
  {
    BelowAt("temperature_2m_max", "temperature_2m_min", 16);
  }

  lemma MinBeforeTime()
    ensures Below("temperature_2m_min", "time")
  {
    BelowAt("temperature_2m_min", "time", 1);
  }

  lemma RequiredKeysListed()
    ensures Elements(SortedRequiredKeys) == RequiredKeys
  {
  }

  /** `sorted(required_keys - set(daily))`: the required keys the block lacks, in order. */
  function MissingKeys(daily: Daily): (keys: seq<string>)
    ensures IsSortedListOf(keys, RequiredKeys - daily.Keys)
    ensures keys == [] <==> RequiredKeys <= daily.Keys
  {
    SortedRequiredKeysIsSorted();
    WithoutSortedList(SortedRequiredKeys, RequiredKeys, daily.Keys);
    Without(SortedRequiredKeys, daily.Keys)
  }

  /** The checks on the decoded answer and the column copy of
      `fetch_daily_precip_and_temperature`. */
  function ReadDaily(payload: Payload): (r: Result<WeatherTable, FetchError>)
    ensures "daily" !in payload ==> r == Err(DailyNotFound)
    ensures "daily" in payload ==> (r.Ok? <==> RequiredKeys <= payload["daily"].Keys)
    ensures "daily" in payload && r.Err? ==>
      r.error.MissingRequiredKeys? && IsSortedListOf(r.error.keys, RequiredKeys - payload["daily"].Keys)
    ensures r.Ok? ==>
      var daily := payload["daily"];
      && r.value.fecha == daily["time"]
      && r.value.precipitacionMm == daily["precipitation_sum"]
      && r.value.tempMaxC == daily["temperature_2m_max"]
      && r.value.tempMinC == daily["temperature_2m_min"]
  {
    if "daily" !in payload then Err(DailyNotFound)
    else
      var daily := payload["daily"];
      var missing := MissingKeys(daily);
      if missing != [] then Err(MissingRequiredKeys(missing))
      else
        Ok(WeatherTable(
          daily["time"],
          daily["precipitation_sum"],
          daily["temperature_2m_max"],
          daily["temperature_2m_min"]))
  }

  /** What one call did: its outcome, and the queries it put on the network. */
  datatype Run = Run(outcome: Result<WeatherTable, FetchError>, sent: seq<MeteoQuery>)

  /** `fetch_daily_precip_and_temperature`, with the HTTP exchange as a parameter. */
  function Fetch(req: MeteoRequest, exchange: MeteoQuery -> Reply): (r: Run)
    ensures Validate(req).Fail? ==> r == Run(Err(InvalidWindow(Validate(req).error)), [])
    ensures Validate(req).Pass? ==> r.sent == [QueryFor(req)]
    ensures Validate(req).Pass? && exchange(QueryFor(req)).RequestFailed? ==> r.outcome == Err(HttpFailure)
    ensures Validate(req).Pass? && exchange(QueryFor(req)).Delivered? ==>
      r.outcome == ReadDaily(exchange(QueryFor(req)).payload)
    ensures r.outcome.Ok? ==>
      && |Days.Covered(req.startDate, req.endDate)| >= MinWindowDays
      && exchange(QueryFor(req)).Delivered?
      && r.outcome == ReadDaily(exchange(QueryFor(req)).payload)
  {
    match Validate(req)
    case Fail(e) => Run(Err(InvalidWindow(e)), [])
    case Pass =>
      var query := QueryFor(req);
      match exchange(query)
      case RequestFailed => Run(Err(HttpFailure), [query])
      case Delivered(payload) => Run(ReadDaily(payload), [query])
  }

  /** A window `validate` rejects never reaches the network, whatever the network would answer. */
  lemma InvalidWindowSendsNothing(req: MeteoRequest, a: MeteoQuery -> Reply, b: MeteoQuery -> Reply)
    requires Validate(req).Fail?
    ensures Fetch(req, a).sent == [] && Fetch(req, a) == Fetch(req, b)
  {
  }

  /** A table comes back only for a window of ten days or more whose answer
      carries a "daily" block with all four variables, copied column for column. */
  lemma FetchedTableComesFromAnswer(req: MeteoRequest, exchange: MeteoQuery -> Reply)
    requires Fetch(req, exchange).outcome.Ok?
    ensures req.startDate <= req.endDate && req.endDate - req.startDate + 1 >= MinWindowDays
    ensures exchange(QueryFor(req)).Delivered?
    ensures
      var payload := exchange(QueryFor(req)).payload;
      var table := Fetch(req, exchange).outcome.value;
      && "daily" in payload
      && RequiredKeys <= payload["daily"].Keys
      && table.fecha == payload["daily"]["time"]
      && table.precipitacionMm == payload["daily"]["precipitation_sum"]
      && table.tempMaxC == payload["daily"]["temperature_2m_max"]
      && table.tempMinC == payload["daily"]["temperature_2m_min"]
  {
  }
}
