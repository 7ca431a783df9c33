# Open-Meteo download scripts, modelled in Dafny

The repository's two download scripts fetch daily precipitation and
temperature from the Open-Meteo API. The data is meant for the GR4J
rainfall–runoff model. This project models the logic around their HTTP calls
and proves its properties:

- `download_meteo.py` (module `DownloadMeteo`, pure functions):
  - `MeteoRequest.validate` rejects a date window whose start comes after its
    end, or whose inclusive length is under 10 days.
  - `fetch_daily_precip_and_temperature` validates before it sends anything.
    It then rejects an answer without a `daily` block, and one whose block
    lacks any of `time`, `precipitation_sum`, `temperature_2m_max` or
    `temperature_2m_min`. Its error lists those missing keys in sorted order.
    Otherwise it copies the four arrays column for column into the table.
    The HTTP exchange is a function parameter, and each run records the
    queries it sent. That is how "an invalid window never reaches the network"
    becomes a statement about the model. `Validate` is a function of an
    immutable request value, so latitude, longitude, dates and timezone are
    unchanged after it by construction.
- `scripts/download_forecast.py` (module `DownloadForecast`):
  - `build_request_params` derives the end date from the start date and
    `--forecast-days`, which argparse restricts to 1..16.
  - `parse_daily_data` is a method with a loop. It rejects a missing or empty
    `daily` block and reads a missing array as empty. It rejects arrays of
    different lengths, and otherwise zips the four arrays into rows, in order.
  - The CSV file name `forecast_YYYYMMDD.csv` inside the output directory.

Supporting modules:

- `Payloads`: the decoded JSON answer, as a map from member names to objects
  of arrays. Cells are opaque dates, numbers or nulls.
- `Days`: day ordinals and inclusive windows.
- `KeyOrder`: Python's code-point order on strings, and what `sorted` returns
  for a set of strings.
- `Calendar`: `datetime.date`, `toordinal` and `strftime("%Y%m%d")`.

Dates that the scripts do arithmetic on are integer day ordinals, as
`date.toordinal` gives them. `Calendar.OrdinalNextDay` shows that moving to
the next calendar day adds one to the ordinal, and `Calendar.DaysLaterOrdinal`
that `start + timedelta(days=k)`, when it does not pass 9999-12-31, is ordinal
addition.

The rainfall–runoff simulator, its skill score and its calibration are not
part of this model: the simulator in `GR4J Python p3.py` is not modelled.

## Model

| member | source | states |
|---|---|---|
| `DownloadMeteo.Validate` | download_meteo.py:46-62 | accepts exactly when the inclusive window holds at least 10 days; raises "start after end" exactly when start > end, since that check runs first; otherwise the short-window error reports the window's day count, between 1 and 9 |
| `DownloadMeteo.ValidateBoundary` | download_meteo.py:56-58 | the count includes both ends: end = start + 9 passes, end = start + 8 fails, reporting 9 days |
| `Days.CoveredCount` | download_meteo.py:57 | the inclusive window from start to end holds end − start + 1 days, and none when reversed |
| `DownloadMeteo.SortedRequiredKeysIsSorted` | download_meteo.py:101-106 | the four required keys, listed in code-point order, are exactly `sorted(required_keys)` |
| `KeyOrder.SortedListUnique` | download_meteo.py:106 | a set of strings has only one strictly sorted list, so the model's key list is the one `sorted` returns |
| `KeyOrder.Without` | download_meteo.py:103 | removing keys from a list leaves exactly the remaining elements and keeps a sorted list sorted |
| `KeyOrder.WithoutSortedList` | download_meteo.py:103-106 | dropping the present keys from the sorted required keys gives the sorted list of the missing ones; it is empty exactly when none is missing |
| `DownloadMeteo.MissingKeys` | download_meteo.py:101-107 | the keys reported are `sorted(required_keys - set(daily))`, and the list is empty exactly when `required_keys.issubset(daily)` |
| `DownloadMeteo.ReadDaily` | download_meteo.py:95-116 | no `daily` member gives "daily not found"; otherwise the answer is accepted exactly when all four keys are present, the error names exactly the missing keys in sorted order, and on success `Fecha`, `precipitacion_mm`, `temp_max_c`, `temp_min_c` are the `time`, `precipitation_sum`, `temperature_2m_max`, `temperature_2m_min` arrays |
| `DownloadMeteo.Fetch` | download_meteo.py:80-116 | a window `validate` rejects gives its error and sends nothing; a valid one sends exactly its own query once; then a failed request gives the HTTP failure, and a delivered answer gives exactly what `ReadDaily` makes of it (daily not found, the sorted missing keys, or the table); a table comes back only for a window of at least 10 days |
| `DownloadMeteo.InvalidWindowSendsNothing` | download_meteo.py:80-91 | for a rejected window, no query is sent and the result is the same whatever the network would answer |
| `DownloadMeteo.FetchedTableComesFromAnswer` | download_meteo.py:80-116 | a successful fetch implies start ≤ end, a window of at least 10 days, a delivered answer with a `daily` block holding all four keys, and the table's columns equal to those arrays |
| `DownloadForecast.BuildRequestParams` | scripts/download_forecast.py:53-66 | the window starts at the start date and covers exactly `forecast_days` days (none if not positive); the end is the ordinal of the date `forecast_days − 1` days after the start whenever that date exists; for 1..16 days, start ≤ end ≤ start + 15; location copied, timezone "UTC", the three daily variables |
| `Calendar.OrdinalNextDay` | scripts/download_forecast.py:54 | the day after a date (before 9999-12-31) has the next ordinal |
| `Calendar.DaysLaterOrdinal` | scripts/download_forecast.py:54 | the date k days later, when it exists, has the ordinal plus k |
| `DownloadForecast.ParseDailyData` | scripts/download_forecast.py:75-98 | fails with "no daily block" exactly when `daily` is absent or empty; fails with "unequal lengths" exactly when the block is non-empty and the four arrays (missing ones read as empty) differ in length; on success returns one row per date, row i made of the i-th element of each array, which is Python's `zip` of the four; a non-empty block without any of the four arrays gives no rows |
| `DownloadForecast.ZipRows` | scripts/download_forecast.py:89 | `zip` yields as many rows as the shortest array has elements, row i made of the i-th elements |
| `DownloadForecast.UnzipZip` | scripts/download_forecast.py:88-98 | rows built from arrays of one length give those arrays back column by column |
| `DownloadForecast.ZipUnzip` | scripts/download_forecast.py:88-98 | every list of rows is the zip of its own columns |
| `Calendar.StampRoundTrip` | scripts/download_forecast.py:118 | `%Y%m%d` gives eight digits that read back as the same year, month and day |
| `DownloadForecast.OutputFile` | scripts/download_forecast.py:118-119 | the path is the output directory plus one 21-character name: `forecast_`, eight digits naming the start date, then `.csv` |
| `DownloadForecast.OutputFilesDistinct` | scripts/download_forecast.py:118-119 | forecasts that start on different dates go to different files in the same directory |

## Left out

- HTTP (`requests.get`, `raise_for_status`, `.json()`). In `download_meteo.py` the exchange is a function parameter whose answer is a decoded body or a failure. `fetch_forecast` in `scripts/download_forecast.py` is not modelled; only its query and the parsing of its answer are.
- pandas. The `Fecha` column's `to_datetime`/`tz_convert` is not modelled: dates are copied as the API sent them. The DataFrame constructor's own checks are not modelled either, such as its rejection of columns of different lengths.
- `temp_media_c`, the mean of the two temperatures: floating-point arithmetic through pandas, which skips missing values.
- `to_excel`, `save_csv` and the directory creation: file I/O.
- argparse, `date.fromisoformat`/`strptime` and `print`. Only the 1..16 choice for `--forecast-days` is kept, as `AllowedForecastDays`.
- `isoformat()` of the query dates: queries carry day ordinals.
- `OverflowError` when the forecast window passes 9999-12-31: `Calendar.DaysLater` names that case, but `BuildRequestParams` still returns an end ordinal for it instead of failing.
- JSON shapes other than objects of arrays: a `daily` member that is null or not an object, an array that is null. The model cannot represent them.
- Exception message wording: each error is a constructor carrying what its message reports (the day count, the sorted missing keys). The Spanish text and the `", ".join` are not modelled.
- `Calendar.Stamp`: models `%Y` as four zero-padded digits. For years below 1000 that is platform-dependent in Python.
- Numbers in the arrays are never computed with. They are opaque cells, so float semantics play no part.
- The GR4J simulator, its Nash–Sutcliffe score and its differential-evolution calibration: they are not part of the download scripts this project models.
