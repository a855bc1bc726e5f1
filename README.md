# Forecast proxy

The service is a small FastAPI proxy in front of the api.met.no
location-forecast API. A client asks for a forecast at a latitude and
longitude, or for Belgrade. The proxy then:

- fetches the provider's timeseries once;
- turns each entry into a `DayTempForecast`, an aware timestamp and a temperature;
- keeps the entries at which a Europe/Belgrade wall clock shows hour 14;
- caches the list for 60 seconds per coordinate pair;
- returns the list from its two handlers as JSON. The module's `custom_json_encoder` writes a record's day in the record's own offset.

This project models that core in Dafny and proves what it promises.

| file | module | models |
|---|---|---|
| `results.dfy` | `Results` | the exception kinds raised; a result type; a map over a list in which each call may raise |
| `json.dfy` | `Json` | the decoded response body; subscripting a value with a string key; iterating over a value |
| `calendar.dfy` | `Calendar` | `datetime`'s proleptic Gregorian day arithmetic, and the last Sunday of a month |
| `belgrade.dfy` | `Belgrade` | the Europe/Belgrade offset under the EU summer-time rule (Directive 2000/84/EC, Articles 1 and 2): UTC+1, or UTC+2 from 01:00 UTC on the last Sunday of March until 01:00 UTC on the last Sunday of October |
| `timestamps.dfy` | `Timestamps` | `strptime` with `%Y-%m-%dT%H:%M:%S%z`; `str(timestamp.date())`; a writer used for the round trip |
| `forecast.dfy` | `Forecast` | `Coordinates`, `DayTempForecast`, `format_timeseries_to_day_temp_forecast`, `filter_day_temp_forecast`, the filtered list of the fetch, and the encoder's `day` |
| `cache.dfy` | `ForecastCaching` | `get_forecasts` behind `TTLCache(maxsize=1024, ttl=60)` keyed by the coordinates, as a class with the entries as a field; the HTTP client as an injected class |
| `endpoints.dfy` | `Endpoints` | `check_latitude`, `check_longitude`, and the cache key and response of each of the two handlers |
| `forecast_cases.dfy` | `ForecastCases` | the concrete cases the repository's tests pin down |

How some of the source's behaviour is represented:

- **Timestamps.** A timestamp is the instant in seconds since the epoch plus
  the UTC offset it was written in. Equality of two aware datetimes in Python
  compares instants. The record `DayTempForecast` keeps both fields, because
  the encoder reads the offset.
- **The clock.** The cache's clock is two parameters. `now` is the clock read
  at lookup, and `later` the clock read at the store after the request, as
  the decorator is assumed to work (see "## Left out"). The
  HTTP client is an oracle `respond(coordinates, index)`, and `requests`
  records every request sent.
- **Laziness.** `format_timeseries_to_day_temp_forecast` is a generator, and
  `filter` pulls from it. An entry is parsed, converted to Belgrade time and
  tested before the next entry is parsed. So a parse error at entry *k*, or an
  `astimezone` overflow, raises exactly when every earlier entry succeeded.
  `Forecast.SelectSlices` follows that order. `Forecast.SelectSlicesIsFilter`
  proves it equals "parse everything, then filter" whenever either succeeds,
  and that both fail together.
- **Malformed payloads are not cached.** A payload that decodes but lacks a
  field is parsed at lines 97-99 of `app/forecast.py`, outside the `try`. The
  exception (`KeyError`, `TypeError`, `ValueError`, a pydantic
  `ValidationError` or an `OverflowError`) therefore propagates out of
  `get_forecasts`, and the cache is assumed to store nothing. The test at
  `tests/test_forecast.py:202-209` expects `[]` instead. The model follows
  the code: `ForecastCases.GeometryOnlyRaises` shows the `KeyError` for that
  test's payload. The test at `tests/test_forecast.py:212-220` sends the same
  payload together with an exception that its mock client never raises
  (`tests/test_forecast.py:185-186`), so the code as written raises the same
  `KeyError` there too, where `[]` is expected. A failed request, or an error
  status, yields `[]`, and that
  empty list is cached like any other result.
- **Parsing in the tests.** The tests at `tests/test_forecast.py:17-34` read
  their texts with `datetime.fromisoformat`, not `strptime`. Every text they
  use reads the same under both, and the model reads them with `strptime`'s
  rules (`Timestamps.ParseTime`).

## Model

| member | source | states |
|---|---|---|
| `Results.MapResults` | app/forecast.py:59-65 | draining a generator whose steps may raise: it succeeds exactly when every step does, and then gives one value per element in order; otherwise it raises the exception of the first step that fails, all earlier steps having succeeded |
| `Json.Subscript` | app/forecast.py:59-64 | `j[key]`: succeeds exactly on a dictionary that has the key, giving its value; KeyError for a missing key, TypeError for a non-dictionary |
| `Json.SlicesOf` | app/forecast.py:59 | `for x in j`, each then subscripted with `"time"`: a list yields its items; only an empty dictionary or an empty string gets through otherwise, yielding nothing |
| `Calendar.MonthOfDay` | app/forecast.py:61 | the month in which a day of the year falls: the day lies between that month's first and last days |
| `Calendar.YearAndDayInYear` | app/forecast.py:39 | the 400-, 100-, 4- and 1-year cycles give a year and a day within it whose ordinal is the given one |
| `Calendar.DateOfDayNumber` | app/forecast.py:39 | `date()` of a day count: a valid date whose day number is the given one |
| `Calendar.DateOfDayNumberOfDate` | app/forecast.py:39 | converting a valid date to a day number and back gives the date |
| `Calendar.DayNumberInjective` | app/forecast.py:61 | two valid dates with the same day number are the same date |
| `Calendar.DaysBeforeYearMonotone` | app/forecast.py:61 | years are counted in order: a year's days end before any later year starts |
| `Calendar.LastSunday` | app/forecast.py:47-48 | a valid date in the given month that is a Sunday, less than seven days before the month's end |
| `Belgrade.IsSummerDay` | app/forecast.py:47-48 | a day is a summer-time day exactly when 01:00 UTC that day lies in its year's summer-time period, from 01:00 UTC on the last Sunday of March to 01:00 UTC on the last Sunday of October |
| `Belgrade.UtcOffset` | app/forecast.py:47-48 | the Belgrade offset is one hour or two hours east of UTC |
| `Belgrade.LocalHour` | app/forecast.py:48-49 | the Belgrade wall-clock hour is between 0 and 23 |
| `Belgrade.OffsetOfDay` | app/forecast.py:47-48 | from 01:00 UTC on, a whole UTC day has the summer offset if it falls between the last Sundays of March (inclusive) and October (exclusive); otherwise it has the standard offset |
| `Belgrade.LocalHourFourteenWindow` | app/forecast.py:47-49 | the Belgrade clock shows hour 14 exactly during 12:00-13:00 UTC on a summer day and 13:00-14:00 UTC otherwise; minutes and seconds do not matter |
| `Belgrade.LocalHourFourteenOnTheHour` | app/forecast.py:47-49 | of the whole UTC hours of a day, only 12:00 on a summer day and only 13:00 on any other day show hour 14 |
| `Timestamps.ParseOffset` | app/forecast.py:60-61 | `%z`: an accepted offset is a whole number of minutes strictly within one day; any refusal is ValueError |
| `Timestamps.ParseTime` | app/forecast.py:60-61 | `strptime` with the provider's format: every failure is ValueError |
| `Timestamps.ParseOfLayout` | app/forecast.py:60-61 | text of the fixed layout parses exactly when the offset parses and the fields are in range (year 1..9999, an existing day, hour 0..23, minute and second 0..59); the instant is then the written wall-clock time less the written offset, with that offset kept |
| `Timestamps.ParseOfValidLayout` | app/forecast.py:60-61 | in-range fields with an offset that parses read as their wall-clock time less the offset |
| `Timestamps.ParsedTimeFields` | app/forecast.py:61 | a parsed timestamp is a valid datetime; in its own offset its date and time of day are exactly the ones written |
| `Timestamps.ZuluIsZeroOffset` | app/forecast.py:60-61 | `Z` and `+00:00` after the same date and time parse alike |
| `Timestamps.OffsetRoundTrip` | app/forecast.py:60-61 | an offset written as `+HH:MM`/`-HH:MM` parses back to itself |
| `Timestamps.Layout` | app/forecast.py:60 | text written in the layout has the layout's shape, and its fields read back as the values written |
| `Timestamps.ParseFormatRoundTrip` | app/forecast.py:60-61 | writing a valid timestamp in the provider's layout and parsing it back gives the same instant and the same offset |
| `Timestamps.IsoDate` | app/forecast.py:39 | `str(date)` is `YYYY-MM-DD`: ten characters, dashes at positions 4 and 7, digits elsewhere, and the fields read back as the date's year, month and day |
| `Timestamps.DatePart` | app/forecast.py:39 | the date fields of a well-shaped text, written as `str` writes a date, are the text's first ten characters |
| `Timestamps.DayOfParsedTime` | app/forecast.py:39 | for a parsed text, `str(timestamp.date())` is the text's date part, whatever the offset |
| `Forecast.CoordinatesIdentity` | app/forecast.py:21-26 | two keys are equal exactly when their latitudes and longitudes are equal, and equal keys hash alike |
| `Forecast.AsFloat` | app/forecast.py:18 | the `float` field keeps a number as it is; numbers and booleans are accepted, everything else is refused |
| `Forecast.ParseSlice` | app/forecast.py:61-64 | an entry yields a record exactly when its `time` is a string that parses and its temperature path leads to a number or boolean; the record's timestamp and temperature are what those give |
| `Forecast.FilterDayTempForecastWindow` | app/forecast.py:43-49 | `filter_day_temp_forecast` keeps a record exactly when its instant lies in 12:00-12:59 UTC on a summer-time day or in 13:00-13:59 UTC on any other day |
| `Forecast.FormatTimeseries` | app/forecast.py:52-65 | a payload without a `properties`/`timeseries` path raises that lookup's exception; otherwise it is the normaliser over the entries: records exactly when every entry parses, one per entry in order, each the entry's own parse, or else the exception of the first entry that fails |
| `Forecast.ParseSlices` | app/forecast.py:59-65 | one record per entry, in entry order, each the entry's own parse; or the exception of the first entry that fails |
| `Forecast.DailySlices` | app/forecast.py:97-98 | `filter`: every kept record is a daily slice; each daily slice is kept exactly as often as it occurs; the order is kept |
| `Forecast.SelectSlices` | app/forecast.py:97-99 | the lazy filter over the entries: when it completes, it keeps no more records than there are entries, and each kept record is a daily slice |
| `Forecast.SelectDailyPoints` | app/forecast.py:97-99 | the list built from a payload: a payload without a timeseries raises that lookup's exception; otherwise each kept record is a daily slice, at most one per entry |
| `Forecast.SelectSlicesIsFilter` | app/forecast.py:97-99 | pulling the generator through the lazy filter succeeds exactly when every entry parses and converts, and then gives the filter of all records |
| `Forecast.SelectDailyPointsIsFilter` | app/forecast.py:97-99 | the same for a whole payload: its list is the filter of `format_timeseries_to_day_temp_forecast(data)` |
| `Forecast.EncodeDay` | app/forecast.py:38-39 | the encoder's `day` is a `YYYY-MM-DD` text whose fields are the date of the record in its own offset |
| `Forecast.EncodedDayOfParsedSlice` | app/forecast.py:38-39 | the encoder's `day` for a parsed record is the date part of its `time` text: the date in the record's own offset |
| `ForecastCaching.HttpClient.Get` | app/forecast.py:71-77 | one request: it is recorded, and the reply is the oracle's answer for that key and request number |
| `ForecastCaching.Fetched` | app/forecast.py:91-100 | a failed request gives `[]`; a body gives its daily slices exactly when it parses and converts; every record returned is a daily slice |
| `ForecastCaching.Live` | app/forecast.py:82 | the entries alive at `now` are exactly those whose expiry lies ahead, unchanged |
| `ForecastCaching.ForecastCache.constructor` | app/forecast.py:82 | the cache starts empty |
| `ForecastCaching.ForecastCache.Store` | app/forecast.py:81-84 | the result is stored until `now + 60`; every other remaining entry was alive and has not changed; all live entries stay unless the cache is full of live entries other than this key; at most one live entry is evicted; at most 1024 entries |
| `ForecastCaching.ForecastCache.GetForecasts` | app/forecast.py:80-100 | a live entry is returned with no request and no change; otherwise exactly one request for this key is sent and its result returned; a success (including the `[]` of a failed request) leaves the cache as Store does with the store time (stored until that time plus 60, other live entries kept unchanged, at most one evicted and only from a full cache); a raised exception changes nothing |
| `Endpoints.CheckLongitude` | app/main.py:17-20 | the value unchanged exactly when it is in -180..180 inclusive, ValueError otherwise |
| `Endpoints.CheckLatitude` | app/main.py:23-26 | the value unchanged exactly when it is in -90..90 inclusive, ValueError otherwise |
| `Endpoints.QueryKey` | app/main.py:57-74 | a query gives a key exactly when both validators accept; the key then holds the validated values; otherwise the request fails validation |
| `Endpoints.QueryKeyIsQuery` | app/main.py:74 | the key is the pair of query values itself exactly when both are in range; two valid queries share a cache entry exactly when they ask for the same point |
| `Endpoints.BelgradeKey` | app/main.py:101 | the Belgrade key is (44.81, 20.46), the key of the query with those values |
| `Endpoints.Render` | app/main.py:76 | a result is answered with status 200 and the list; a raised exception with status 500 |
| `Endpoints.AppGetForecast` | app/main.py:57-76 | an invalid query is answered 422 with no request and no cache change; a valid one with the cached fetch for `Coordinates(lat, lon)`: a hit answers 200 with the stored list and changes nothing; a miss sends one request, answers its rendered result, and on 200 leaves the cache as Store does (other live entries kept unless the cache was full, at most one evicted), on 500 unchanged |
| `Endpoints.AppGetForecastBelgrade` | app/main.py:96-102 | the same cached fetch and the same cache state, for the fixed Belgrade key |
| `Endpoints.RepeatedRequest` | app/forecast.py:81-84 | a second call for the same key is answered from the cache with the same result, and no request, exactly when it comes less than 60 seconds after a first call that did not raise; otherwise it sends a second request; a failed first request yields a cached `[]` |
| `Endpoints.OtherKeyRequest` | app/forecast.py:81-84 | a fetch for one key leaves the live entry of another key in place and unchanged, while the cache is not full of live entries |
| `Endpoints.OtherKeyAfterExpiry` | app/forecast.py:81-84 | a fetch for one key does not bring another key's dead entry back to life |
| `Endpoints.FreshRequest` | app/forecast.py:81-84 | on an empty cache: one request, and the cache then holds that key alone, until 60 seconds on, or stays empty when the fetch raised |
| `Endpoints.InterleavedRequests` | app/forecast.py:81-84 | a request for `a`, then one for `b` on a fresh cache: both go to the provider; afterwards `a`'s entry is the first result, alive until 60 seconds after the first request, when that came less than 60 seconds before the second and did not raise; otherwise no lookup for `a` from the second request on is a hit |
| `ForecastCases.DayNumbersOctober2025` | tests/test_forecast.py:20-29 | 2025-10-25 and 2025-10-26 are days 20386 and 20387 |
| `ForecastCases.LastSundaysOf2025` | app/forecast.py:47-48 | the last Sundays of March and October 2025 are 30 March and 26 October |
| `ForecastCases.SummerDaysOctober2025` | app/forecast.py:47-48 | 25 October 2025 is a summer day in Belgrade, 26 October is not |
| `ForecastCases.HourFourteenOctober2025` | tests/test_forecast.py:20-29 | on 25 October 2025 only 12:00 UTC, and on 26 October only 13:00 UTC, of the whole hours shows hour 14 in Belgrade |
| `ForecastCases.ParseOct25At1200` | tests/test_forecast.py:21 | `2025-10-25T12:00:00+00:00` reads as 12:00 UTC that day, offset 0 |
| `ForecastCases.ParseOct25At1100West` | tests/test_forecast.py:22 | `2025-10-25T11:00:00-01:00` reads as 12:00 UTC that day, offset -1 h |
| `ForecastCases.ParseOct25At1300` | tests/test_forecast.py:24 | `2025-10-25T13:00:00+00:00` reads as 13:00 UTC that day |
| `ForecastCases.ParseOct26At1200` | tests/test_forecast.py:27 | `2025-10-26T12:00:00+00:00` reads as 12:00 UTC that day |
| `ForecastCases.ParseOct26At1300` | tests/test_forecast.py:28 | `2025-10-26T13:00:00+00:00` reads as 13:00 UTC that day |
| `ForecastCases.ParseOct26At1400` | tests/test_forecast.py:29 | `2025-10-26T14:00:00+00:00` reads as 14:00 UTC that day |
| `ForecastCases.ParseOct25At1200Z` | tests/test_forecast.py:78 | `2025-10-25T12:00:00Z` reads as 12:00 UTC that day |
| `ForecastCases.ParseOct26At0900Z` | tests/test_forecast.py:105 | `2025-10-26T09:00:00Z` reads as 09:00 UTC that day |
| `ForecastCases.ParseOct26At1000Z` | tests/test_forecast.py:132 | `2025-10-26T10:00:00Z` reads as 10:00 UTC that day |
| `ForecastCases.ParseOct26At1100Z` | tests/test_forecast.py:159 | `2025-10-26T11:00:00Z` reads as 11:00 UTC that day |
| `ForecastCases.ParseOct25At2330` | app/forecast.py:39 | `2025-10-25T23:30:00+00:00` reads as 23:30 UTC that day |
| `ForecastCases.DailySliceBeforeTransition` | tests/test_forecast.py:20-25 | on the last summer day, 12:00 UTC is the daily slice whether written at +00:00 or as 11:00 at -01:00; 13:00 UTC is not |
| `ForecastCases.DailySliceOnTransitionDay` | tests/test_forecast.py:26-29 | on the day winter time begins, 13:00 UTC is the daily slice; 12:00 and 14:00 UTC are not |
| `Forecast.FilterDependsOnInstant` | app/forecast.py:47-49 | two records at the same instant are kept or dropped alike, whatever offsets they were written in and whatever their temperatures |
| `ForecastCases.SameInstantInTwoOffsets` | tests/test_forecast.py:21-22 | `+00:00` and `11:00-01:00` name the same instant and keep their own offsets |
| `ForecastCases.PositiveTimeseries` | tests/test_forecast.py:37-164 | the abridged sample payload's timeseries is its four entries in order |
| `ForecastCases.ParseProviderSlice` | app/forecast.py:61-64 | a provider entry whose time parses, for an instant between 1970 and 2096, yields that timestamp and its air temperature and converts to Belgrade time |
| `ForecastCases.PositiveEntriesParse` | tests/test_forecast.py:52-160 | the four sample entries parse to 2025-10-25 12:00Z (28.4) and 2025-10-26 09:00Z, 10:00Z and 11:00Z (29.7, 30.4, 30.9) |
| `ForecastCases.PositiveRecordsFilter` | tests/test_forecast.py:52-160 | only the first sample record is a daily slice |
| `ForecastCases.SelectOne` | app/forecast.py:97-99 | one step of the lazy filter over an entry that parses and converts: kept in front if it is a daily slice, dropped otherwise |
| `ForecastCases.PositiveResponseDailyPoints` | tests/test_forecast.py:189-199 | the sample payload yields exactly `[(2025-10-25T12:00Z, 28.4)]` |
| `ForecastCases.GeometryOnlyRaises` | tests/test_forecast.py:202-209 | a payload with only `geometry` raises KeyError on `properties`, as the code is written |
| `ForecastCases.EncodedDayIsDatePart` | app/forecast.py:38-39 | the day written for a record parsed from a text is the text's date part |
| `ForecastCases.LateEveningEncodedDay` | app/forecast.py:38-39 | `2025-10-25T23:30:00+00:00` is written with day `2025-10-25` |
| `ForecastCases.LateEveningBelgradeDay` | app/forecast.py:38-39 | at that instant Belgrade is at UTC+2 and already on 26 October, so the day is not taken in Belgrade time |

## Left out

- The network call of `request_external_forecast` (app/forecast.py:68-77), its `await` and `httpx` itself: any exception from the request, from `raise_for_status` or from decoding the body is one `Failed` reply of the injected client.
- The URL's `{:.2f}` formatting (app/forecast.py:72): two keys that differ only beyond the second decimal are still two cache entries, but ask for the same URL; float formatting is not modelled.
- The `{obj.temp:.1f}` rendering of the temperature (app/forecast.py:39), `ORJSONIndentedResponse` and orjson (app/forecast.py:103-109): float formatting and a foreign serialiser. Only the `day` part of the encoder is modelled.
- The encoder's `TypeError` for objects other than `DayTempForecast` (app/forecast.py:40): orjson's handling of such fallbacks is part of the serialiser.
- Floating point: coordinates and temperatures are reals; `float` rounding and NaN are not modelled.
- The logging call (app/forecast.py:94).
- The order in which cachetools evicts a live entry from a full cache, concurrency between requests, and single-flight behaviour: the victim is any one live entry other than the key being stored.
- Forecast.SelectSlices, Forecast.SelectDailyPoints: their own contracts give only bounds and the daily-slice property; the exact list is stated by `Forecast.SelectSlicesIsFilter` and `Forecast.SelectDailyPointsIsFilter`.
- ForecastCaching.ForecastCache.GetForecasts: `cachetools_async.cached` (app/forecast.py:81-84) is not part of this model. Two behaviours of it are assumptions: the entry is written after the request returns, with the clock read then (`later`); and a raised exception stores nothing. A decorator that caches the pending call at lookup would store at `now`, which is the case `later == now` that the contracts also cover. On a full cache it would also evict a live entry even when the fetch then raises, and the model does not capture that.
- The JSON the endpoints serve: the handlers declare no `response_model` (app/main.py:57-76, 96-102). So FastAPI's `jsonable_encoder` turns each record into `timestamp` and `temp` before `ORJSONIndentedResponse` renders it, and `custom_json_encoder` is not reached on that path. The tests at tests/test_app_forcecast.py:9 expect exactly those fields. The encoder's `day` (`Forecast.EncodeDay`) is modelled as the behaviour of that function, not of the endpoints.
- ForecastCaching.ForecastCache.Store: the victim is not pinned to the least recently used entry, because eviction order is left out.
- The clocks: `time.monotonic()` is the `now` and `later` parameters.
- FastAPI wiring: `lifespan`, the route decorators and their documentation, `request.state` and `uvicorn.run` (app/main.py:29-37, 40-56, 79-95, 105-106). The 422 and 500 answers stand for FastAPI's handling of a failed validation and of a raised exception.
- pydantic's coercion of numeric strings into `float` fields, and pydantic's error messages; exception messages in general.
- The names `get_forecast_cached` (imported by app/main.py:11) and `get_forecast` (imported by the tests) do not exist in app/forecast.py; the handlers are modelled as calling `get_forecasts`.
- Other inputs `strptime` accepts: fields written with one digit (`%d`, `%m`, `%H`, `%M`, `%S`), a day of the month written as a space and one digit (the `" [1-9]"` alternative, which only `%d` has), `%z` with seconds or microseconds, and fields written with non-ASCII Unicode decimal digits (fullwidth digits, say), which Python's `\d` and `int()` accept. The layout is read in its fixed two- and four-digit form with ASCII digits only.
- `datetime.fromisoformat`, which the tests use, is not modelled apart from `strptime`; on the texts the tests use the two agree.
- Historical and future changes of the time-zone database: the EU rule is fixed for every year, and timestamps far in the past or the future use it too.
