/** The forecast normaliser of the proxy: the two record types, the
    pure functions that turn a provider payload into daily records, the
    daily-slice predicate and the day written for each record. */
module Forecast {
  import opened Results
  import opened Json
  import opened Calendar
  import opened Timestamps
  import Belgrade

  /** A cache key. As a datatype its equality is that of its two fields. */
  datatype Coordinates = Coordinates(lat: real, lon: real)

  /** The fixed key of the Belgrade endpoint. */
  const BelgradeCoordinates := Coordinates(44.81, 20.46)

  /** `Coordinates.__hash__`: the hash of the pair `(lat, lon)`. */
  function HashKey(c: Coordinates): (real, real) {
    (c.lat, c.lon)
  }

  /** Two keys are the same cache key exactly when their latitudes and their
      longitudes are equal, and equal keys hash alike. */
  lemma CoordinatesIdentity(a: Coordinates, b: Coordinates)
    ensures a == b <==> a.lat == b.lat && a.lon == b.lon
    ensures a == b ==> HashKey(a) == HashKey(b)
  {
  }

  /** One forecast record: an aware timestamp and the air temperature, in
      the provider's unit. */
  datatype DayTempForecast = DayTempForecast(timestamp: Timestamp, temp: real)

  // ------------------------------------------------------------ normaliser

  /** The path to the temperature inside one timeseries entry. */
  const TemperaturePath := ["data", "instant", "details", "air_temperature"]

  /** Successive string subscripts, `j[p0][p1]...`. */
  function Lookup(j: Json, path: seq<string>): Result<Json>
    decreases |path|
  {
    if path == [] then Success(j)
    else
      var child :- Subscript(j, path[0]);
      Lookup(child, path[1..])
  }

  /** pydantic's `float` field in lax mode: numbers are kept as they are and
      booleans become 0.0 or 1.0; anything else is refused here, and numeric
      strings, which pydantic also accepts, are left out. */
  function AsFloat(j: Json): (r: Result<real>)
    ensures j.Number? ==> r == Success(j.n)
    ensures r.Success? <==> j.Number? || j.Bool?
  {
    match j
    case Number(n) => Success(n)
    case Bool(b) => Success(if b then 1.0 else 0.0)
    case _ => Failure(ValidationError)
  }

  /** The `time` text of an entry: `entry["time"]`, which strptime needs to
      be a string. */
  function TimeText(entry: Json): Result<string> {
    var time :- Subscript(entry, "time");
    if time.Str? then Success(time.s) else Failure(TypeError)
  }

  /** One step of the loop body: parse `time`, read the temperature. */
  function ParseSlice(entry: Json): (r: Result<DayTempForecast>)
    ensures r.Success? <==>
      && TimeText(entry).Success? && ParseTime(TimeText(entry).value).Success?
      && Lookup(entry, TemperaturePath).Success? && AsFloat(Lookup(entry, TemperaturePath).value).Success?
    ensures r.Success? ==>
      && Success(r.value.timestamp) == ParseTime(TimeText(entry).value)
      && Success(r.value.temp) == AsFloat(Lookup(entry, TemperaturePath).value)
      && IsDatetime(r.value.timestamp)
  {
    var text :- TimeText(entry);
    var timestamp :- ParseTime(text);
    var temperature :- Lookup(entry, TemperaturePath);
    var temp :- AsFloat(temperature);
    ParsedTimeFields(text);
    Success(DayTempForecast(timestamp, temp))
  }

  /** `data["properties"]["timeseries"]`, iterated. */
  function Timeseries(data: Json): Result<seq<Json>> {
    var series :- Lookup(data, ["properties", "timeseries"]);
    SlicesOf(series)
  }

  /** The generator over a list of entries, drained: one record per entry in
      entry order, or the exception of the first entry that fails. */
  function ParseSlices(entries: seq<Json>): (r: Result<seq<DayTempForecast>>)
    ensures r.Success? <==> forall i :: 0 <= i < |entries| ==> ParseSlice(entries[i]).Success?
    ensures r.Success? ==>
      |r.value| == |entries| && forall i :: 0 <= i < |entries| ==> ParseSlice(entries[i]) == Success(r.value[i])
    ensures r.Failure? ==>
      exists i :: 0 <= i < |entries| && ParseSlice(entries[i]) == Failure(r.error)
                  && forall j :: 0 <= j < i ==> ParseSlice(entries[j]).Success?
  {
    MapResults(ParseSlice, entries)
  }

  /** `format_timeseries_to_day_temp_forecast(data)`, drained into a list. */
  function FormatTimeseries(data: Json): (r: Result<seq<DayTempForecast>>)
    ensures Timeseries(data).Failure? ==> r == Failure(Timeseries(data).error)
    ensures Timeseries(data).Success? ==> r == ParseSlices(Timeseries(data).value)
    ensures r.Success? ==>
      var entries := Timeseries(data).value;
      |r.value| == |entries| && forall i :: 0 <= i < |entries| ==> ParseSlice(entries[i]) == Success(r.value[i])
  {
    var entries :- Timeseries(data);
    ParseSlices(entries)
  }

  // ------------------------------------------------------------ daily slice

  /** `filter_day_temp_forecast`: the Belgrade wall clock shows hour 14 at
      the record's instant. Only the instant is read, not the offset the
      record was written in. */
  predicate FilterDayTempForecast(f: DayTempForecast) {
    Belgrade.LocalHour(f.timestamp.instant) == 14
  }

  /** The records the filter keeps are those of the UTC hour 12:00-12:59 on
      a summer-time day and of 13:00-13:59 on any other day. */
  lemma FilterDayTempForecastWindow(f: DayTempForecast)
    ensures FilterDayTempForecast(f) <==>
      var day, second := f.timestamp.instant / 86400, f.timestamp.instant % 86400;
      if Belgrade.IsSummerDay(day) then 12 * 3600 <= second < 13 * 3600 else 13 * 3600 <= second < 14 * 3600
  {
    Belgrade.LocalHourFourteenWindow(f.timestamp.instant / 86400, f.timestamp.instant % 86400);
  }

  /** The filter converts the instant to Belgrade time, so it reads neither
      the offset a record was written in nor its temperature. */
  lemma FilterDependsOnInstant(a: DayTempForecast, b: DayTempForecast)
    requires a.timestamp.instant == b.timestamp.instant
    ensures FilterDayTempForecast(a) == FilterDayTempForecast(b)
  {
  }

  /** The instants that `astimezone` can convert to Belgrade time without
      an OverflowError: both the UTC value and the Belgrade wall-clock value
      must lie in years 1..9999. */
  const MinInstant := DayNumber(Date(1, 1, 1)) * 86400
  const MaxInstant := DayNumber(Date(9999, 12, 31)) * 86400 + 86399

  predicate AstimezoneDefined(t: Timestamp) {
    MinInstant <= t.instant && t.instant + Belgrade.UtcOffset(t.instant) <= MaxInstant
  }

  /** `s` occurs in `t` in order, possibly with gaps. */
  predicate IsSubsequence(s: seq<DayTempForecast>, t: seq<DayTempForecast>)
    decreases |t|
  {
    if s == [] then true
    else if t == [] then false
    else if s[0] == t[0] then IsSubsequence(s[1..], t[1..])
    else IsSubsequence(s, t[1..])
  }

  /** `filter(filter_day_temp_forecast, forecasts)`: the records that pass,
      in order, each as often as it occurs. */
  function DailySlices(forecasts: seq<DayTempForecast>): (r: seq<DayTempForecast>)
    ensures forall f :: f in r ==> FilterDayTempForecast(f)
    ensures forall f :: FilterDayTempForecast(f) ==> multiset(r)[f] == multiset(forecasts)[f]
    ensures IsSubsequence(r, forecasts)
  {
    if forecasts == [] then []
    else
      var rest := DailySlices(forecasts[1..]);
      assert forecasts == [forecasts[0]] + forecasts[1..];
      if FilterDayTempForecast(forecasts[0]) then [forecasts[0]] + rest else rest
  }

  /** Lines 97-99 of the fetch as Python runs them: the generator and the
      filter advance together, so each entry is parsed, then converted to
      Belgrade time and tested, before the next entry is parsed. */
  function SelectSlices(entries: seq<Json>): (r: Result<seq<DayTempForecast>>)
    ensures r.Success? ==> |r.value| <= |entries| && forall f :: f in r.value ==> FilterDayTempForecast(f)
  {
    if entries == [] then Success([])
    else
      var f :- ParseSlice(entries[0]);
      if !AstimezoneDefined(f.timestamp) then Failure(OverflowError)
      else
        var rest :- SelectSlices(entries[1..]);
        Success(if FilterDayTempForecast(f) then [f] + rest else rest)
  }

  /** `list(filter(filter_day_temp_forecast, format_timeseries_to_day_temp_forecast(data)))`. */
  function SelectDailyPoints(data: Json): (r: Result<seq<DayTempForecast>>)
    ensures Timeseries(data).Failure? ==> r == Failure(Timeseries(data).error)
    ensures r.Success? ==>
      |r.value| <= |Timeseries(data).value| && forall f :: f in r.value ==> FilterDayTempForecast(f)
  {
    var entries :- Timeseries(data);
    SelectSlices(entries)
  }

  lemma {:induction false} SelectSlicesIsFilter(entries: seq<Json>)
    ensures SelectSlices(entries).Success? <==>
      ParseSlices(entries).Success? && forall f :: f in ParseSlices(entries).value ==> AstimezoneDefined(f.timestamp)
    ensures SelectSlices(entries).Success? ==> SelectSlices(entries).value == DailySlices(ParseSlices(entries).value)
  {
    if entries != [] {
      SelectSlicesIsFilter(entries[1..]);
      var head := ParseSlice(entries[0]);
      if head.Success? && ParseSlices(entries[1..]).Success? {
        var all := ParseSlices(entries).value;
        assert all == [head.value] + ParseSlices(entries[1..]).value;
        assert all[1..] == ParseSlices(entries[1..]).value;
      }
    }
  }

  /** The result of lines 97-99 is, when the payload parses and converts,
      exactly the order-preserving filter of the normalised records, and raises
      otherwise. */
  lemma SelectDailyPointsIsFilter(data: Json)
    ensures SelectDailyPoints(data).Success? <==>
      FormatTimeseries(data).Success? && forall f :: f in FormatTimeseries(data).value ==> AstimezoneDefined(f.timestamp)
    ensures SelectDailyPoints(data).Success? ==>
      SelectDailyPoints(data).value == DailySlices(FormatTimeseries(data).value)
  {
    if Timeseries(data).Success? {
      SelectSlicesIsFilter(Timeseries(data).value);
    }
  }

  // ------------------------------------------------------------ encoder

  /** The `day` that `custom_json_encoder` writes: `str(timestamp.date())`,
      the calendar date in the record's own offset. */
  function EncodeDay(f: DayTempForecast): (day: string)
    requires IsDatetime(f.timestamp)
    ensures |day| == 10 && day[4] == '-' && day[7] == '-' && Digits4(day, 0) && Digits2(day, 5) && Digits2(day, 8)
    ensures Date(Field4(day, 0), Field2(day, 5), Field2(day, 8)) == LocalDate(f.timestamp)
  {
    IsoDate(LocalDate(f.timestamp))
  }

  /** For a parsed record, the encoded day is the date part of its `time`
      text, whatever offset that text carries. */
  lemma EncodedDayOfParsedSlice(entry: Json)
    requires ParseSlice(entry).Success?
    ensures EncodeDay(ParseSlice(entry).value) == TimeText(entry).value[..10]
  {
    DayOfParsedTime(TimeText(entry).value);
  }
}
