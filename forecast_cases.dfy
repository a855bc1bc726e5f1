/** The concrete cases the project's tests pin down: the daily slice around
    the end of summer time in 2025, the four-entry provider payload, the
    payload without `properties`, and the day written for a late-evening
    record. */
module ForecastCases {
  import opened Results
  import opened Json
  import opened Calendar
  import opened Timestamps
  import Belgrade
  import opened Forecast

  // ------------------------------------------------------------ calendar facts

  /** 2025-10-25 is day 20386 and 2025-10-26 day 20387. */
  lemma DayNumbersOctober2025()
    ensures DayNumber(Date(2025, 10, 25)) == 20386 && DayNumber(Date(2025, 10, 26)) == 20387
  {
  }

  /** Summer time of 2025 began on Sunday 30 March (day 20177) and ends on
      Sunday 26 October (day 20387): 25 October is a summer day, 26 October
      is not. */
  lemma SummerDaysOctober2025()
    ensures Belgrade.IsSummerDay(20386) && !Belgrade.IsSummerDay(20387)
  {
    YearsOfOctober2025();
    LastSundaysOf2025();
  }

  lemma YearsOfOctober2025()
    ensures YearOfDayNumber(20386) == 2025 && YearOfDayNumber(20387) == 2025
  {
  }

  /** The last Sundays of March and October 2025 are days 20177 and 20387. */
  lemma LastSundaysOf2025()
    ensures DayNumber(LastSunday(2025, 3)) == 20177 && DayNumber(LastSunday(2025, 10)) == 20387
  {
    LastSundayOfMarch2025();
    LastSundayOfOctober2025();
  }

  lemma LastSundayOfMarch2025()
    ensures DayNumber(LastSunday(2025, 3)) == 20177
  {
  }

  lemma LastSundayOfOctober2025()
    ensures DayNumber(LastSunday(2025, 10)) == 20387
  {
  }

  /** The instant at `hour`:00 UTC on day `n`. */
  function AtHour(n: int, hour: int): int {
    n * 86400 + hour * 3600
  }

  // ------------------------------------------------------------ test texts

  const Oct25At1200 := "2025-10-25T12:00:00+00:00"
  const Oct25At1100West := "2025-10-25T11:00:00-01:00"
  const Oct25At1300 := "2025-10-25T13:00:00+00:00"
  const Oct26At1200 := "2025-10-26T12:00:00+00:00"
  const Oct26At1300 := "2025-10-26T13:00:00+00:00"
  const Oct26At1400 := "2025-10-26T14:00:00+00:00"
  const Oct25At1200Z := "2025-10-25T12:00:00Z"
  const Oct26At0900Z := "2025-10-26T09:00:00Z"
  const Oct26At1000Z := "2025-10-26T10:00:00Z"
  const Oct26At1100Z := "2025-10-26T11:00:00Z"
  const Oct25At2330 := "2025-10-25T23:30:00+00:00"

  /** Text of the fixed shape whose fields read as a valid date and time and
      whose offset parses reads as that wall-clock time less the offset. */
  lemma ReadFields(s: string, date: Date, hour: int, minute: int, offset: int)
    requires DateTimeShape(s) && ParseOffset(s[19..]) == Success(offset)
    requires Field4(s, 0) == date.year && Field2(s, 5) == date.month && Field2(s, 8) == date.day
    requires Field2(s, 11) == hour && Field2(s, 14) == minute && Field2(s, 17) == 0
    requires 1 <= date.year && ValidDate(date) && hour <= 23 && minute <= 59
    ensures ParseTime(s) == Success(Timestamp(WallClock(date, hour, minute, 0) - offset, offset))
  {
  }

  /* Each text read as the instant it names and the offset it is written in. */

  lemma ParseOct25At1200()
    ensures ParseTime(Oct25At1200) == Success(Timestamp(AtHour(20386, 12), 0))
  {
    ReadFields(Oct25At1200, Date(2025, 10, 25), 12, 0, 0);
    DayNumbersOctober2025();
  }

  lemma ParseOct25At1100West()
    ensures ParseTime(Oct25At1100West) == Success(Timestamp(AtHour(20386, 12), -3600))
  {
    ReadFields(Oct25At1100West, Date(2025, 10, 25), 11, 0, -3600);
    DayNumbersOctober2025();
  }

  lemma ParseOct25At1300()
    ensures ParseTime(Oct25At1300) == Success(Timestamp(AtHour(20386, 13), 0))
  {
    ReadFields(Oct25At1300, Date(2025, 10, 25), 13, 0, 0);
    DayNumbersOctober2025();
  }

  lemma ParseOct26At1200()
    ensures ParseTime(Oct26At1200) == Success(Timestamp(AtHour(20387, 12), 0))
  {
    ReadFields(Oct26At1200, Date(2025, 10, 26), 12, 0, 0);
    DayNumbersOctober2025();
  }

  lemma ParseOct26At1300()
    ensures ParseTime(Oct26At1300) == Success(Timestamp(AtHour(20387, 13), 0))
  {
    ReadFields(Oct26At1300, Date(2025, 10, 26), 13, 0, 0);
    DayNumbersOctober2025();
  }

  lemma ParseOct26At1400()
    ensures ParseTime(Oct26At1400) == Success(Timestamp(AtHour(20387, 14), 0))
  {
    ReadFields(Oct26At1400, Date(2025, 10, 26), 14, 0, 0);
    DayNumbersOctober2025();
  }

  lemma ParseOct25At1200Z()
    ensures ParseTime(Oct25At1200Z) == Success(Timestamp(AtHour(20386, 12), 0))
  {
    ReadFields(Oct25At1200Z, Date(2025, 10, 25), 12, 0, 0);
    DayNumbersOctober2025();
  }

  lemma ParseOct26At0900Z()
    ensures ParseTime(Oct26At0900Z) == Success(Timestamp(AtHour(20387, 9), 0))
  {
    ReadFields(Oct26At0900Z, Date(2025, 10, 26), 9, 0, 0);
    DayNumbersOctober2025();
  }

  lemma ParseOct26At1000Z()
    ensures ParseTime(Oct26At1000Z) == Success(Timestamp(AtHour(20387, 10), 0))
  {
    ReadFields(Oct26At1000Z, Date(2025, 10, 26), 10, 0, 0);
    DayNumbersOctober2025();
  }

  lemma ParseOct26At1100Z()
    ensures ParseTime(Oct26At1100Z) == Success(Timestamp(AtHour(20387, 11), 0))
  {
    ReadFields(Oct26At1100Z, Date(2025, 10, 26), 11, 0, 0);
    DayNumbersOctober2025();
  }

  lemma ParseOct25At2330()
    ensures ParseTime(Oct25At2330) == Success(Timestamp(AtHour(20386, 23) + 1800, 0))
  {
    ReadFields(Oct25At2330, Date(2025, 10, 25), 23, 30, 0);
    DayNumbersOctober2025();
  }

  // ------------------------------------------------------------ daily slice

  /** On 25 October 2025, the last day of summer time, the Belgrade clock
      shows 14:00 at 12:00 UTC only; on 26 October, when winter time has
      begun, at 13:00 UTC only. */
  lemma HourFourteenOctober2025(u: int)
    requires 0 <= u < 24
    ensures Belgrade.LocalHour(AtHour(20386, u)) == 14 <==> u == 12
    ensures Belgrade.LocalHour(AtHour(20387, u)) == 14 <==> u == 13
  {
    SummerDaysOctober2025();
    Belgrade.LocalHourFourteenOnTheHour(20386, u);
    Belgrade.LocalHourFourteenOnTheHour(20387, u);
  }

  /** The test's construction: a record with temperature 18 at the parsed
      text, and whether it is the daily slice. */
  function FilterOfText(text: string): Result<bool> {
    var timestamp :- ParseTime(text);
    Success(FilterDayTempForecast(DayTempForecast(timestamp, 18.0)))
  }

  /** Before the change to winter time, the daily slice is 12:00 UTC, in
      whichever offset it is written ... */
  lemma DailySliceBeforeTransition()
    ensures FilterOfText(Oct25At1200) == Success(true)
    ensures FilterOfText(Oct25At1100West) == Success(true)
    ensures FilterOfText(Oct25At1300) == Success(false)
  {
    ParseOct25At1200();
    ParseOct25At1100West();
    ParseOct25At1300();
    HourFourteenOctober2025(12);
    HourFourteenOctober2025(13);
  }

  /** ... and on the day of the change, 13:00 UTC. */
  lemma DailySliceOnTransitionDay()
    ensures FilterOfText(Oct26At1200) == Success(false)
    ensures FilterOfText(Oct26At1300) == Success(true)
    ensures FilterOfText(Oct26At1400) == Success(false)
  {
    ParseOct26At1200();
    ParseOct26At1300();
    ParseOct26At1400();
    HourFourteenOctober2025(12);
    HourFourteenOctober2025(13);
    HourFourteenOctober2025(14);
  }

  /** The same instant written in two offsets is the same instant, and the
      offsets stay as written. */
  lemma SameInstantInTwoOffsets()
    ensures var a, b := ParseTime(Oct25At1200), ParseTime(Oct25At1100West);
      a.Success? && b.Success? && a.value.instant == b.value.instant && a.value.offset != b.value.offset
  {
    ParseOct25At1200();
    ParseOct25At1100West();
  }

  // ------------------------------------------------------------ provider payloads

  /** One timeseries entry in the provider's shape, abridged: besides the
      time and the air temperature it keeps only the pressure and the next
      hour's precipitation and symbol code, as examples of fields the
      normaliser does not read. */
  function ProviderSlice(time: string, temperature: real, pressure: real, symbol: string): Json {
    Object(map[
      "data" := Object(map[
        "instant" := Object(map[
          "details" := Object(map[
            "air_pressure_at_sea_level" := Number(pressure),
            "air_temperature" := Number(temperature)])]),
        "next_1_hours" := Object(map[
          "details" := Object(map["precipitation_amount" := Number(0.0)]),
          "summary" := Object(map["symbol_code" := Str(symbol)])])]),
      "time" := Str(time)])
  }

  const Geometry := Object(map[
    "coordinates" := Array([Number(20.46), Number(1.0), Number(353.0)]),
    "type" := Str("Point")])

  /** The four entries of the positive payload of the tests. */
  const Entry1 := ProviderSlice(Oct25At1200Z, 28.4, 1013.4, "fair_day")
  const Entry2 := ProviderSlice(Oct26At0900Z, 29.7, 1012.9, "lightrainshowers_day")
  const Entry3 := ProviderSlice(Oct26At1000Z, 30.4, 1012.1, "fair_day")
  const Entry4 := ProviderSlice(Oct26At1100Z, 30.9, 1010.9, "fair_day")

  /** The positive payload: of its four entries only the first falls at
      14:00 Belgrade time. */
  const PositiveResponse := Object(map[
    "geometry" := Geometry,
    "properties" := Object(map[
      "meta" := Object(map["updated_at" := Str("2025-10-25T08:17:45Z")]),
      "timeseries" := Array([Entry1, Entry2, Entry3, Entry4])]),
    "type" := Str("Feature")])

  /** The records the four entries parse to. */
  const Record1 := DayTempForecast(Timestamp(AtHour(20386, 12), 0), 28.4)
  const Record2 := DayTempForecast(Timestamp(AtHour(20387, 9), 0), 29.7)
  const Record3 := DayTempForecast(Timestamp(AtHour(20387, 10), 0), 30.4)
  const Record4 := DayTempForecast(Timestamp(AtHour(20387, 11), 0), 30.9)

  /** The timeseries of the abridged positive payload, one entry at a time. */
  lemma PositiveTimeseries()
    ensures Timeseries(PositiveResponse) == Success([Entry1] + ([Entry2] + ([Entry3] + [Entry4])))
  {
    assert [Entry1] + ([Entry2] + ([Entry3] + [Entry4])) == [Entry1, Entry2, Entry3, Entry4];
  }

  /** An entry whose text parses to `t` parses to `t` and its temperature,
      and converts to Belgrade time. */
  lemma ParseProviderSlice(time: string, t: Timestamp, temperature: real, pressure: real, symbol: string)
    requires ParseTime(time) == Success(t) && 0 <= t.instant <= 4000000000
    ensures ParseSlice(ProviderSlice(time, temperature, pressure, symbol)) == Success(DayTempForecast(t, temperature))
    ensures AstimezoneDefined(t)
  {
    SliceFields(time, temperature, pressure, symbol);
    ConvertibleInstant(t);
  }

  /** The `time` text and the temperature of a provider entry. */
  lemma SliceFields(time: string, temperature: real, pressure: real, symbol: string)
    ensures TimeText(ProviderSlice(time, temperature, pressure, symbol)) == Success(time)
    ensures Lookup(ProviderSlice(time, temperature, pressure, symbol), TemperaturePath) == Success(Number(temperature))
  {
    var entry := ProviderSlice(time, temperature, pressure, symbol);
    assert Subscript(entry, "time") == Success(Str(time));
    var data := Subscript(entry, "data").value;
    var instant := Subscript(data, "instant").value;
    var details := Subscript(instant, "details").value;
    assert Subscript(details, "air_temperature") == Success(Number(temperature));
  }

  /** Instants between 1970 and 2096 convert to Belgrade time. */
  lemma ConvertibleInstant(t: Timestamp)
    requires 0 <= t.instant <= 4000000000
    ensures AstimezoneDefined(t)
  {
    assert MinInstant == -62135596800 && MaxInstant == 253402300799;
  }

  lemma PositiveEntriesParse()
    ensures ParseSlice(Entry1) == Success(Record1) && AstimezoneDefined(Record1.timestamp)
    ensures ParseSlice(Entry2) == Success(Record2) && AstimezoneDefined(Record2.timestamp)
    ensures ParseSlice(Entry3) == Success(Record3) && AstimezoneDefined(Record3.timestamp)
    ensures ParseSlice(Entry4) == Success(Record4) && AstimezoneDefined(Record4.timestamp)
  {
    ParseOct25At1200Z();
    ParseOct26At0900Z();
    ParseOct26At1000Z();
    ParseOct26At1100Z();
    ParseProviderSlice(Oct25At1200Z, Record1.timestamp, 28.4, 1013.4, "fair_day");
    ParseProviderSlice(Oct26At0900Z, Record2.timestamp, 29.7, 1012.9, "lightrainshowers_day");
    ParseProviderSlice(Oct26At1000Z, Record3.timestamp, 30.4, 1012.1, "fair_day");
    ParseProviderSlice(Oct26At1100Z, Record4.timestamp, 30.9, 1010.9, "fair_day");
  }

  lemma PositiveRecordsFilter()
    ensures FilterDayTempForecast(Record1)
    ensures !FilterDayTempForecast(Record2) && !FilterDayTempForecast(Record3) && !FilterDayTempForecast(Record4)
  {
    HourFourteenOctober2025(12);
    HourFourteenOctober2025(9);
    HourFourteenOctober2025(10);
    HourFourteenOctober2025(11);
  }

  /** One step of the lazy filter over an entry that parses and converts. */
  lemma SelectOne(e: Json, rest: seq<Json>, f: DayTempForecast)
    requires ParseSlice(e) == Success(f) && AstimezoneDefined(f.timestamp)
    ensures SelectSlices(rest).Failure? ==> SelectSlices([e] + rest) == SelectSlices(rest)
    ensures SelectSlices(rest).Success? ==>
      SelectSlices([e] + rest) == Success(if FilterDayTempForecast(f) then [f] + SelectSlices(rest).value else SelectSlices(rest).value)
  {
    assert ([e] + rest)[0] == e && ([e] + rest)[1..] == rest;
  }

  /** The lazy filter over an entry that parses, converts and is dropped,
      ahead of entries that select nothing ... */
  lemma DropLast(e: Json, f: DayTempForecast)
    requires ParseSlice(e) == Success(f) && AstimezoneDefined(f.timestamp) && !FilterDayTempForecast(f)
    ensures SelectSlices([e]) == Success([])
  {
    assert [e][1..] == [];
  }

  lemma DropOne(e: Json, rest: seq<Json>, f: DayTempForecast)
    requires ParseSlice(e) == Success(f) && AstimezoneDefined(f.timestamp) && !FilterDayTempForecast(f)
    requires SelectSlices(rest) == Success([])
    ensures SelectSlices([e] + rest) == Success([])
  {
    SelectOne(e, rest, f);
  }

  /** ... and over one that is kept. */
  lemma KeepOne(e: Json, rest: seq<Json>, f: DayTempForecast)
    requires ParseSlice(e) == Success(f) && AstimezoneDefined(f.timestamp) && FilterDayTempForecast(f)
    requires SelectSlices(rest) == Success([])
    ensures SelectSlices([e] + rest) == Success([f])
  {
    SelectOne(e, rest, f);
    assert [f] + [] == [f];
  }

  /** The positive payload yields exactly the record at 2025-10-25T12:00Z with
      temperature 28.4. */
  lemma PositiveResponseDailyPoints()
    ensures SelectDailyPoints(PositiveResponse)
            == Success([DayTempForecast(Timestamp(AtHour(20386, 12), 0), 28.4)])
  {
    PositiveTimeseries();
    PositiveEntriesParse();
    PositiveRecordsFilter();
    DropLast(Entry4, Record4);
    DropOne(Entry3, [Entry4], Record3);
    DropOne(Entry2, [Entry3] + [Entry4], Record2);
    KeepOne(Entry1, [Entry2] + ([Entry3] + [Entry4]), Record1);
  }

  /** A payload with only `geometry` raises KeyError on `properties`. */
  lemma GeometryOnlyRaises()
    ensures SelectDailyPoints(Object(map["geometry" := Geometry])) == Failure(KeyError("properties"))
  {
  }

  // ------------------------------------------------------------ encoder

  /** The test's construction: a record with temperature 18 at the parsed
      text, and the day the encoder writes for it. */
  function EncodedDayOfText(text: string): Result<string> {
    var timestamp :- ParseTime(text);
    ParsedTimeFields(text);
    Success(EncodeDay(DayTempForecast(timestamp, 18.0)))
  }

  /** 2025-10-25T23:30:00+00:00 is written with day 2025-10-25, the date in
      its own offset ... */
  lemma LateEveningEncodedDay()
    ensures EncodedDayOfText(Oct25At2330) == Success("2025-10-25")
  {
    ParseOct25At2330();
    EncodedDayIsDatePart(Oct25At2330);
    assert Oct25At2330[..10] == "2025-10-25";
  }

  lemma EncodedDayIsDatePart(text: string)
    requires ParseTime(text).Success?
    ensures EncodedDayOfText(text) == Success(text[..10])
  {
    DayOfParsedTime(text);
  }

  /** ... although in Belgrade, at UTC+2, it is already 26 October. */
  lemma LateEveningBelgradeDay()
    ensures var instant := AtHour(20386, 23) + 1800;
      && ParseTime(Oct25At2330) == Success(Timestamp(instant, 0))
      && Belgrade.UtcOffset(instant) == Belgrade.SummerOffset
      && (instant + Belgrade.UtcOffset(instant)) / 86400 == 20387
  {
    ParseOct25At2330();
    SummerDaysOctober2025();
    Belgrade.OffsetOfDay(20386, 23 * 3600 + 1800);
  }
}
