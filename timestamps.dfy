/** Timezone-aware timestamps and the two textual forms the forecast code
    meets: `datetime.strptime(text, "%Y-%m-%dT%H:%M:%S%z")` reading the
    provider's `time` field, and `str(timestamp.date())` writing the day. */
module Timestamps {
  import opened Results
  import opened Calendar

  /** An aware datetime: the absolute instant, in seconds since
      1970-01-01T00:00:00Z, and the UTC offset, in seconds east of UTC, that
      its wall-clock fields are written in. */
  datatype Timestamp = Timestamp(instant: int, offset: int)

  /** The day number and the second of that day that the timestamp's own
      wall clock shows. */
  function LocalDayNumber(t: Timestamp): int {
    (t.instant + t.offset) / 86400
  }

  function LocalSecondOfDay(t: Timestamp): int {
    (t.instant + t.offset) % 86400
  }

  /** The calendar date in the timestamp's own offset (`timestamp.date()`). */
  function LocalDate(t: Timestamp): Date {
    DateOfDayNumber(LocalDayNumber(t))
  }

  /** What Python's `datetime` type can hold: wall-clock years 1..9999 and an
      offset of whole minutes strictly inside one day. */
  predicate IsDatetime(t: Timestamp) {
    1 <= LocalDate(t).year <= 9999 && -86400 < t.offset < 86400 && t.offset % 60 == 0
  }

  // ---------------------------------------------------------------- digits

  predicate IsDigit(c: char) {
    '0' <= c <= '9'
  }

  function DigitValue(c: char): int
    requires IsDigit(c)
  {
    c as int - '0' as int
  }

  function DigitChar(v: int): (c: char)
    requires 0 <= v <= 9
    ensures IsDigit(c) && DigitValue(c) == v
  {
    ('0' as int + v) as char
  }

  /** Two or four decimal digits starting at position `i` of `s`. */
  predicate Digits2(s: string, i: nat) {
    i + 2 <= |s| && IsDigit(s[i]) && IsDigit(s[i + 1])
  }

  predicate Digits4(s: string, i: nat) {
    i + 4 <= |s| && IsDigit(s[i]) && IsDigit(s[i + 1]) && IsDigit(s[i + 2]) && IsDigit(s[i + 3])
  }

  /** The value of a two- or four-digit decimal field at position `i`. */
  function Field2(s: string, i: nat): int
    requires Digits2(s, i)
  {
    10 * DigitValue(s[i]) + DigitValue(s[i + 1])
  }

  function Field4(s: string, i: nat): int
    requires Digits4(s, i)
  {
    1000 * DigitValue(s[i]) + 100 * DigitValue(s[i + 1]) + 10 * DigitValue(s[i + 2]) + DigitValue(s[i + 3])
  }

  /** Zero-padded decimal fields (`%02d`, `%04d`). */
  function Pad2(v: int): (s: string)
    requires 0 <= v <= 99
    ensures |s| == 2 && Digits2(s, 0) && Field2(s, 0) == v
  {
    [DigitChar(v / 10), DigitChar(v % 10)]
  }

  function Pad4(v: int): (s: string)
    requires 0 <= v <= 9999
    ensures |s| == 4 && Digits4(s, 0) && Field4(s, 0) == v
  {
    DecimalSplit(v);
    [DigitChar(v / 1000), DigitChar(v / 100 % 10), DigitChar(v / 10 % 10), DigitChar(v % 10)]
  }

  lemma DecimalSplit(v: int)
    requires 0 <= v <= 9999
    ensures v == 1000 * (v / 1000) + 100 * (v / 100 % 10) + 10 * (v / 10 % 10) + v % 10
  {
    var q10, q100 := v / 10, v / 100;
    assert v == 10 * q10 + v % 10;
    assert q10 == 10 * q100 + q10 % 10;
    assert q10 % 10 == v / 10 % 10;
    assert q100 == 10 * (v / 1000) + q100 % 10;
  }

  lemma Pad2OfValue(s: string)
    requires |s| == 2 && Digits2(s, 0)
    ensures Pad2(Field2(s, 0)) == s
  {
    var v := Field2(s, 0);
    assert v / 10 == DigitValue(s[0]) && v % 10 == DigitValue(s[1]);
  }

  lemma Pad4OfValue(s: string)
    requires |s| == 4 && Digits4(s, 0)
    ensures Pad4(Field4(s, 0)) == s
  {
    var a, b, c, d := DigitValue(s[0]), DigitValue(s[1]), DigitValue(s[2]), DigitValue(s[3]);
    DigitsOfValue(a, b, c, d);
    var v := Field4(s, 0);
    assert Pad4(v) == [DigitChar(a), DigitChar(b), DigitChar(c), DigitChar(d)];
  }

  /** The digits of a four-digit number are read back by division. */
  lemma DigitsOfValue(a: int, b: int, c: int, d: int)
    requires 0 <= a <= 9 && 0 <= b <= 9 && 0 <= c <= 9 && 0 <= d <= 9
    ensures var v := 1000 * a + 100 * b + 10 * c + d;
      v / 1000 == a && v / 100 % 10 == b && v / 10 % 10 == c && v % 10 == d
  {
    var v := 1000 * a + 100 * b + 10 * c + d;
    assert v == 10 * (100 * a + 10 * b + c) + d;
    assert v / 10 == 100 * a + 10 * b + c;
    assert v / 100 == 10 * a + b;
    assert v / 1000 == a;
  }

  // ---------------------------------------------------------------- parsing

  /** The fixed part `YYYY-MM-DDTHH:MM:SS` of the layout: digits where the
      directives stand and the literal separators between them. The layout
      is matched without regard to case, so `t` stands for `T` too. */
  predicate DateTimeShape(s: string) {
    && |s| >= 19
    && Digits4(s, 0) && s[4] == '-' && Digits2(s, 5) && s[7] == '-' && Digits2(s, 8)
    && (s[10] == 'T' || s[10] == 't')
    && Digits2(s, 11) && s[13] == ':' && Digits2(s, 14) && s[16] == ':' && Digits2(s, 17)
  }

  /** `%z`: `Z`, or a sign with hours and minutes, with or without a colon.
      The first minute digit must be 0..5; the hours must be below 24,
      since `timezone` refuses an offset of a whole day or more. */
  function ParseOffset(z: string): (r: Result<int>)
    ensures r.Success? ==> -86400 < r.value < 86400 && r.value % 60 == 0
    ensures r.Failure? ==> r.error == ValueError
  {
    if z == "Z" then Success(0)
    else if !(|z| == 5 || (|z| == 6 && z[3] == ':')) || !(z[0] == '+' || z[0] == '-') then
      Failure(ValueError)
    else if !Digits2(z, 1) || !Digits2(z, |z| - 2) || DigitValue(z[|z| - 2]) > 5 || Field2(z, 1) > 23 then
      Failure(ValueError)
    else
      var magnitude := Field2(z, 1) * 3600 + Field2(z, |z| - 2) * 60;
      Success(if z[0] == '-' then -magnitude else magnitude)
  }

  /** The instant a UTC wall clock showing that date and time names. */
  function WallClock(date: Date, hour: int, minute: int, second: int): int
    requires ValidDate(date)
  {
    DayNumber(date) * 86400 + hour * 3600 + minute * 60 + second
  }

  /** `datetime.strptime(s, "%Y-%m-%dT%H:%M:%S%z")`. The fields must be in
      range for `datetime` (year 1..9999, a day that exists in its month,
      second at most 59); any failure raises ValueError. */
  function ParseTime(s: string): (r: Result<Timestamp>)
    ensures r.Failure? ==> r.error == ValueError
  {
    if !DateTimeShape(s) then Failure(ValueError)
    else
      var offset :- ParseOffset(s[19..]);
      var date := Date(Field4(s, 0), Field2(s, 5), Field2(s, 8));
      var hour, minute, second := Field2(s, 11), Field2(s, 14), Field2(s, 17);
      if date.year < 1 || !ValidDate(date) || hour > 23 || minute > 59 || second > 59 then
        Failure(ValueError)
      else
        Success(Timestamp(WallClock(date, hour, minute, second) - offset, offset))
  }

  // ---------------------------------------------------------------- writing

  /** `str(date)`: `YYYY-MM-DD`. */
  function IsoDate(d: Date): (s: string)
    requires 0 <= d.year <= 9999 && ValidDate(d)
    ensures |s| == 10 && s[4] == '-' && s[7] == '-' && Digits4(s, 0) && Digits2(s, 5) && Digits2(s, 8)
    ensures Field4(s, 0) == d.year && Field2(s, 5) == d.month && Field2(s, 8) == d.day
  {
    var y, m, dd := Pad4(d.year), Pad2(d.month), Pad2(d.day);
    var s := y + "-" + m + "-" + dd;
    assert s[0..4] == y && s[5..7] == m && s[8..10] == dd;
    s
  }

  /** The offset as `%z` with a colon would read it back: `+HH:MM`/`-HH:MM`. */
  function IsoOffset(offset: int): (s: string)
    requires -86400 < offset < 86400
    ensures |s| == 6
  {
    var magnitude := if offset < 0 then -offset else offset;
    [if offset < 0 then '-' else '+'] + Pad2(magnitude / 3600) + ":" + Pad2(magnitude % 3600 / 60)
  }

  /** `YYYY-MM-DDTHH:MM:SS` followed by the offset text `z`: text of the
      fixed shape whose fields read back as the values written. */
  function Layout(year: int, month: int, day: int, hour: int, minute: int, second: int, z: string): (s: string)
    requires 0 <= year <= 9999
    requires 0 <= month <= 99 && 0 <= day <= 99 && 0 <= hour <= 99 && 0 <= minute <= 99 && 0 <= second <= 99
    ensures DateTimeShape(s) && s[19..] == z
    ensures Field4(s, 0) == year && Field2(s, 5) == month && Field2(s, 8) == day
    ensures Field2(s, 11) == hour && Field2(s, 14) == minute && Field2(s, 17) == second
  {
    FieldsOfPieces(Pad4(year), Pad2(month), Pad2(day), Pad2(hour), Pad2(minute), Pad2(second), z);
    Pad4(year) + "-" + Pad2(month) + "-" + Pad2(day) + "T" + Pad2(hour) + ":" + Pad2(minute) + ":" + Pad2(second) + z
  }

  /** Digit fields joined by the layout's separators stand at the positions
      the parser reads them from. */
  lemma FieldsOfPieces(y: string, mo: string, d: string, h: string, mi: string, se: string, z: string)
    requires |y| == 4 && Digits4(y, 0)
    requires |mo| == 2 && Digits2(mo, 0) && |d| == 2 && Digits2(d, 0)
    requires |h| == 2 && Digits2(h, 0) && |mi| == 2 && Digits2(mi, 0) && |se| == 2 && Digits2(se, 0)
    ensures var s := y + "-" + mo + "-" + d + "T" + h + ":" + mi + ":" + se + z;
      && DateTimeShape(s) && s[19..] == z
      && Field4(s, 0) == Field4(y, 0) && Field2(s, 5) == Field2(mo, 0) && Field2(s, 8) == Field2(d, 0)
      && Field2(s, 11) == Field2(h, 0) && Field2(s, 14) == Field2(mi, 0) && Field2(s, 17) == Field2(se, 0)
  {
    var s := y + "-" + mo + "-" + d + "T" + h + ":" + mi + ":" + se + z;
    var p := y + "-" + mo + "-" + d + "T" + h + ":" + mi + ":" + se;
    assert s == p + z && |p| == 19;
    assert p[0..4] == y && p[5..7] == mo && p[8..10] == d;
    assert p[11..13] == h && p[14..16] == mi && p[17..19] == se;
    assert p[4] == '-' && p[7] == '-' && p[10] == 'T' && p[13] == ':' && p[16] == ':';
  }

  /** The timestamp in the provider's layout, written in its own offset. */
  function FormatTime(t: Timestamp): (s: string)
    requires IsDatetime(t)
  {
    var date, sod := LocalDate(t), LocalSecondOfDay(t);
    ClockSplit(sod);
    Layout(date.year, date.month, date.day, sod / 3600, sod % 3600 / 60, sod % 60, IsoOffset(t.offset))
  }

  // ---------------------------------------------------------------- properties

  /** A parsed timestamp keeps the offset it was written with, and in that
      offset its wall clock shows exactly the date and time that were written. */
  lemma ParsedTimeFields(s: string)
    requires ParseTime(s).Success?
    ensures var t := ParseTime(s).value;
      && IsDatetime(t)
      && ParseOffset(s[19..]) == Success(t.offset)
      && LocalDate(t) == Date(Field4(s, 0), Field2(s, 5), Field2(s, 8))
      && LocalSecondOfDay(t) == Field2(s, 11) * 3600 + Field2(s, 14) * 60 + Field2(s, 17)
  {
    var t := ParseTime(s).value;
    var date := Date(Field4(s, 0), Field2(s, 5), Field2(s, 8));
    var sod := Field2(s, 11) * 3600 + Field2(s, 14) * 60 + Field2(s, 17);
    assert 0 <= sod < 86400;
    assert t.instant + t.offset == DayNumber(date) * 86400 + sod;
    assert LocalDayNumber(t) == DayNumber(date);
    DateOfDayNumberOfDate(date);
  }

  /** The day `str(timestamp.date())` writes for a parsed timestamp is the
      date part of the text it was parsed from, whatever its offset. */
  lemma DayOfParsedTime(s: string)
    requires ParseTime(s).Success?
    ensures var t := ParseTime(s).value; 1 <= LocalDate(t).year <= 9999 && IsoDate(LocalDate(t)) == s[..10]
  {
    ParsedTimeFields(s);
    DatePart(s);
  }

  /** The date fields of a text of the fixed shape, written back as `str`
      writes a date, give its first ten characters. */
  lemma DatePart(s: string)
    requires DateTimeShape(s) && ValidDate(Date(Field4(s, 0), Field2(s, 5), Field2(s, 8)))
    ensures IsoDate(Date(Field4(s, 0), Field2(s, 5), Field2(s, 8))) == s[..10]
  {
    var y, m, d := s[0..4], s[5..7], s[8..10];
    assert Field4(y, 0) == Field4(s, 0) && Field2(m, 0) == Field2(s, 5) && Field2(d, 0) == Field2(s, 8);
    Pad4OfValue(y);
    Pad2OfValue(m);
    Pad2OfValue(d);
    assert s[..10] == y + "-" + m + "-" + d;
  }

  /** `Z` names the zero offset: it reads as `+00:00` does. */
  lemma ZuluIsZeroOffset(p: string)
    requires |p| == 19
    ensures ParseTime(p + "Z") == ParseTime(p + "+00:00")
  {
    var z, u := p + "Z", p + "+00:00";
    assert z[..19] == p && u[..19] == p;
    assert z[19..] == "Z" && u[19..] == "+00:00";
    assert ParseOffset("+00:00") == Success(0);
    assert z[0..4] == u[0..4] && z[5..7] == u[5..7] && z[8..10] == u[8..10];
    assert z[11..13] == u[11..13] && z[14..16] == u[14..16] && z[17..19] == u[17..19];
    assert z[4] == u[4] && z[7] == u[7] && z[10] == u[10] && z[13] == u[13] && z[16] == u[16];
    assert DateTimeShape(z) <==> DateTimeShape(u);
  }

  lemma OffsetRoundTrip(offset: int)
    requires -86400 < offset < 86400 && offset % 60 == 0
    ensures ParseOffset(IsoOffset(offset)) == Success(offset)
  {
    var z := IsoOffset(offset);
    var magnitude := if offset < 0 then -offset else offset;
    var hours, minutes := magnitude / 3600, magnitude % 3600 / 60;
    assert magnitude % 60 == 0;
    assert magnitude == hours * 3600 + minutes * 60;
    assert z[1..3] == Pad2(hours) && z[|z| - 2..] == Pad2(minutes);
    assert z[3] == ':';
  }

  /** Writing a timestamp in the provider's layout and parsing it back gives
      the same instant and the same offset. */
  lemma ParseFormatRoundTrip(t: Timestamp)
    requires IsDatetime(t)
    ensures ParseTime(FormatTime(t)) == Success(t)
  {
    var sod := LocalSecondOfDay(t);
    LocalClock(t);
    OffsetRoundTrip(t.offset);
    ParseOfValidLayout(FormatTime(t), LocalDate(t), sod / 3600, sod % 3600 / 60, sod % 60, IsoOffset(t.offset), t.offset);
  }

  /** FormatTime writes the local date and clock of the timestamp, and they
      give back its instant. */
  lemma LocalClock(t: Timestamp)
    requires IsDatetime(t)
    ensures var date, sod := LocalDate(t), LocalSecondOfDay(t);
      && sod / 3600 <= 23 && sod % 3600 / 60 <= 59
      && FormatTime(t) == Layout(date.year, date.month, date.day, sod / 3600, sod % 3600 / 60, sod % 60, IsoOffset(t.offset))
      && WallClock(date, sod / 3600, sod % 3600 / 60, sod % 60) - t.offset == t.instant
  {
    ClockSplit(LocalSecondOfDay(t));
  }

  /** Text in the layout with fields in range and an offset that parses reads
      as its wall-clock time less the offset. */
  lemma ParseOfValidLayout(s: string, date: Date, hour: int, minute: int, second: int, z: string, offset: int)
    requires 1 <= date.year <= 9999 && ValidDate(date)
    requires 0 <= hour <= 23 && 0 <= minute <= 59 && 0 <= second <= 59
    requires ParseOffset(z) == Success(offset)
    requires s == Layout(date.year, date.month, date.day, hour, minute, second, z)
    ensures ParseTime(s) == Success(Timestamp(WallClock(date, hour, minute, second) - offset, offset))
  {
    var year, month, day := date.year, date.month, date.day;
    assert Date(year, month, day) == date;
    ParseOfLayout(year, month, day, hour, minute, second, z);
    assert !(ParseOffset(z).Failure? || year < 1 || !ValidDate(Date(year, month, day)) || hour > 23 || minute > 59 || second > 59);
  }

  /** Parsing text in the layout: it succeeds exactly when the offset text
      parses and the fields are in range, and then the instant is the written
      wall-clock time less the written offset. */
  lemma ParseOfLayout(year: int, month: int, day: int, hour: int, minute: int, second: int, z: string)
    requires 0 <= year <= 9999
    requires 0 <= month <= 99 && 0 <= day <= 99 && 0 <= hour <= 99 && 0 <= minute <= 99 && 0 <= second <= 99
    ensures var date := Date(year, month, day);
      ParseTime(Layout(year, month, day, hour, minute, second, z))
      == if ParseOffset(z).Failure? || year < 1 || !ValidDate(date) || hour > 23 || minute > 59 || second > 59
         then Failure(ValueError)
         else Success(Timestamp(WallClock(date, hour, minute, second) - ParseOffset(z).value,
                                ParseOffset(z).value))
  {
  }

  /** A second of the day is its hours, minutes and seconds. */
  lemma ClockSplit(sod: int)
    requires 0 <= sod < 86400
    ensures sod == sod / 3600 * 3600 + sod % 3600 / 60 * 60 + sod % 60
    ensures sod / 3600 <= 23 && sod % 3600 / 60 <= 59
  {
    var r := sod % 3600;
    assert sod == sod / 3600 * 3600 + r;
    assert r == r / 60 * 60 + r % 60;
    assert r % 60 == sod % 60;
  }

}
