/** The civil time of Europe/Belgrade under the EU summer-time rule
    (Directive 2000/84/EC, Articles 1 and 2, as the IANA time-zone database
    applies it to Europe/Belgrade): Central European Time, UTC+1, except from
    01:00 UTC on the last Sunday of March until 01:00 UTC on the last Sunday of
    October, when summer time, UTC+2, applies. Instants are whole seconds
    since 1970-01-01T00:00:00Z. */
module Belgrade {
  import opened Calendar

  const StandardOffset := 3600   // CET
  const SummerOffset := 7200     // CEST

  /** The calendar year, in UTC, of an instant. */
  function UtcYear(instant: int): int {
    YearOfDayNumber(instant / 86400)
  }

  /** The instant at which summer time begins in year `y`. */
  function SummerTimeStart(y: int): int {
    DayNumber(LastSunday(y, 3)) * 86400 + 3600
  }

  /** The instant at which summer time ends in year `y`. */
  function SummerTimeEnd(y: int): int {
    DayNumber(LastSunday(y, 10)) * 86400 + 3600
  }

  /** The offset from UTC, in seconds, of Belgrade civil time at `instant`. */
  function UtcOffset(instant: int): (offset: int)
    ensures offset == StandardOffset || offset == SummerOffset
  {
    var y := UtcYear(instant);
    if SummerTimeStart(y) <= instant < SummerTimeEnd(y) then SummerOffset else StandardOffset
  }

  /** The hour (0..23) that a Belgrade wall clock shows at `instant`. */
  function LocalHour(instant: int): (h: int)
    ensures 0 <= h < 24
  {
    ((instant + UtcOffset(instant)) % 86400) / 3600
  }

  /** Whether UTC day `n` lies in summer time from its 01:00 UTC onwards:
      from the last Sunday of March up to, not including, the last Sunday of
      October of its year. */
  predicate IsSummerDay(n: int)
    ensures IsSummerDay(n) <==>
      var y := YearOfDayNumber(n);
      SummerTimeStart(y) <= n * 86400 + 3600 < SummerTimeEnd(y)
  {
    var y := YearOfDayNumber(n);
    DayNumber(LastSunday(y, 3)) <= n < DayNumber(LastSunday(y, 10))
  }

  /** On every UTC day the Belgrade clock shows hour 14 during exactly one
      hour: 12:00 to 13:00 UTC on a summer day and 13:00 to 14:00 UTC
      otherwise, the transition days included (they change offset at 01:00 UTC,
      long before noon). */
  lemma LocalHourFourteenWindow(n: int, s: int)
    requires 0 <= s < 86400
    ensures LocalHour(n * 86400 + s) == 14
            <==> if IsSummerDay(n) then 12 * 3600 <= s < 13 * 3600
                 else 13 * 3600 <= s < 14 * 3600
  {
    var offset := UtcOffset(n * 86400 + s);
    LocalHourOfDay(n, s, offset);
    if 3600 <= s {
      OffsetOfDay(n, s);
    } else {
      assert s + offset < 50400;
    }
  }

  /** From 01:00 UTC on, the whole of UTC day `n` has the offset of a summer
      day or that of a winter day. */
  lemma OffsetOfDay(n: int, s: int)
    requires 3600 <= s < 86400
    ensures UtcOffset(n * 86400 + s) == if IsSummerDay(n) then SummerOffset else StandardOffset
  {
    var instant := n * 86400 + s;
    DivisionUnique(instant, 86400, n, s);
    var y := UtcYear(instant);
    assert y == YearOfDayNumber(n);
    StartOfDayCompare(n, s, DayNumber(LastSunday(y, 3)));
    StartOfDayCompare(n, s, DayNumber(LastSunday(y, 10)));
  }

  /** The same on the hour: of the whole UTC hours of day `n`, only 12:00 on
      a summer day and only 13:00 on any other day show hour 14 in Belgrade. */
  lemma LocalHourFourteenOnTheHour(n: int, u: int)
    requires 0 <= u < 24
    ensures LocalHour(n * 86400 + u * 3600) == 14 <==> u == (if IsSummerDay(n) then 12 else 13)
  {
    LocalHourFourteenWindow(n, u * 3600);
  }

  /** The wall-clock hour of second `s` of UTC day `n` seen at a given offset. */
  lemma LocalHourOfDay(n: int, s: int, offset: int)
    requires 0 <= s < 86400 && (offset == 3600 || offset == 7200)
    ensures ((n * 86400 + s + offset) % 86400) / 3600 == 14 <==> 50400 <= s + offset < 54000
  {
    var t := s + offset;
    if t < 86400 {
      assert (n * 86400 + t) % 86400 == t;
    } else {
      assert (n * 86400 + t) % 86400 == t - 86400;
    }
  }

  /** From 01:00 UTC on, an instant of day `n` is past 01:00 UTC of day `k`
      exactly when `n` is not before `k`. */
  lemma StartOfDayCompare(n: int, s: int, k: int)
    requires 3600 <= s < 86400
    ensures k * 86400 + 3600 <= n * 86400 + s <==> k <= n
  {
  }
}
