/** Calendar decomposition of an instant, as pandas' `Timestamp` attributes
    give it. Instants are whole seconds on the naive local wall clock,
    counted from 1970-01-01 00:00:00 (a Thursday). */
module Calendar {

  const SecondsPerMinute: int := 60
  const SecondsPerHour: int := 3600
  const SecondsPerDay: int := 86400

  /** Days in a 400-year Gregorian cycle; the leap-year pattern repeats after it. */
  const DaysPerCycle: int := 146097

  /** `Timestamp.floor("min")`. */
  function FloorToMinute(t: int): (r: int)
    ensures r <= t < r + SecondsPerMinute
    ensures r % SecondsPerMinute == 0
  {
    t - t % SecondsPerMinute
  }

  /** `Timestamp.hour`. */
  function HourOf(t: int): (h: int)
    ensures 0 <= h < 24
  {
    (t % SecondsPerDay) / SecondsPerHour
  }

  /** `Timestamp.dayofweek`: Monday is 0 and Sunday is 6. */
  function DayOfWeek(t: int): (d: int)
    ensures 0 <= d < 7
  {
    (t / SecondsPerDay + 3) % 7
  }

  predicate IsLeapYear(y: int)
  {
    y % 4 == 0 && (y % 100 != 0 || y % 400 == 0)
  }

  function DaysInYear(y: int): int
  {
    if IsLeapYear(y) then 366 else 365
  }

  /** Splits `day` days counted from January 1 of year 1970 + `offset`
      into whole years and a day of the year. */
  function YearAndDay(offset: nat, day: int): (r: (nat, int))
    requires 0 <= day
    ensures offset <= r.0
    ensures 0 <= r.1 < DaysInYear(1970 + r.0)
    decreases day
  {
    if day < DaysInYear(1970 + offset) then (offset, day)
    else YearAndDay(offset + 1, day - DaysInYear(1970 + offset))
  }

  /** The month holding day `doy` (0-based) of a year; from March on every
      month starts one day later in a leap year. */
  function MonthOfDay(doy: int, leap: bool): (m: int)
    requires 0 <= doy < (if leap then 366 else 365)
    ensures 1 <= m <= 12
  {
    var l := if leap then 1 else 0;
    if doy < 31 then 1
    else if doy < 59 + l then 2
    else if doy < 90 + l then 3
    else if doy < 120 + l then 4
    else if doy < 151 + l then 5
    else if doy < 181 + l then 6
    else if doy < 212 + l then 7
    else if doy < 243 + l then 8
    else if doy < 273 + l then 9
    else if doy < 304 + l then 10
    else if doy < 334 + l then 11
    else 12
  }

  /** `Timestamp.month`. The day count is reduced modulo the 400-year
      cycle, which leaves month and leap-ness unchanged. */
  function MonthOf(t: int): (m: int)
    ensures 1 <= m <= 12
  {
    var yd := YearAndDay(0, (t / SecondsPerDay) % DaysPerCycle);
    MonthOfDay(yd.1, IsLeapYear(1970 + yd.0))
  }

  /** The weekday advances by one, cyclically, from one day to the next. */
  lemma DayOfWeekNextDay(t: int)
    ensures DayOfWeek(t + SecondsPerDay) == (DayOfWeek(t) + 1) % 7
  {
    assert (t + SecondsPerDay) / SecondsPerDay == t / SecondsPerDay + 1;
  }

  /** The hour of day advances by one, cyclically, from one hour to the next. */
  lemma HourOfNextHour(t: int)
    ensures HourOf(t + SecondsPerHour) == (HourOf(t) + 1) % 24
  {
    var r := t % SecondsPerDay;
    if r + SecondsPerHour < SecondsPerDay {
      assert (t + SecondsPerHour) % SecondsPerDay == r + SecondsPerHour;
    } else {
      assert (t + SecondsPerHour) % SecondsPerDay == r + SecondsPerHour - SecondsPerDay;
    }
  }

  /** The epoch falls on Thursday 1 January, 00:00. */
  lemma EpochIsThursdayInJanuary()
    ensures DayOfWeek(0) == 3 && HourOf(0) == 0 && MonthOf(0) == 1
  {
  }
}
