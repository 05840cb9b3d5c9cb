/** Parsed timestamps, the calendar-day key and the calendar month key. */
module Clock {

  /** A second of the day: 86400 seconds, 3600 to the hour. */
  type SecondOfDay = s: int | 0 <= s < 86400

  /** A parsed timestamp: the day number (days since 1970-01-01) and the
      second within that day. */
  datatype Timestamp = Timestamp(day: int, second: SecondOfDay)

  /** `t.dt.hour` */
  function Hour(t: Timestamp): (h: int)
    ensures 0 <= h < 24
    ensures h * 3600 <= t.second < (h + 1) * 3600
  {
    t.second / 3600
  }

  /** `t.dt.minute` */
  function Minute(t: Timestamp): (m: int)
    ensures 0 <= m < 60
    ensures Hour(t) * 3600 + m * 60 <= t.second < Hour(t) * 3600 + (m + 1) * 60
  {
    t.second % 3600 / 60
  }

  /** `t.dt.hour + t.dt.minute / 60`: the clock time in decimal hours, with
      the seconds dropped. */
  function DecimalHour(t: Timestamp): (r: real)
    ensures Hour(t) as real <= r < (Hour(t) + 1) as real
    ensures 0.0 <= r < 24.0
  {
    Hour(t) as real + Minute(t) as real / 60.0
  }

  /** Dropping the seconds never moves the clock time forward. */
  lemma {:induction false} DecimalHourAtMost(t: Timestamp)
    ensures DecimalHour(t) <= t.second as real / 3600.0
  {
    var h, m := Hour(t), Minute(t);
    assert (h * 3600 + m * 60) as real <= t.second as real;
    assert DecimalHour(t) == (h * 3600 + m * 60) as real / 3600.0;
  }

  /** Seconds since 1970-01-01 00:00: the total order on timestamps. */
  function Instant(t: Timestamp): int
  {
    t.day * 86400 + t.second
  }

  /** A later calendar day is a later instant, whatever the time of day. */
  lemma {:induction false} LaterDayIsLaterInstant(a: Timestamp, b: Timestamp)
    requires a.day < b.day
    ensures Instant(a) < Instant(b)
  {
    assert b.day * 86400 >= (a.day + 1) * 86400;
  }

  /** `(b - a) / np.timedelta64(1, "h")`: elapsed time in hours. */
  function HoursBetween(a: Timestamp, b: Timestamp): real
  {
    (Instant(b) - Instant(a)) as real / 3600.0
  }

  /** `(b - b.replace(hour=0, minute=0, second=0)).total_seconds()` */
  function SecondsPastMidnight(t: Timestamp): int
  {
    t.second
  }

  // Calendar months -------------------------------------------------------

  datatype CivilDate = CivilDate(year: int, month: int, dayOfMonth: int)

  /** Proleptic Gregorian date of a day number (days since 1970-01-01),
      computed with 400-year eras. */
  function CivilFromDays(dayNumber: int): CivilDate
  {
    var z := dayNumber + 719468;
    var era := z / 146097;
    var doe := z - era * 146097;
    var yoe := (doe - doe / 1460 + doe / 36524 - doe / 146096) / 365;
    var y := yoe + era * 400;
    var doy := doe - (365 * yoe + yoe / 4 - yoe / 100);
    var mp := (5 * doy + 2) / 153;
    var d := doy - (153 * mp + 2) / 5 + 1;
    var m := if mp < 10 then mp + 3 else mp - 9;
    CivilDate(if m <= 2 then y + 1 else y, m, d)
  }

  /** The calendar-month key of a day: months since year 0. Two days share a
      key exactly when they share year and month. */
  function MonthOf(dayNumber: int): int
  {
    var c := CivilFromDays(dayNumber);
    c.year * 12 + (c.month - 1)
  }
}
