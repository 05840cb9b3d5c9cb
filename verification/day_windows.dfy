/** The daytime and nighttime windows that split feedings and select naps
    (agenoria/parse_config.py). */
module DayWindows {
  import opened Clock

  /** `get_daytime_index`: 07:00 <= t < 20:00, by clock hour only. */
  predicate Daytime(t: Timestamp): (b: bool)
    ensures b <==> 7 * 3600 <= t.second < 20 * 3600
  {
    DaytimeHour(Hour(t))
  }

  /** `get_nighttime_index`: t < 07:00 or t >= 21:00, by clock hour only. */
  predicate Nighttime(t: Timestamp): (b: bool)
    ensures b <==> t.second < 7 * 3600 || t.second >= 21 * 3600
  {
    NighttimeHour(Hour(t))
  }

  predicate DaytimeHour(h: int)
  {
    7 <= h < 20
  }

  predicate NighttimeHour(h: int)
  {
    h < 7 || h >= 21
  }

  /** No timestamp is both daytime and nighttime. */
  lemma {:induction false} WindowsDisjoint(t: Timestamp)
    ensures !(Daytime(t) && Nighttime(t))
  {
  }

  /** Exactly the 20:00-20:59 hour falls in neither window, so the windows
      do not cover the day. */
  lemma {:induction false} EightPmIsUncovered(t: Timestamp)
    ensures !Daytime(t) && !Nighttime(t) <==> Hour(t) == 20
  {
  }

  /** Only the clock hour matters: date, minutes and seconds do not. */
  lemma {:induction false} WindowsDependOnHourOnly(a: Timestamp, b: Timestamp)
    requires Hour(a) == Hour(b)
    ensures Daytime(a) <==> Daytime(b)
    ensures Nighttime(a) <==> Nighttime(b)
  {
  }

  /** Number of hours h in from..23 that the window contains. */
  function HoursCovered(from: nat, window: int -> bool): nat
    decreases 24 - from
  {
    if from >= 24 then 0
    else (if window(from) then 1 else 0) + HoursCovered(from + 1, window)
  }

  /** Daytime spans 13 clock hours, nighttime 10, and one hour is left. */
  lemma {:induction false} WindowSizes()
    ensures HoursCovered(0, DaytimeHour) == 13
    ensures HoursCovered(0, NighttimeHour) == 10
  {
    DaytimeHoursFrom(0);
    NighttimeHoursFrom(0);
  }

  lemma {:induction false} DaytimeHoursFrom(from: nat)
    ensures HoursCovered(from, DaytimeHour)
         == if from <= 7 then 13 else if from <= 20 then 20 - from else 0
    decreases 24 - from
  {
    if from < 24 {
      DaytimeHoursFrom(from + 1);
    }
  }

  lemma {:induction false} NighttimeHoursFrom(from: nat)
    ensures HoursCovered(from, NighttimeHour)
         == if from <= 7 then 10 - from else if from <= 21 then 3 else if from <= 24 then 24 - from else 0
    decreases 24 - from
  {
    if from < 24 {
      NighttimeHoursFrom(from + 1);
    }
  }
}
