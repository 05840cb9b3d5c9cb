/** The earlier daily aggregations: the legacy diaper loop of
    agenoria/plot_daily_charts.py and the whole-second sleep loop shared by
    agenoria/plot_daily_charts.py and agenoria/plot_sleep_feeding_charts.py.
    Their feeding loops and `combine_bottle_solid` are
    `FeedingStats.ParseFeedingBasics` and `FeedingStats.CombineBottleSolid`. */
module LegacyDaily {
  import opened Outcomes
  import opened Clock
  import opened Seqs
  import opened Sorting
  import opened Grouping
  import opened DiaperCharts
  import opened SleepStats

  // Diaper --------------------------------------------------------------

  /** One row of the legacy daily diaper table; `cumulative` is the never
      reset `total_diaper_count`. */
  datatype LegacyDiaperDay = LegacyDiaperDay(date: int, cumulative: nat, pee: nat, poop: nat)

  /** The legacy classifier: "pee" and "poo" count once; every other value,
      an empty cell included, counts as both. */
  function LegacyPeePoop(key: Option<string>): (r: (nat, nat))
    ensures r.0 == 1 <==> key != Some("poo")
    ensures r.1 == 1 <==> key != Some("pee")
    ensures r.0 + r.1 >= 1
  {
    if key == Some("pee") then (1, 0)
    else if key == Some("poo") then (0, 1)
    else (1, 1)
  }

  /** The legacy classifier counts at least what the current one does, and
      differs from it exactly on empty cells and on values other than the
      three known ones. */
  lemma {:induction false} LegacyCountsAtLeastCurrent(key: Option<string>)
    ensures CountPeePoop(key).0 <= LegacyPeePoop(key).0
    ensures CountPeePoop(key).1 <= LegacyPeePoop(key).1
    ensures CountPeePoop(key) != LegacyPeePoop(key)
        <==> key.None? || key !in {Some("pee"), Some("poo"), Some("pee and poo")}
  {
  }

  function LegacyPees(rows: seq<DiaperEvent>): nat
  {
    if |rows| == 0 then 0 else LegacyPeePoop(rows[0].contents).0 + LegacyPees(rows[1..])
  }

  function LegacyPoops(rows: seq<DiaperEvent>): nat
  {
    if |rows| == 0 then 0 else LegacyPeePoop(rows[0].contents).1 + LegacyPoops(rows[1..])
  }

  /** A change counts as a legacy pee unless it is "poo", and as a legacy
      poop unless it is "pee". */
  predicate LegacyPee(e: DiaperEvent)
  {
    e.contents != Some("poo")
  }

  predicate LegacyPoop(e: DiaperEvent)
  {
    e.contents != Some("pee")
  }

  /** The legacy pee count is the number of changes that are not "poo",
      and the poop count the number that are not "pee": empty cells and
      unknown values are in both. */
  lemma {:induction false} LegacyCountsAreFilters(rows: seq<DiaperEvent>)
    ensures LegacyPees(rows) == |Filter(rows, LegacyPee)|
    ensures LegacyPoops(rows) == |Filter(rows, LegacyPoop)|
  {
    if |rows| > 0 {
      LegacyCountsAreFilters(rows[1..]);
    }
  }

  /** Every change adds to the pee count, the poop count or both. */
  lemma {:induction false} LegacyCountsCoverRows(rows: seq<DiaperEvent>)
    ensures |rows| <= LegacyPees(rows) + LegacyPoops(rows) <= 2 * |rows|
  {
    if |rows| > 0 {
      LegacyCountsCoverRows(rows[1..]);
    }
  }

  /** The legacy loop over start..end. */
  function LegacyDiaperSeries(events: seq<DiaperEvent>, start: int, end: int): (r: seq<LegacyDiaperDay>)
    ensures |r| == if start <= end then end - start + 1 else 0
  {
    var n := if start <= end then end - start + 1 else 0;
    seq(n, i requires 0 <= i < n =>
      var rows := Select(events, EventDate, start + i);
      LegacyDiaperDay(start + i, LoggedThrough(events, start, i + 1), LegacyPees(rows), LegacyPoops(rows)))
  }

  /** Legacy `parse_glow_diaper_data`: the range runs from the last row's
      date to the first row's date of the file as read. The result frame
      is only bound inside the loop, so an empty range fails, and an empty
      file has no last row. */
  function ParseLegacyDiaperData(events: seq<DiaperEvent>): (r: Result<seq<LegacyDiaperDay>>)
    ensures |events| == 0 <==> r == Fail(NoRows)
    ensures |events| > 0 && EventDate(events[|events| - 1]) > EventDate(events[0]) <==> r == Fail(EmptyRange)
    ensures r.Ok? ==> |r.value| > 0
    ensures r.Ok? ==> r.value == LegacyDiaperSeries(events, EventDate(events[|events| - 1]), EventDate(events[0]))
  {
    if |events| == 0 then Fail(NoRows)
    else
      var start, end := EventDate(events[|events| - 1]), EventDate(events[0]);
      if start > end then Fail(EmptyRange)
      else Ok(LegacyDiaperSeries(events, start, end))
  }

  /** The legacy cumulative column counts the changes of every day up to
      and including the row's, so it never decreases. */
  lemma {:induction false} LegacyCumulativeNonDecreasing(events: seq<DiaperEvent>)
    requires ParseLegacyDiaperData(events).Ok?
    ensures var days := ParseLegacyDiaperData(events).value;
      && (forall i :: 0 <= i < |days| ==> days[i].date == EventDate(events[|events| - 1]) + i)
      && (forall i, j :: 0 <= i <= j < |days| ==> days[i].cumulative <= days[j].cumulative)
  {
    var start, end := EventDate(events[|events| - 1]), EventDate(events[0]);
    LegacySeriesCumulative(events, start, end);
  }

  lemma {:induction false} LegacySeriesCumulative(events: seq<DiaperEvent>, start: int, end: int)
    ensures var days := LegacyDiaperSeries(events, start, end);
      && (forall i :: 0 <= i < |days| ==> days[i].date == start + i)
      && (forall i, j :: 0 <= i <= j < |days| ==> days[i].cumulative <= days[j].cumulative)
  {
    var days := LegacyDiaperSeries(events, start, end);
    forall i, j | 0 <= i <= j < |days| ensures days[i].cumulative <= days[j].cumulative {
      LoggedThroughMonotone(events, start, i + 1, j + 1);
    }
  }

  lemma {:induction false} LegacyDiaperRow(events: seq<DiaperEvent>, start: int, end: int, i: int)
    requires 0 <= i < |LegacyDiaperSeries(events, start, end)|
    ensures LegacyDiaperSeries(events, start, end)[i].date == start + i
    ensures LegacyDiaperSeries(events, start, end)[i].cumulative == LoggedThrough(events, start, i + 1)
    ensures LegacyDiaperSeries(events, start, end)[i].pee == |Filter(Select(events, EventDate, start + i), LegacyPee)|
    ensures LegacyDiaperSeries(events, start, end)[i].poop == |Filter(Select(events, EventDate, start + i), LegacyPoop)|
  {
    LegacyCountsAreFilters(Select(events, EventDate, start + i));
  }

  lemma {:induction false} LoggedThroughMonotone(events: seq<DiaperEvent>, start: int, m: nat, n: nat)
    requires m <= n
    ensures LoggedThrough(events, start, m) <= LoggedThrough(events, start, n)
    decreases n - m
  {
    if m < n {
      LoggedThroughMonotone(events, start, m, n - 1);
    }
  }

  // Sleep ----------------------------------------------------------------

  /** One row of the whole-second daily sleep table: totals are floored to
      whole hours; a missing awake gap is NaN. */
  datatype LegacySleepDay = LegacySleepDay(
    date: int,
    naps: nat,
    totalHours: int,
    longestHours: int,
    maxAwakeHours: Option<int>)

  /** Sessions of at most two minutes (120 seconds) are left out of the
      awake gaps only. */
  const LEGACY_THRESHOLD_SECONDS: int := 120

  /** End - Begin in whole seconds. */
  function Elapsed(s: SleepSession): int
  {
    Instant(s.end) - Instant(s.begin)
  }

  /** A nap begins strictly after 07:00:00 and strictly before 19:00:00. */
  predicate LegacyNap(s: SleepSession)
  {
    7 * 3600 < s.begin.second < 19 * 3600
  }

  predicate LongerThanThreshold(s: SleepSession)
  {
    Elapsed(s) > LEGACY_THRESHOLD_SECONDS
  }

  function ElapsedSum(rows: seq<SleepSession>): int
  {
    if |rows| == 0 then 0 else Elapsed(rows[0]) + ElapsedSum(rows[1..])
  }

  function ElapsedMax(rows: seq<SleepSession>): (r: int)
    requires |rows| > 0
    ensures forall i :: 0 <= i < |rows| ==> Elapsed(rows[i]) <= r
    ensures exists i :: 0 <= i < |rows| && Elapsed(rows[i]) == r
  {
    if |rows| == 1 then Elapsed(rows[0])
    else
      var m := ElapsedMax(rows[1..]);
      assert forall i :: 1 <= i < |rows| ==> rows[i] == rows[1..][i - 1];
      if Elapsed(rows[0]) >= m then Elapsed(rows[0]) else m
  }

  /** Begin of each kept session minus End of the next (older) one, in
      seconds. */
  function LegacyAwakeGaps(kept: seq<SleepSession>): (r: seq<int>)
    ensures |r| == if |kept| < 2 then 0 else |kept| - 1
    ensures forall i {:trigger r[i]} :: 0 <= i < |r| ==> r[i] == Instant(kept[i].begin) - Instant(kept[i + 1].end)
  {
    if |kept| < 2 then []
    else seq(|kept| - 1, i requires 0 <= i < |kept| - 1 => Instant(kept[i].begin) - Instant(kept[i + 1].end))
  }

  /** `max()` of whole seconds: the maximum of the same values as reals. */
  function IntMax(s: seq<int>): (r: int)
    requires |s| > 0
    ensures forall i :: 0 <= i < |s| ==> s[i] <= r
    ensures exists i :: 0 <= i < |s| && s[i] == r
  {
    var asReals := seq(|s|, i requires 0 <= i < |s| => s[i] as real);
    var m := Max(asReals);
    assert exists i :: 0 <= i < |s| && asReals[i] == m;
    assert forall i :: 0 <= i < |s| && asReals[i] == m ==> m.Floor == s[i];
    assert forall i :: 0 <= i < |s| ==> asReals[i] <= m;
    m.Floor
  }

  /** Python's `//` by 3600 on whole seconds: the floor, also for negative
      values. */
  function FloorHours(seconds: int): (h: int)
    ensures h * 3600 <= seconds < (h + 1) * 3600
  {
    seconds / 3600
  }

  /** What a day carries into the next: the seconds past midnight of the
      latest-beginning session's end, when that session ends on a later
      date; otherwise nothing. */
  function LegacyCarryOut(rows: seq<SleepSession>): (r: int)
    requires |rows| > 0
    ensures 0 <= r < 86400
    ensures rows[0].end.day > rows[0].begin.day ==> r == SecondsPastMidnight(rows[0].end)
    ensures rows[0].end.day <= rows[0].begin.day ==> r == 0
  {
    if rows[0].end.day > rows[0].begin.day then SecondsPastMidnight(rows[0].end) else 0
  }

  /** The part carried out never exceeds the session it comes from when
      that session ends on the next day. */
  lemma {:induction false} CarryWithinSession(rows: seq<SleepSession>)
    requires |rows| > 0 && rows[0].end.day == rows[0].begin.day + 1
    ensures 0 <= LegacyCarryOut(rows) <= Elapsed(rows[0])
  {
  }

  /** The day's sleep in seconds before flooring: all sessions, plus what
      the previous day carried in, minus what this day carries out. */
  function LegacyDaySeconds(rows: seq<SleepSession>, carried: int): int
    requires |rows| > 0
  {
    ElapsedSum(rows) + carried - LegacyCarryOut(rows)
  }

  /** One row, from the day's sessions sorted newest first. */
  function SummarizeLegacySleepDay(rows: seq<SleepSession>, d: int, carried: int): (r: LegacySleepDay)
    requires |rows| > 0
    ensures r.date == d
    ensures r.naps == |Filter(rows, LegacyNap)| && r.naps <= |rows|
    ensures r.totalHours * 3600 <= LegacyDaySeconds(rows, carried) < (r.totalHours + 1) * 3600
    ensures forall i :: 0 <= i < |rows| ==> Elapsed(rows[i]) < (r.longestHours + 1) * 3600
    ensures exists i :: 0 <= i < |rows| && r.longestHours * 3600 <= Elapsed(rows[i]) < (r.longestHours + 1) * 3600
    ensures r.maxAwakeHours.None? <==> |Filter(rows, LongerThanThreshold)| < 2
    ensures r.maxAwakeHours.Some? ==>
      var gaps := LegacyAwakeGaps(Filter(rows, LongerThanThreshold));
      && (forall i :: 0 <= i < |gaps| ==> gaps[i] < (r.maxAwakeHours.value + 1) * 3600)
      && (exists i :: 0 <= i < |gaps| && r.maxAwakeHours.value * 3600 <= gaps[i] < (r.maxAwakeHours.value + 1) * 3600)
  {
    var naps := Filter(rows, LegacyNap);
    var kept := Filter(rows, LongerThanThreshold);
    var gaps := LegacyAwakeGaps(kept);
    var longest := ElapsedMax(rows);
    LegacySleepDay(d, |naps|, FloorHours(LegacyDaySeconds(rows, carried)), FloorHours(longest),
                   if |gaps| == 0 then None else Some(FloorHours(IntMax(gaps))))
  }

  /** The day's sessions, newest first. */
  function LegacyDayRows(sessions: seq<SleepSession>, d: int): (r: seq<SleepSession>)
    ensures |r| == Occurrences(sessions, SessionDate, d)
  {
    SortBy(Select(sessions, SessionDate, d), NegBegin)
  }

  function LegacyCarryInto(sessions: seq<SleepSession>, start: int, i: nat): int
    requires i > 0 ==> Occurrences(sessions, SessionDate, start + i - 1) > 0
  {
    if i == 0 then 0 else LegacyCarryOut(LegacyDayRows(sessions, start + i - 1))
  }

  /** The whole-second loop over start..end, given that no day is empty. */
  function LegacySleepSeries(sessions: seq<SleepSession>, start: int, end: int): (r: seq<LegacySleepDay>)
    requires FirstEmptyDay(sessions, SessionDate, start, end).None?
    ensures |r| == if start <= end then end - start + 1 else 0
  {
    var n := if start <= end then end - start + 1 else 0;
    seq(n, i requires 0 <= i < n =>
      assert Occurrences(sessions, SessionDate, start + i) > 0;
      assert i > 0 ==> Occurrences(sessions, SessionDate, start + i - 1) > 0;
      SummarizeLegacySleepDay(LegacyDayRows(sessions, start + i), start + i, LegacyCarryInto(sessions, start, i)))
  }

  /** `parse_glow_sleep_data` of agenoria/plot_daily_charts.py and
      agenoria/plot_sleep_feeding_charts.py: the range runs from the last
      row's date to the first row's date; the loop stops with an error on
      the first day without a session, and an empty file has no last row. */
  function ParseLegacySleepData(sessions: seq<SleepSession>): (r: Result<seq<LegacySleepDay>>)
    ensures |sessions| == 0 <==> r == Fail(NoRows)
    ensures |sessions| > 0 ==>
      var start, end := SessionDate(sessions[|sessions| - 1]), SessionDate(sessions[0]);
      && (r.Ok? ==> forall k :: start <= k <= end ==> Occurrences(sessions, SessionDate, k) > 0)
      && (r.Fail? ==> !forall k :: start <= k <= end ==> Occurrences(sessions, SessionDate, k) > 0)
      && (r.Fail? ==> r.failure.EmptyDay? && start <= r.failure.day <= end
                      && Occurrences(sessions, SessionDate, r.failure.day) == 0)
      && (r.Ok? ==> r.value == LegacySleepSeries(sessions, start, end))
  {
    if |sessions| == 0 then Fail(NoRows)
    else
      var start, end := SessionDate(sessions[|sessions| - 1]), SessionDate(sessions[0]);
      match FirstEmptyDay(sessions, SessionDate, start, end)
      case Some(d) => Fail(EmptyDay(d))
      case None => Ok(LegacySleepSeries(sessions, start, end))
  }

  lemma {:induction false} LegacySleepRow(sessions: seq<SleepSession>, start: int, end: int, i: int)
    requires FirstEmptyDay(sessions, SessionDate, start, end).None?
    requires 0 <= i < |LegacySleepSeries(sessions, start, end)|
    ensures Occurrences(sessions, SessionDate, start + i) > 0
    ensures i > 0 ==> Occurrences(sessions, SessionDate, start + i - 1) > 0
    ensures LegacySleepSeries(sessions, start, end)[i].date == start + i
    ensures var day := LegacySleepSeries(sessions, start, end)[i];
      day.totalHours * 3600
        <= LegacyDaySeconds(LegacyDayRows(sessions, start + i), LegacyCarryInto(sessions, start, i))
        < (day.totalHours + 1) * 3600
  {
    assert start <= start + i <= end;
    assert i > 0 ==> start <= start + i - 1 <= end;
  }

  /** The unfloored seconds of the first n days. */
  function SecondsThrough(sessions: seq<SleepSession>, start: int, n: nat): int
    requires forall k :: start <= k < start + n ==> Occurrences(sessions, SessionDate, k) > 0
  {
    if n == 0 then 0
    else
      assert Occurrences(sessions, SessionDate, start + n - 1) > 0;
      SecondsThrough(sessions, start, n - 1)
        + LegacyDaySeconds(LegacyDayRows(sessions, start + n - 1), LegacyCarryInto(sessions, start, n - 1))
  }

  /** Elapsed seconds of all sessions of the first n days. */
  function ElapsedThrough(sessions: seq<SleepSession>, start: int, n: nat): int
  {
    if n == 0 then 0
    else ElapsedThrough(sessions, start, n - 1) + ElapsedSum(LegacyDayRows(sessions, start + n - 1))
  }

  /** The carry added to a day is exactly what the day before subtracted,
      so over the first n days the unfloored totals are the elapsed time of
      their sessions minus what the n-th day carries out. */
  lemma {:induction false} LegacyCarryTelescopes(sessions: seq<SleepSession>, start: int, n: nat)
    requires n >= 1
    requires forall k :: start <= k < start + n ==> Occurrences(sessions, SessionDate, k) > 0
    ensures SecondsThrough(sessions, start, n)
         == ElapsedThrough(sessions, start, n) - LegacyCarryOut(LegacyDayRows(sessions, start + n - 1))
  {
    var rows := LegacyDayRows(sessions, start + n - 1);
    assert Occurrences(sessions, SessionDate, start + n - 1) > 0;
    var out := LegacyCarryOut(rows);
    var carried := LegacyCarryInto(sessions, start, n - 1);
    assert SecondsThrough(sessions, start, n)
        == SecondsThrough(sessions, start, n - 1) + (ElapsedSum(rows) + carried - out);
    assert ElapsedThrough(sessions, start, n) == ElapsedThrough(sessions, start, n - 1) + ElapsedSum(rows);
    if n == 1 {
      assert carried == 0;
      assert SecondsThrough(sessions, start, 0) == 0;
      assert ElapsedThrough(sessions, start, 0) == 0;
      assert SecondsThrough(sessions, start, n) == ElapsedThrough(sessions, start, n) - out;
    } else {
      LegacyCarryTelescopes(sessions, start, n - 1);
      assert carried == LegacyCarryOut(LegacyDayRows(sessions, start + n - 2));
      assert SecondsThrough(sessions, start, n) == ElapsedThrough(sessions, start, n) - out;
    }
  }

  /** Every row of a successful run floors the unfloored seconds of its
      day, so the first n rows' hours are within n hours below the
      telescoped total. */
  lemma {:induction false} LegacyTotalsFloor(sessions: seq<SleepSession>, i: int)
    requires ParseLegacySleepData(sessions).Ok?
    requires 0 <= i < |ParseLegacySleepData(sessions).value|
    ensures var start := SessionDate(sessions[|sessions| - 1]);
      var day := ParseLegacySleepData(sessions).value[i];
      && day.date == start + i
      && day.totalHours * 3600
         <= LegacyDaySeconds(LegacyDayRows(sessions, start + i), LegacyCarryInto(sessions, start, i))
         < (day.totalHours + 1) * 3600
  {
    var start, end := SessionDate(sessions[|sessions| - 1]), SessionDate(sessions[0]);
    LegacySleepRow(sessions, start, end, i);
  }
}
