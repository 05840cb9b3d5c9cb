/** Daily sleep statistics in fractional hours
    (agenoria/plot_sleep_stats_charts.py): totals with the midnight
    carry-over, longest session, longest awake gap, naps and night sleep. */
module SleepStats {
  import opened Outcomes
  import opened Clock
  import opened Seqs
  import opened Sorting
  import opened Grouping
  import opened DayWindows

  /** Sessions of at most this many hours (two minutes, rounded) are noise. */
  const SLEEP_THRESHOLD: real := 0.0333333

  /** One logged sleep session. */
  datatype SleepSession = SleepSession(begin: Timestamp, end: Timestamp)

  /** One row of the daily table. */
  datatype SleepDay = SleepDay(
    date: int,
    napSessions: nat,
    total: real,
    napDuration: real,
    nightDuration: real,
    longest: Option<real>,
    maxAwake: Option<real>)

  /** The "Date" column: the calendar day of the session's beginning. */
  function SessionDate(s: SleepSession): int
  {
    s.begin.day
  }

  /** Sort key for `sort_values(["Begin time"], ascending=False)`. */
  function NegBegin(s: SleepSession): int
  {
    -Instant(s.begin)
  }

  /** The "duration" column: End - Begin in hours. */
  function Duration(s: SleepSession): real
  {
    HoursBetween(s.begin, s.end)
  }

  /** A session longer than the threshold. */
  predicate Kept(s: SleepSession)
  {
    Duration(s) > SLEEP_THRESHOLD
  }

  /** The duration of a kept session, zero for a dropped one. */
  function KeptDuration(s: SleepSession): real
  {
    if Kept(s) then Duration(s) else 0.0
  }

  /** The session ends on a later calendar day than its "Date". */
  predicate CrossesMidnight(s: SleepSession)
  {
    s.end.day > SessionDate(s)
  }

  /** The "offset" column: the end's clock time in decimal hours for a
      session that crosses midnight; the missing value of the others counts
      as zero in the day's sum. */
  function Offset(s: SleepSession): (r: real)
    ensures 0.0 <= r < 24.0
    ensures CrossesMidnight(s) ==> r == DecimalHour(s.end)
    ensures !CrossesMidnight(s) ==> r == 0.0
  {
    if CrossesMidnight(s) then DecimalHour(s.end) else 0.0
  }

  /** The part of an overnight session carried into the next day never
      exceeds the session itself. */
  lemma {:induction false} OffsetWithinSession(s: SleepSession)
    requires s.end.day == s.begin.day + 1
    ensures 0.0 <= Offset(s) <= Duration(s)
  {
    DecimalHourAtMost(s.end);
    assert Instant(s.end) - Instant(s.begin) >= s.end.second;
  }

  /** `rows_on_date["offset"].sum()`: what a day carries into the next. */
  function Carry(rows: seq<SleepSession>): real
  {
    Total(rows, Offset)
  }

  /** A nap of day d: a kept session that ends on d and begins and ends in
      the daytime window. */
  predicate NapOn(d: int, s: SleepSession)
  {
    Kept(s) && s.end.day == d && Daytime(s.begin) && Daytime(s.end)
  }

  /** The `nap_rows` of day d, in table order. */
  function Naps(rows: seq<SleepSession>, d: int): (r: seq<SleepSession>)
    ensures forall s :: s in r <==> s in rows && NapOn(d, s)
  {
    var r := Filter(rows, s => NapOn(d, s));
    assert forall s :: s in r <==> s in rows && NapOn(d, s) by {
      forall s
        ensures s in r <==> s in rows && NapOn(d, s)
      {
        FilterMembership(rows, s => NapOn(d, s), s);
      }
    }
    r
  }

  function Durations(rows: seq<SleepSession>): (r: seq<real>)
    ensures |r| == |rows|
    ensures forall i :: 0 <= i < |r| ==> r[i] == Duration(rows[i])
  {
    seq(|rows|, i requires 0 <= i < |rows| => Duration(rows[i]))
  }

  /** Begin of each kept session minus End of the next (older) one. */
  function AwakeGaps(kept: seq<SleepSession>): (r: seq<real>)
    ensures |r| == if |kept| < 2 then 0 else |kept| - 1
    ensures forall i {:trigger r[i]} :: 0 <= i < |r| ==> r[i] == HoursBetween(kept[i + 1].end, kept[i].begin)
  {
    if |kept| < 2 then []
    else seq(|kept| - 1, i requires 0 <= i < |kept| - 1 => HoursBetween(kept[i + 1].end, kept[i].begin))
  }

  /** One daily row, from that day's sessions (newest first) and the carry
      of the day before. */
  function SummarizeSleepDay(rows: seq<SleepSession>, d: int, carried: real): SleepDay
  {
    var kept := Filter(rows, Kept);
    var naps := Naps(rows, d);
    var total := Total(kept, Duration) + carried - Carry(rows);
    var napDuration := Total(naps, Duration);
    var gaps := AwakeGaps(kept);
    SleepDay(d, |naps|, total, napDuration, total - napDuration,
             MaxOpt(Durations(rows)), MaxOpt(gaps))
  }

  /** A daily row is dated with its day; its total is the kept sleep plus
      what the day before carried in minus what this day carries out; its
      naps are the kept sessions that end on the day and begin and end in
      the daytime window, counted and summed; and the total splits into nap
      and night sleep, with no more naps, and no more nap hours, than kept
      sessions. */
  lemma {:induction false} SleepDayTotals(rows: seq<SleepSession>, d: int, carried: real)
    ensures var r := SummarizeSleepDay(rows, d, carried);
      && r.date == d
      && r.total == Total(Filter(rows, Kept), Duration) + carried - Carry(rows)
      && r.napSessions == |Naps(rows, d)|
      && r.napDuration == Total(Naps(rows, d), Duration)
      && (forall s :: s in Naps(rows, d) <==> s in rows && Kept(s) && s.end.day == d && Daytime(s.begin) && Daytime(s.end))
      && r.napDuration + r.nightDuration == r.total
      && r.napSessions <= |Filter(rows, Kept)|
      && 0.0 <= r.napDuration <= Total(Filter(rows, Kept), Duration)
  {
    NapBounds(rows, d);
  }

  /** The longest session is the duration of one of the day's sessions,
      dropped ones included, and bounds them all; the longest awake gap is
      one of the gaps between consecutive kept sessions and bounds them all;
      each is missing exactly when there is nothing to measure. */
  lemma {:induction false} SleepDayExtremes(rows: seq<SleepSession>, d: int, carried: real)
    ensures var r := SummarizeSleepDay(rows, d, carried);
      && (r.longest.None? <==> |rows| == 0)
      && (r.longest.Some? ==> forall i :: 0 <= i < |rows| ==> Duration(rows[i]) <= r.longest.value)
      && (r.longest.Some? ==> exists i :: 0 <= i < |rows| && Duration(rows[i]) == r.longest.value)
      && (r.maxAwake.None? <==> |Filter(rows, Kept)| < 2)
      && (r.maxAwake.Some? ==>
            var kept := Filter(rows, Kept);
            forall i :: 0 <= i < |kept| - 1 ==> HoursBetween(kept[i + 1].end, kept[i].begin) <= r.maxAwake.value)
      && (r.maxAwake.Some? ==>
            var kept := Filter(rows, Kept);
            exists i :: 0 <= i < |kept| - 1 && HoursBetween(kept[i + 1].end, kept[i].begin) == r.maxAwake.value)
  {
    var r := SummarizeSleepDay(rows, d, carried);
    var kept := Filter(rows, Kept);
    assert r.longest == MaxOpt(Durations(rows));
    assert r.maxAwake == MaxOpt(AwakeGaps(kept));
    LongestBounds(rows);
    MaxAwakeBounds(kept);
  }

  lemma {:induction false} LongestBounds(rows: seq<SleepSession>)
    ensures var m := MaxOpt(Durations(rows));
      && (m.None? <==> |rows| == 0)
      && (m.Some? ==> forall i :: 0 <= i < |rows| ==> Duration(rows[i]) <= m.value)
      && (m.Some? ==> exists i :: 0 <= i < |rows| && Duration(rows[i]) == m.value)
  {
    var ds := Durations(rows);
    var m := MaxOpt(ds);
    if m.Some? {
      var j :| 0 <= j < |ds| && ds[j] == m.value;
      assert Duration(rows[j]) == m.value;
      forall i | 0 <= i < |rows|
        ensures Duration(rows[i]) <= m.value
      {
        assert ds[i] == Duration(rows[i]);
      }
    }
  }

  lemma {:induction false} MaxAwakeBounds(kept: seq<SleepSession>)
    ensures var m := MaxOpt(AwakeGaps(kept));
      && (m.None? <==> |kept| < 2)
      && (m.Some? ==> forall i :: 0 <= i < |kept| - 1 ==> HoursBetween(kept[i + 1].end, kept[i].begin) <= m.value)
      && (m.Some? ==> exists i :: 0 <= i < |kept| - 1 && HoursBetween(kept[i + 1].end, kept[i].begin) == m.value)
  {
    var gaps := AwakeGaps(kept);
    var m := MaxOpt(gaps);
    if m.Some? {
      var j :| 0 <= j < |gaps| && gaps[j] == m.value;
      assert HoursBetween(kept[j + 1].end, kept[j].begin) == m.value;
      forall i | 0 <= i < |kept| - 1
        ensures HoursBetween(kept[i + 1].end, kept[i].begin) <= m.value
      {
        assert gaps[i] == HoursBetween(kept[i + 1].end, kept[i].begin);
      }
    }
  }

  /** Naps are kept sessions: no more of them, and no more hours, than the
      kept sessions of the day. */
  lemma {:induction false} NapBounds(rows: seq<SleepSession>, d: int)
    ensures |Naps(rows, d)| <= |Filter(rows, Kept)|
    ensures 0.0 <= Total(Naps(rows, d), Duration) <= Total(Filter(rows, Kept), Duration)
  {
    var nap := s => NapOn(d, s);
    var napMasked := s => if NapOn(d, s) then Duration(s) else 0.0;
    FilterCountMonotone(rows, nap, Kept);
    FilterTotal(rows, nap, Duration, napMasked);
    FilterTotal(rows, Kept, Duration, KeptDuration);
    TotalMonotone(rows, napMasked, KeptDuration);
    TotalMonotone(rows, s => 0.0, napMasked);
    ZeroTotal(rows);
  }

  lemma {:induction false} ZeroTotal(rows: seq<SleepSession>)
    ensures Total(rows, s => 0.0) == 0.0
  {
    if |rows| > 0 {
      ZeroTotal(rows[1..]);
    }
  }

  /** What day `start + i` receives from the day before; nothing on the
      first day. */
  function CarryInto(sorted: seq<SleepSession>, start: int, i: nat): real
  {
    if i == 0 then 0.0 else Carry(Select(sorted, SessionDate, start + i - 1))
  }

  /** The loop over start..end: row i summarizes day start + i. */
  function SleepSeries(sorted: seq<SleepSession>, start: int, end: int): (r: seq<SleepDay>)
    ensures |r| == if start <= end then end - start + 1 else 0
  {
    var n := if start <= end then end - start + 1 else 0;
    seq(n, i requires 0 <= i < n =>
      SummarizeSleepDay(Select(sorted, SessionDate, start + i), start + i, CarryInto(sorted, start, i)))
  }

  lemma {:induction false} SleepSeriesRow(sorted: seq<SleepSession>, start: int, end: int, i: int)
    requires 0 <= i < |SleepSeries(sorted, start, end)|
    ensures SleepSeries(sorted, start, end)[i]
         == SummarizeSleepDay(Select(sorted, SessionDate, start + i), start + i, CarryInto(sorted, start, i))
  {
  }

  /** `parse_glow_sleep_data`: the range runs from the last row's date to
      the first row's date of the table as given; the sessions are then
      sorted newest first. An empty table has no last row. */
  function ParseGlowSleepData(sessions: seq<SleepSession>): (r: Result<seq<SleepDay>>)
    ensures r.Fail? <==> |sessions| == 0
    ensures r.Fail? ==> r.failure == NoRows
    ensures r.Ok? ==>
      r.value == SleepSeries(SortBy(sessions, NegBegin), SessionDate(sessions[|sessions| - 1]), SessionDate(sessions[0]))
  {
    if |sessions| == 0 then Fail(NoRows)
    else
      var start, end := SessionDate(sessions[|sessions| - 1]), SessionDate(sessions[0]);
      Ok(SleepSeries(SortBy(sessions, NegBegin), start, end))
  }

  /** One row per day of the range, in ascending order, without gaps. */
  lemma {:induction false} SleepRowsContiguous(sessions: seq<SleepSession>)
    requires |sessions| > 0
    ensures var days := ParseGlowSleepData(sessions).value;
      var start, end := SessionDate(sessions[|sessions| - 1]), SessionDate(sessions[0]);
      && |days| == (if start <= end then end - start + 1 else 0)
      && forall i :: 0 <= i < |days| ==> days[i].date == start + i
  {
    var sorted := SortBy(sessions, NegBegin);
    var start, end := SessionDate(sessions[|sessions| - 1]), SessionDate(sessions[0]);
    forall i | 0 <= i < |SleepSeries(sorted, start, end)|
      ensures SleepSeries(sorted, start, end)[i].date == start + i
    {
      SleepSeriesRow(sorted, start, end, i);
    }
  }

  /** Total sleep over a run of daily rows. */
  function TotalSleep(days: seq<SleepDay>): real
  {
    if |days| == 0 then 0.0 else TotalSleep(days[..|days| - 1]) + days[|days| - 1].total
  }

  /** Kept sleep of the days start..start+n-1, before any carrying. */
  function KeptHours(sorted: seq<SleepSession>, start: int, n: nat): real
  {
    TotalOverKeys(sorted, SessionDate, KeptDuration, start, start + n - 1)
  }

  /** What day start + i nets: its kept sleep, plus what the day before
      carries in, minus what it carries out. */
  function DayBalance(sorted: seq<SleepSession>, start: int, i: nat): real
  {
    var rows := Select(sorted, SessionDate, start + i);
    Total(rows, KeptDuration) + CarryInto(sorted, start, i) - Carry(rows)
  }

  /** Every row of the series nets its day's balance. */
  lemma {:induction false} SleepSeriesBalances(sorted: seq<SleepSession>, start: int, end: int)
    ensures forall i :: 0 <= i < |SleepSeries(sorted, start, end)| ==>
              SleepSeries(sorted, start, end)[i].total == DayBalance(sorted, start, i)
  {
    forall i | 0 <= i < |SleepSeries(sorted, start, end)|
      ensures SleepSeries(sorted, start, end)[i].total == DayBalance(sorted, start, i)
    {
      var rows := Select(sorted, SessionDate, start + i);
      SleepSeriesRow(sorted, start, end, i);
      SleepDayTotals(rows, start + i, CarryInto(sorted, start, i));
      FilterTotal(rows, Kept, Duration, KeptDuration);
    }
  }

  /** The carry-over telescopes: the totals of the first n days are their
      kept sleep minus what the n-th day carries out. */
  lemma {:induction false} SleepTelescopes(days: seq<SleepDay>, sorted: seq<SleepSession>, start: int, n: nat)
    requires 1 <= n <= |days|
    requires forall i :: 0 <= i < |days| ==> days[i].total == DayBalance(sorted, start, i)
    ensures TotalSleep(days[..n]) == KeptHours(sorted, start, n) - Carry(Select(sorted, SessionDate, start + (n - 1)))
  {
    var k := n - 1;
    assert days[k].total == DayBalance(sorted, start, k);
    assert days[..n][..k] == days[..k];
    assert TotalSleep(days[..n]) == TotalSleep(days[..k]) + days[k].total;
    KeptHoursLast(sorted, start, n);
    if k == 0 {
      assert days[..0] == [];
    } else {
      SleepTelescopes(days, sorted, start, k);
      assert start + (k - 1) == start + k - 1;
    }
  }

  /** One more day adds that day's kept sleep. */
  lemma {:induction false} KeptHoursLast(sorted: seq<SleepSession>, start: int, n: nat)
    requires n >= 1
    ensures KeptHours(sorted, start, n)
         == KeptHours(sorted, start, n - 1) + Total(Select(sorted, SessionDate, start + (n - 1)), KeptDuration)
  {
    TotalOverKeysLast(sorted, SessionDate, KeptDuration, start, start + n - 2);
    assert start + n - 2 + 1 == start + (n - 1) == start + n - 1;
    assert start + (n - 1) - 1 == start + n - 2;
  }

  /** Two spellings of one date select the same sessions. */
  lemma {:induction false} CarryOfSameDay(sorted: seq<SleepSession>, a: int, b: int)
    requires a == b
    ensures Carry(Select(sorted, SessionDate, a)) == Carry(Select(sorted, SessionDate, b))
  {
  }

  /** When every session's date lies in the range, the daily totals add up
      to all kept sleep minus what the last day carries out. */
  lemma {:induction false} SleepTotalsTelescope(sessions: seq<SleepSession>)
    requires |sessions| > 0
    requires var start, end := SessionDate(sessions[|sessions| - 1]), SessionDate(sessions[0]);
      start <= end && forall i :: 0 <= i < |sessions| ==> start <= SessionDate(sessions[i]) <= end
    ensures var days := ParseGlowSleepData(sessions).value;
      var sorted := SortBy(sessions, NegBegin);
      TotalSleep(days)
        == Total(sessions, KeptDuration) - Carry(Select(sorted, SessionDate, SessionDate(sessions[0])))
  {
    var sorted := SortBy(sessions, NegBegin);
    var start, end := SessionDate(sessions[|sessions| - 1]), SessionDate(sessions[0]);
    assert ParseGlowSleepData(sessions).value == SleepSeries(sorted, start, end);
    SeriesTelescopes(sorted, start, end);
    KeptHoursOfAllSessions(sessions, start, end);
  }

  /** Over a whole range the daily totals are the range's kept sleep minus
      what its last day carries out. */
  lemma {:induction false} SeriesTelescopes(sorted: seq<SleepSession>, start: int, end: int)
    requires start <= end
    ensures TotalSleep(SleepSeries(sorted, start, end))
         == KeptHours(sorted, start, end - start + 1) - Carry(Select(sorted, SessionDate, end))
  {
    var days := SleepSeries(sorted, start, end);
    var n := end - start + 1;
    SleepSeriesBalances(sorted, start, end);
    SleepTelescopes(days, sorted, start, n);
    CarryOfSameDay(sorted, start + (n - 1), end);
    assert days[..n] == days by {
      assert |days| == n;
    }
    assert TotalSleep(days) == KeptHours(sorted, start, n) - Carry(Select(sorted, SessionDate, start + (n - 1)));
  }

  /** When every session's date lies in start..end, the kept sleep of those
      days is the kept sleep of all sessions. */
  lemma {:induction false} KeptHoursOfAllSessions(sessions: seq<SleepSession>, start: int, end: int)
    requires start <= end && forall i :: 0 <= i < |sessions| ==> start <= SessionDate(sessions[i]) <= end
    ensures KeptHours(SortBy(sessions, NegBegin), start, end - start + 1) == Total(sessions, KeptDuration)
  {
    var sorted := SortBy(sessions, NegBegin);
    SortByPermutesAndSorts(sessions, NegBegin);
    forall i | 0 <= i < |sorted| ensures start <= SessionDate(sorted[i]) <= end {
      assert sorted[i] in multiset(sessions);
    }
    PartitionTotal(sorted, SessionDate, KeptDuration, start, end);
    SortTotal(sessions, NegBegin, KeptDuration);
  }
}
