/** Daily and monthly diaper statistics (agenoria/plot_diaper_charts.py). */
module DiaperCharts {
  import opened Outcomes
  import opened Clock
  import opened Sorting
  import opened Grouping
  import opened Monthly

  /** Poop ratio (percent) at or above which a day counts as diarrhea. */
  const CUTOFF: real := 65.0

  /** One logged change: its time and the "In the diaper" value (None when
      the cell is empty). */
  datatype DiaperEvent = DiaperEvent(time: Timestamp, contents: Option<string>)

  /** One row of the daily table. */
  datatype DiaperDay = DiaperDay(
    date: int,
    dailyTotal: nat,
    cumulative: nat,
    pee: nat,
    poop: nat,
    poopRatio: Option<real>,
    changeTimeAvg: Option<real>)

  /** The "Date" column: the event's calendar day. */
  function EventDate(e: DiaperEvent): int
  {
    e.time.day
  }

  function EventInstant(e: DiaperEvent): int
  {
    Instant(e.time)
  }

  /** The table is ordered newest first, as the loader sorts it. */
  ghost predicate NewestFirst(events: seq<DiaperEvent>)
  {
    forall i, j :: 0 <= i < j < |events| ==> Instant(events[j].time) <= Instant(events[i].time)
  }

  /** `count_pee_poop`: (pee, poop) increments of one change. */
  function CountPeePoop(key: Option<string>): (r: (nat, nat))
    ensures r.0 <= 1 && r.1 <= 1
    ensures r.0 == 1 <==> key == Some("pee") || key == Some("pee and poo")
    ensures r.1 == 1 <==> key == Some("poo") || key == Some("pee and poo")
  {
    if key == Some("pee") then (1, 0)
    else if key == Some("poo") then (0, 1)
    else if key == Some("pee and poo") then (1, 1)
    else (0, 0)
  }

  /** `rows["In the diaper"].count()`: the changes with a recorded content. */
  function Logged(rows: seq<DiaperEvent>): nat
  {
    if |rows| == 0 then 0 else (if rows[0].contents.Some? then 1 else 0) + Logged(rows[1..])
  }

  function Pees(rows: seq<DiaperEvent>): nat
  {
    if |rows| == 0 then 0 else CountPeePoop(rows[0].contents).0 + Pees(rows[1..])
  }

  function Poops(rows: seq<DiaperEvent>): nat
  {
    if |rows| == 0 then 0 else CountPeePoop(rows[0].contents).1 + Poops(rows[1..])
  }

  /** A change whose "In the diaper" cell is filled in. */
  predicate Recorded(e: DiaperEvent)
  {
    e.contents.Some?
  }

  /** A change that `count_pee_poop` counts as a pee. */
  predicate HasPee(e: DiaperEvent)
  {
    e.contents == Some("pee") || e.contents == Some("pee and poo")
  }

  /** A change that `count_pee_poop` counts as a poop. */
  predicate HasPoop(e: DiaperEvent)
  {
    e.contents == Some("poo") || e.contents == Some("pee and poo")
  }

  /** `count()` counts the changes with a recorded content, and the pee and
      poop counts are the numbers of changes that hold a pee or a poop. */
  lemma {:induction false} CountsAreFilters(rows: seq<DiaperEvent>)
    ensures Logged(rows) == |Filter(rows, Recorded)|
    ensures Pees(rows) == |Filter(rows, HasPee)|
    ensures Poops(rows) == |Filter(rows, HasPoop)|
  {
    if |rows| > 0 {
      CountsAreFilters(rows[1..]);
    }
  }

  /** Each change adds at most one pee and one poop, and only a change with
      a recorded content adds either. */
  lemma {:induction false} CountsAtMostLogged(rows: seq<DiaperEvent>)
    ensures Pees(rows) <= Logged(rows)
    ensures Poops(rows) <= Logged(rows)
  {
    if |rows| > 0 {
      CountsAtMostLogged(rows[1..]);
    }
  }

  /** `poop / total * 100`; NaN when no change was recorded. */
  function PoopRatio(poop: nat, total: nat): (r: Option<real>)
    ensures r.None? <==> total == 0
    ensures r.Some? && poop <= total ==> 0.0 <= r.value <= 100.0
    ensures r.Some? ==> (r.value == 0.0 <==> poop == 0)
  {
    if total == 0 then None else Some(poop as real / total as real * 100.0)
  }

  /** The hours between the first and the last change of the day, read from
      the last and first rows of the day. */
  function DaySpanHours(rows: seq<DiaperEvent>): real
    requires |rows| > 0
  {
    HoursBetween(rows[|rows| - 1].time, rows[0].time)
  }

  /** One daily row, given that day's (non-empty) selection and the running
      count before it. */
  function SummarizeDay(rows: seq<DiaperEvent>, d: int, before: nat): DiaperDay
    requires |rows| > 0
  {
    var total := Logged(rows);
    var pee := Pees(rows);
    var poop := Poops(rows);
    var avg := if total == 0 then None else Some(DaySpanHours(rows) / total as real);
    DiaperDay(d, total, before + total, pee, poop, PoopRatio(poop, total), avg)
  }

  /** A daily row is dated with its day and counts its changes with a
      recorded content on top of the running count; its pee and poop counts
      are the changes holding a pee or a poop, never more than the total;
      the ratio and the average gap exist exactly when a change was
      recorded; the ratio is the poop count as a percentage of the total;
      and the average gap spreads the day's span evenly over the recorded
      changes, so it keeps the span's sign without exceeding it. */
  lemma {:induction false} DaySummary(rows: seq<DiaperEvent>, d: int, before: nat)
    requires |rows| > 0
    ensures var r := SummarizeDay(rows, d, before);
      && r.date == d
      && r.dailyTotal == |Filter(rows, Recorded)| && r.cumulative == before + r.dailyTotal
      && r.pee == |Filter(rows, HasPee)| && r.poop == |Filter(rows, HasPoop)|
      && r.pee <= r.dailyTotal && r.poop <= r.dailyTotal
      && (r.poopRatio.None? <==> r.dailyTotal == 0)
      && (r.poopRatio.Some? ==> r.poopRatio.value * r.dailyTotal as real == 100.0 * r.poop as real)
      && (r.poopRatio.Some? ==> 0.0 <= r.poopRatio.value <= 100.0)
      && (r.changeTimeAvg.None? <==> r.dailyTotal == 0)
      && (r.changeTimeAvg.Some? ==> r.changeTimeAvg.value * r.dailyTotal as real == DaySpanHours(rows))
      && (r.changeTimeAvg.Some? ==> (r.changeTimeAvg.value >= 0.0 <==> DaySpanHours(rows) >= 0.0))
      && (r.changeTimeAvg.Some? && DaySpanHours(rows) >= 0.0 ==> r.changeTimeAvg.value <= DaySpanHours(rows))
  {
    CountsAreFilters(rows);
    CountsAtMostLogged(rows);
    DayArithmetic(rows, d, before);
  }

  /** The ratio and the average gap of a daily row, as equations. */
  lemma {:induction false} DayArithmetic(rows: seq<DiaperEvent>, d: int, before: nat)
    requires |rows| > 0
    ensures var r := SummarizeDay(rows, d, before);
      && (r.poopRatio.Some? ==> r.poopRatio.value * r.dailyTotal as real == 100.0 * r.poop as real)
      && (r.changeTimeAvg.Some? ==> r.changeTimeAvg.value * r.dailyTotal as real == DaySpanHours(rows))
      && (r.changeTimeAvg.Some? ==> (r.changeTimeAvg.value >= 0.0 <==> DaySpanHours(rows) >= 0.0))
      && (r.changeTimeAvg.Some? && DaySpanHours(rows) >= 0.0 ==> r.changeTimeAvg.value <= DaySpanHours(rows))
  {
    var r := SummarizeDay(rows, d, before);
    if Logged(rows) > 0 {
      var total := Logged(rows);
      RowRatio(r, Poops(rows), total);
      RowGap(r, DaySpanHours(rows), total);
      SpreadOver(DaySpanHours(rows), total as real);
    }
  }

  /** The percentage times the total gives back 100 times the part. */
  lemma {:induction false} RowRatio(r: DiaperDay, poop: nat, total: nat)
    requires total > 0 && r.poop == poop && r.dailyTotal == total
    requires r.poopRatio == PoopRatio(poop, total)
    ensures r.poopRatio.value * r.dailyTotal as real == 100.0 * r.poop as real
  {
    var t := total as real;
    var q := poop as real / t;
    assert q * t == poop as real;
    assert q * 100.0 * t == q * t * 100.0;
  }

  /** The average gap times the number of changes gives back the span. */
  lemma {:induction false} RowGap(r: DiaperDay, span: real, total: nat)
    requires total > 0 && r.dailyTotal == total
    requires r.changeTimeAvg == Some(span / total as real)
    ensures r.changeTimeAvg.value * r.dailyTotal as real == span
  {
  }

  /** The first and last changes of a newest-first day are in order. */
  lemma {:induction false} SpanNonNegative(rows: seq<DiaperEvent>)
    requires |rows| > 0 && NewestFirst(rows)
    ensures DaySpanHours(rows) >= 0.0
  {
    if |rows| > 1 {
      assert Instant(rows[|rows| - 1].time) <= Instant(rows[0].time);
    }
  }

  function DailyTotals(days: seq<DiaperDay>): nat
  {
    if |days| == 0 then 0 else days[0].dailyTotal + DailyTotals(days[1..])
  }

  lemma {:induction false} DailyTotalsAppend(a: seq<DiaperDay>, b: seq<DiaperDay>)
    ensures DailyTotals(a + b) == DailyTotals(a) + DailyTotals(b)
  {
    if |a| == 0 {
      assert a + b == b;
    } else {
      assert (a + b)[1..] == a[1..] + b;
      DailyTotalsAppend(a[1..], b);
    }
  }

  /** Changes logged on the first n days from `start`. */
  function LoggedThrough(events: seq<DiaperEvent>, start: int, n: nat): nat
  {
    if n == 0 then 0
    else LoggedThrough(events, start, n - 1) + Logged(Select(events, EventDate, start + n - 1))
  }

  /** The loop over days start..end: row i summarizes day start + i, with
      the running count of the days before it. */
  function DaySeries(events: seq<DiaperEvent>, start: int, end: int): (r: seq<DiaperDay>)
    requires FirstEmptyDay(events, EventDate, start, end).None?
    ensures |r| == if start <= end then end - start + 1 else 0
  {
    var n := if start <= end then end - start + 1 else 0;
    seq(n, i requires 0 <= i < n =>
      assert Occurrences(events, EventDate, start + i) > 0;
      SummarizeDay(Select(events, EventDate, start + i), start + i, LoggedThrough(events, start, i)))
  }

  /** `parse_glow_diaper_data`: one row per day from the last row's date to
      the first row's date; stops on an empty table or an empty day. */
  function ParseGlowDiaperData(events: seq<DiaperEvent>): (r: Result<seq<DiaperDay>>)
    ensures |events| == 0 ==> r == Fail(NoRows)
    ensures |events| > 0 ==>
      var start, end := EventDate(events[|events| - 1]), EventDate(events[0]);
      && (r.Ok? ==> forall k :: start <= k <= end ==> Occurrences(events, EventDate, k) > 0)
      && (r.Fail? ==> r.failure.EmptyDay? && start <= r.failure.day <= end
                      && Occurrences(events, EventDate, r.failure.day) == 0)
      && (r.Ok? ==> r.value == DaySeries(events, start, end))
  {
    if |events| == 0 then Fail(NoRows)
    else
      var start, end := EventDate(events[|events| - 1]), EventDate(events[0]);
      match FirstEmptyDay(events, EventDate, start, end)
      case Some(d) => Fail(EmptyDay(d))
      case None => Ok(DaySeries(events, start, end))
  }

  /** The daily table covers every day from the earliest to the latest
      change exactly once, in ascending order. */
  lemma {:induction false} DailyRowsContiguous(events: seq<DiaperEvent>)
    requires ParseGlowDiaperData(events).Ok?
    ensures var days := ParseGlowDiaperData(events).value;
      var start, end := EventDate(events[|events| - 1]), EventDate(events[0]);
      && |days| == (if start <= end then end - start + 1 else 0)
      && forall i :: 0 <= i < |days| ==> days[i].date == start + i
  {
    var start, end := EventDate(events[|events| - 1]), EventDate(events[0]);
    var days := DaySeries(events, start, end);
    assert ParseGlowDiaperData(events).value == days;
    forall i | 0 <= i < |days| ensures days[i].date == start + i {
      SeriesRow(events, start, end, i);
      DaySummary(Select(events, EventDate, start + i), start + i, LoggedThrough(events, start, i));
    }
  }

  /** Each row's running count adds its own total to the previous row's. */
  ghost predicate Chained(days: seq<DiaperDay>)
  {
    && (|days| > 0 ==> days[0].cumulative == days[0].dailyTotal)
    && forall k :: 0 < k < |days| ==> days[k].cumulative == days[k - 1].cumulative + days[k].dailyTotal
  }

  /** Row i of the series is the summary of day start + i. */
  lemma {:induction false} SeriesRow(events: seq<DiaperEvent>, start: int, end: int, i: int)
    requires FirstEmptyDay(events, EventDate, start, end).None?
    requires 0 <= i < |DaySeries(events, start, end)|
    ensures var rows := Select(events, EventDate, start + i);
      |rows| > 0 &&
      DaySeries(events, start, end)[i] == SummarizeDay(rows, start + i, LoggedThrough(events, start, i))
  {
    assert start <= start + i <= end;
    assert Occurrences(events, EventDate, start + i) > 0;
  }

  /** Row i's total is day start + i's count and its running count covers
      the days up to and including it. */
  lemma {:induction false} SeriesRowCounts(events: seq<DiaperEvent>, start: int, end: int, k: int)
    requires FirstEmptyDay(events, EventDate, start, end).None?
    requires 0 <= k < |DaySeries(events, start, end)|
    ensures DaySeries(events, start, end)[k].cumulative == LoggedThrough(events, start, k + 1)
    ensures DaySeries(events, start, end)[k].dailyTotal == Logged(Select(events, EventDate, start + k))
  {
    SeriesRow(events, start, end, k);
    DaySummary(Select(events, EventDate, start + k), start + k, LoggedThrough(events, start, k));
  }

  /** The series starts its running count at zero. */
  lemma {:induction false} SeriesChained(events: seq<DiaperEvent>, start: int, end: int)
    requires FirstEmptyDay(events, EventDate, start, end).None?
    ensures Chained(DaySeries(events, start, end))
  {
    var r := DaySeries(events, start, end);
    if |r| > 0 {
      SeriesRowCounts(events, start, end, 0);
      assert LoggedThrough(events, start, 0) == 0;
    }
    forall k | 0 < k < |r| ensures r[k].cumulative == r[k - 1].cumulative + r[k].dailyTotal {
      SeriesStep(events, start, end, k);
    }
  }

  /** Row k's running count is row k - 1's plus row k's own total. */
  lemma {:induction false} SeriesStep(events: seq<DiaperEvent>, start: int, end: int, k: int)
    requires FirstEmptyDay(events, EventDate, start, end).None?
    requires 0 < k < |DaySeries(events, start, end)|
    ensures DaySeries(events, start, end)[k].cumulative
         == DaySeries(events, start, end)[k - 1].cumulative + DaySeries(events, start, end)[k].dailyTotal
  {
    SeriesRowCounts(events, start, end, k);
    SeriesPreviousCount(events, start, end, k);
    assert LoggedThrough(events, start, k + 1)
        == LoggedThrough(events, start, k) + Logged(Select(events, EventDate, start + k));
  }

  /** The row before row k counts the changes of the first k days. */
  lemma {:induction false} SeriesPreviousCount(events: seq<DiaperEvent>, start: int, end: int, k: int)
    requires FirstEmptyDay(events, EventDate, start, end).None?
    requires 0 < k < |DaySeries(events, start, end)|
    ensures DaySeries(events, start, end)[k - 1].cumulative == LoggedThrough(events, start, k)
  {
    SeriesRowCounts(events, start, end, k - 1);
    assert k - 1 + 1 == k;
  }

  /** Row i's running count is the total of rows 0..i. */
  lemma {:induction false} RunningCount(days: seq<DiaperDay>, i: int)
    requires Chained(days)
    requires 0 <= i < |days|
    ensures days[i].cumulative == DailyTotals(days[..i + 1])
  {
    if i == 0 {
      assert days[..1] == [days[0]];
      assert [days[0]][1..] == [];
    } else {
      RunningCount(days, i - 1);
      assert days[..i + 1] == days[..i] + [days[i]];
      DailyTotalsAppend(days[..i], [days[i]]);
      assert [days[i]][1..] == [];
    }
  }

  /** In a chained table the running count never decreases and ends at
      the sum of the daily totals. */
  lemma {:induction false} ChainedRunningTotal(days: seq<DiaperDay>)
    requires Chained(days)
    ensures forall i, j :: 0 <= i <= j < |days| ==> days[i].cumulative <= days[j].cumulative
    ensures |days| > 0 ==> days[|days| - 1].cumulative == DailyTotals(days)
  {
    forall i, j | 0 <= i <= j < |days| ensures days[i].cumulative <= days[j].cumulative {
      RunningCount(days, i);
      RunningCount(days, j);
      assert days[..j + 1] == days[..i + 1] + days[i + 1..j + 1];
      DailyTotalsAppend(days[..i + 1], days[i + 1..j + 1]);
    }
    if |days| > 0 {
      RunningCount(days, |days| - 1);
      assert days[..|days|] == days;
    }
  }

  /** The cumulative column never decreases, and its last value is the sum
      of the daily totals. */
  lemma {:induction false} CumulativeIsRunningTotal(events: seq<DiaperEvent>)
    requires ParseGlowDiaperData(events).Ok?
    ensures var days := ParseGlowDiaperData(events).value;
      && (forall i, j :: 0 <= i <= j < |days| ==> days[i].cumulative <= days[j].cumulative)
      && (|days| > 0 ==> days[|days| - 1].cumulative == DailyTotals(days))
  {
    var start, end := EventDate(events[|events| - 1]), EventDate(events[0]);
    SeriesChained(events, start, end);
    ChainedRunningTotal(DaySeries(events, start, end));
  }

  /** Pee and poop counts never exceed the day's total, so the poop ratio
      of a day with a change is a percentage. */
  lemma {:induction false} DailyCountsBounded(events: seq<DiaperEvent>)
    requires ParseGlowDiaperData(events).Ok?
    ensures var days := ParseGlowDiaperData(events).value;
      forall i :: 0 <= i < |days| ==>
        && days[i].pee <= days[i].dailyTotal && days[i].poop <= days[i].dailyTotal
        && (days[i].dailyTotal > 0 ==> days[i].poopRatio.Some? && 0.0 <= days[i].poopRatio.value <= 100.0)
  {
    var start, end := EventDate(events[|events| - 1]), EventDate(events[0]);
    var days := DaySeries(events, start, end);
    assert ParseGlowDiaperData(events).value == days;
    forall i | 0 <= i < |days|
      ensures days[i].pee <= days[i].dailyTotal && days[i].poop <= days[i].dailyTotal
      ensures days[i].dailyTotal > 0 ==> days[i].poopRatio.Some? && 0.0 <= days[i].poopRatio.value <= 100.0
    {
      SeriesRow(events, start, end, i);
      DaySummary(Select(events, EventDate, start + i), start + i, LoggedThrough(events, start, i));
    }
  }

  /** A day's selection from a newest-first table is newest first. */
  lemma {:induction false} DayNewestFirst(events: seq<DiaperEvent>, d: int)
    requires NewestFirst(events)
    ensures NewestFirst(Select(events, EventDate, d))
  {
    var rows := Select(events, EventDate, d);
    assert SortedBy(events, NegInstant);
    SelectKeepsOrder(events, EventDate, d, NegInstant);
    forall a, b | 0 <= a < b < |rows| ensures Instant(rows[b].time) <= Instant(rows[a].time) {
      assert NegInstant(rows[a]) <= NegInstant(rows[b]);
    }
  }

  /** Row i's average gap is not negative when its day is newest first. */
  lemma {:induction false} RowGapNonNegative(events: seq<DiaperEvent>, start: int, end: int, i: int)
    requires NewestFirst(events)
    requires FirstEmptyDay(events, EventDate, start, end).None?
    requires 0 <= i < |DaySeries(events, start, end)|
    ensures var day := DaySeries(events, start, end)[i];
      day.changeTimeAvg.Some? ==> day.changeTimeAvg.value >= 0.0
  {
    var day := DaySeries(events, start, end)[i];
    var rows := Select(events, EventDate, start + i);
    SeriesRow(events, start, end, i);
    assert day == SummarizeDay(rows, start + i, LoggedThrough(events, start, i));
    DaySummary(rows, start + i, LoggedThrough(events, start, i));
    DayNewestFirst(events, start + i);
    SpanNonNegative(rows);
    assert DaySpanHours(rows) >= 0.0;
  }

  /** A span spread over at least one change keeps its sign and does not
      grow. */
  lemma {:induction false} SpreadOver(s: real, t: real)
    ensures t >= 1.0 ==> (s / t >= 0.0 <==> s >= 0.0)
    ensures t >= 1.0 && s >= 0.0 ==> s / t <= s
    ensures t >= 1.0 ==> s / t * t == s
  {
  }

  /** On a table ordered newest first the average gap between changes is
      never negative. */
  lemma {:induction false} ChangeGapNonNegative(events: seq<DiaperEvent>)
    requires NewestFirst(events)
    requires ParseGlowDiaperData(events).Ok?
    ensures var days := ParseGlowDiaperData(events).value;
      forall i :: 0 <= i < |days| && days[i].changeTimeAvg.Some? ==> days[i].changeTimeAvg.value >= 0.0
  {
    var start, end := EventDate(events[|events| - 1]), EventDate(events[0]);
    var days := DaySeries(events, start, end);
    forall i | 0 <= i < |days| ensures days[i].changeTimeAvg.Some? ==> days[i].changeTimeAvg.value >= 0.0 {
      RowGapNonNegative(events, start, end, i);
    }
  }

  function NegInstant(e: DiaperEvent): int
  {
    -Instant(e.time)
  }

  // Monthly aggregation --------------------------------------------------

  function TotalsEntries(days: seq<DiaperDay>): (r: seq<Entry>)
    ensures |r| == |days|
    ensures forall i :: 0 <= i < |r| ==> r[i] == Entry(days[i].date, days[i].dailyTotal as real)
  {
    if |days| == 0 then [] else [Entry(days[0].date, days[0].dailyTotal as real)] + TotalsEntries(days[1..])
  }

  /** The month key of a daily row. */
  function DayMonth(day: DiaperDay): int
  {
    MonthOf(day.date)
  }

  /** A daily row's change count, as the summed column. */
  function DailyCount(day: DiaperDay): real
  {
    day.dailyTotal as real
  }

  /** `get_diaper_monthly_data`: one bucket per month from the month of the
      first daily row to that of the last, each the sum of the daily totals
      of the rows of its month. */
  function DiaperMonthlyData(days: seq<DiaperDay>): (r: seq<Bucket>)
    ensures |days| == 0 <==> |r| == 0
    ensures |days| > 0 ==>
      && |r| == LastMonth(AllDates(days)) - FirstMonth(AllDates(days)) + 1
      && forall i :: 0 <= i < |r| ==> r[i].month == FirstMonth(AllDates(days)) + i
    ensures forall i :: 0 <= i < |r| ==> r[i].value == Total(Select(days, DayMonth, r[i].month), DailyCount)
  {
    var entries := TotalsEntries(days);
    assert Days(entries) == AllDates(days);
    var r := ResampleSum(entries);
    forall i | 0 <= i < |r|
      ensures r[i].value == Total(Select(days, DayMonth, r[i].month), DailyCount)
    {
      MonthTotalOfEntries(days, r[i].month);
    }
    r
  }

  /** Selecting a month of the date-indexed totals sums the same changes as
      selecting it from the daily rows. */
  lemma {:induction false} MonthTotalOfEntries(days: seq<DiaperDay>, m: int)
    ensures Total(Select(TotalsEntries(days), EntryMonth, m), EntryValue) == Total(Select(days, DayMonth, m), DailyCount)
  {
    if |days| > 0 {
      MonthTotalOfEntries(days[1..], m);
      var entries := TotalsEntries(days);
      assert entries[1..] == TotalsEntries(days[1..]);
      var rest := Select(entries[1..], EntryMonth, m);
      var restDays := Select(days[1..], DayMonth, m);
      if DayMonth(days[0]) == m {
        assert ([entries[0]] + rest)[1..] == rest;
        assert ([days[0]] + restDays)[1..] == restDays;
      }
    }
  }

  lemma {:induction false} TotalsEntriesTotal(days: seq<DiaperDay>)
    ensures Total(TotalsEntries(days), EntryValue) == DailyTotals(days) as real
  {
    if |days| > 0 {
      TotalsEntriesTotal(days[1..]);
      assert TotalsEntries(days)[1..] == TotalsEntries(days[1..]);
    }
  }

  /** The monthly totals add up to the final cumulative count. */
  lemma {:induction false} MonthlyTotalsMatchCumulative(events: seq<DiaperEvent>)
    requires ParseGlowDiaperData(events).Ok?
    requires |ParseGlowDiaperData(events).value| > 0
    ensures var days := ParseGlowDiaperData(events).value;
      BucketTotal(DiaperMonthlyData(days)) == days[|days| - 1].cumulative as real
  {
    var days := ParseGlowDiaperData(events).value;
    CumulativeIsRunningTotal(events);
    ResampleSumTotal(TotalsEntries(days));
    TotalsEntriesTotal(days);
  }

  /** A day without a poop. */
  predicate Constipated(day: DiaperDay)
  {
    day.poop == 0
  }

  /** A day whose poop ratio reaches the cutoff (NaN never does). */
  predicate Diarrhea(day: DiaperDay)
  {
    day.poopRatio.Some? && day.poopRatio.value >= CUTOFF
  }

  /** The dates of the days without a poop, in row order. */
  function ConstipatedDates(days: seq<DiaperDay>): (r: seq<int>)
    ensures |r| <= |days|
    ensures r == AllDates(Filter(days, Constipated))
  {
    if |days| == 0 then []
    else
      var rest := ConstipatedDates(days[1..]);
      if Constipated(days[0]) then
        assert ([days[0]] + Filter(days[1..], Constipated))[1..] == Filter(days[1..], Constipated);
        [days[0].date] + rest
      else rest
  }

  /** The dates of the days whose poop ratio reaches the cutoff, in row
      order. */
  function DiarrheaDates(days: seq<DiaperDay>): (r: seq<int>)
    ensures |r| <= |days|
    ensures r == AllDates(Filter(days, Diarrhea))
  {
    if |days| == 0 then []
    else
      var rest := DiarrheaDates(days[1..]);
      if Diarrhea(days[0]) then
        assert ([days[0]] + Filter(days[1..], Diarrhea))[1..] == Filter(days[1..], Diarrhea);
        [days[0].date] + rest
      else rest
  }

  /** The "date" column. */
  function AllDates(days: seq<DiaperDay>): (r: seq<int>)
    ensures |r| == |days|
    ensures forall i :: 0 <= i < |r| ==> r[i] == days[i].date
  {
    if |days| == 0 then [] else [days[0].date] + AllDates(days[1..])
  }

  /** Counting the dates of a month counts the daily rows of that month. */
  lemma {:induction false} DateOccurrences(days: seq<DiaperDay>, m: int)
    ensures Occurrences(AllDates(days), MonthOf, m) == Occurrences(days, DayMonth, m)
  {
    if |days| > 0 {
      DateOccurrences(days[1..], m);
      assert AllDates(days)[1..] == AllDates(days[1..]);
    }
  }

  /** `get_abnormal_days`: per month, the number of days without a poop
      (constipation), and separately the number of days whose poop ratio
      reaches the cutoff (diarrhea). Each series has one bucket per month
      from the first to the last month holding such a day, and none when
      there is no such day. */
  function AbnormalDays(days: seq<DiaperDay>): (r: (seq<CountBucket>, seq<CountBucket>))
    ensures var c := Filter(days, Constipated);
      && (|r.0| == 0 <==> |c| == 0)
      && (|c| > 0 ==>
            && |r.0| == LastMonth(AllDates(c)) - FirstMonth(AllDates(c)) + 1
            && forall i :: 0 <= i < |r.0| ==> r.0[i].month == FirstMonth(AllDates(c)) + i)
      && forall i :: 0 <= i < |r.0| ==> r.0[i].count == Occurrences(c, DayMonth, r.0[i].month)
    ensures var h := Filter(days, Diarrhea);
      && (|r.1| == 0 <==> |h| == 0)
      && (|h| > 0 ==>
            && |r.1| == LastMonth(AllDates(h)) - FirstMonth(AllDates(h)) + 1
            && forall i :: 0 <= i < |r.1| ==> r.1[i].month == FirstMonth(AllDates(h)) + i)
      && forall i :: 0 <= i < |r.1| ==> r.1[i].count == Occurrences(h, DayMonth, r.1[i].month)
  {
    (DaysPerMonth(Filter(days, Constipated)), DaysPerMonth(Filter(days, Diarrhea)))
  }

  /** `resample("BMS").count()` of some daily rows: one bucket per month
      from the first to the last month of the rows, each counting the rows
      of its month. */
  function DaysPerMonth(rows: seq<DiaperDay>): (r: seq<CountBucket>)
    ensures |r| == 0 <==> |rows| == 0
    ensures |rows| > 0 ==>
      && |r| == LastMonth(AllDates(rows)) - FirstMonth(AllDates(rows)) + 1
      && forall i :: 0 <= i < |r| ==> r[i].month == FirstMonth(AllDates(rows)) + i
    ensures forall i :: 0 <= i < |r| ==> r[i].count == Occurrences(rows, DayMonth, r[i].month)
  {
    var r := ResampleCount(AllDates(rows));
    forall i | 0 <= i < |r|
      ensures r[i].count == Occurrences(rows, DayMonth, r[i].month)
    {
      DateOccurrences(rows, r[i].month);
    }
    r
  }

  /** A month's constipation and diarrhea buckets together count at most the
      days of that month in the series, since no day is both. */
  lemma {:induction false} AbnormalBucketsBounded(days: seq<DiaperDay>, i: int, j: int)
    requires forall k :: 0 <= k < |days| ==> !(Constipated(days[k]) && Diarrhea(days[k]))
    requires 0 <= i < |AbnormalDays(days).0| && 0 <= j < |AbnormalDays(days).1|
    requires AbnormalDays(days).0[i].month == AbnormalDays(days).1[j].month
    ensures AbnormalDays(days).0[i].count + AbnormalDays(days).1[j].count
         <= Occurrences(days, DayMonth, AbnormalDays(days).0[i].month)
  {
    AbnormalRowsBounded(days, AbnormalDays(days).0[i].month);
  }

  lemma {:induction false} AbnormalRowsBounded(days: seq<DiaperDay>, m: int)
    requires forall k :: 0 <= k < |days| ==> !(Constipated(days[k]) && Diarrhea(days[k]))
    ensures Occurrences(Filter(days, Constipated), DayMonth, m) + Occurrences(Filter(days, Diarrhea), DayMonth, m)
         <= Occurrences(days, DayMonth, m)
  {
    if |days| > 0 {
      AbnormalRowsBounded(days[1..], m);
      var c, h := Filter(days[1..], Constipated), Filter(days[1..], Diarrhea);
      assert ([days[0]] + c)[1..] == c;
      assert ([days[0]] + h)[1..] == h;
    }
  }

  /** A day is never both constipated and diarrheic: the ratio of a day
      without a poop is 0 or NaN. */
  lemma {:induction false} AbnormalDaysDisjoint(rows: seq<DiaperEvent>, d: int, before: nat)
    requires |rows| > 0
    ensures !(Constipated(SummarizeDay(rows, d, before)) && Diarrhea(SummarizeDay(rows, d, before)))
  {
    DaySummary(rows, d, before);
  }

  /** In every month, constipated days plus diarrhea days are at most the
      days of that month in the series. */
  lemma {:induction false} AbnormalCountsBounded(days: seq<DiaperDay>, m: int)
    requires forall i :: 0 <= i < |days| ==> !(Constipated(days[i]) && Diarrhea(days[i]))
    ensures MonthCount(ConstipatedDates(days), m) + MonthCount(DiarrheaDates(days), m)
         <= MonthCount(AllDates(days), m)
  {
    if |days| > 0 {
      AbnormalCountsBounded(days[1..], m);
      MonthCountPrepend(if Constipated(days[0]) then [days[0].date] else [], ConstipatedDates(days[1..]), m);
      MonthCountPrepend(if Diarrhea(days[0]) then [days[0].date] else [], DiarrheaDates(days[1..]), m);
      MonthCountPrepend([days[0].date], AllDates(days[1..]), m);
    }
  }

  lemma {:induction false} MonthCountPrepend(a: seq<int>, b: seq<int>, m: int)
    requires |a| <= 1
    ensures MonthCount(a + b, m) == MonthCount(a, m) + MonthCount(b, m)
  {
    if |a| == 1 {
      assert (a + b)[1..] == b;
    } else {
      assert a + b == b;
    }
  }
}
