/** The early stand-alone charts of Projects/BabyData: the sleep bars of
    baby_sleep_feeding_viz.py with their axis ticks and labels, and the
    Hatch table of baby_plot_daily.py.  The daily feeding table of
    baby_plot_daily.py is `FeedingStats.ParseFeedingBasics`. */
module BabyData {
  import opened Outcomes
  import opened Clock
  import opened Seqs
  import opened Sorting
  import opened Grouping
  import opened Labels
  import PlotSettings
  import Growth

  // Labels ----------------------------------------------------------------

  const WEEK_LABEL_COUNT: nat := 52
  const MONTH_LABEL_COUNT: nat := 12
  const WEEK_PREFIX: string := "Wk "
  const MONTH_PREFIX: string := "Month "

  /** The three label lists of `enumerate_labels`. */
  datatype AxisLabels = AxisLabels(hours: seq<string>, weeks: seq<string>, months: seq<string>)

  /** `prefix + str(num)` for num in `range(0, count)`. */
  function NumberedLabels(prefix: string, count: nat): (r: seq<string>)
    ensures |r| == count
    ensures forall k :: 0 <= k < count ==> |r[k]| > |prefix| && r[k][..|prefix|] == prefix
  {
    seq(count, k requires 0 <= k < count => prefix + NatToString(k))
  }

  /** `enumerate_labels`: 24 hour labels, 52 week labels, 12 month labels. */
  function EnumerateLabels(): (r: AxisLabels)
    ensures |r.hours| == PlotSettings.HOURS_PER_DAY && |r.weeks| == WEEK_LABEL_COUNT && |r.months| == MONTH_LABEL_COUNT
    ensures r.hours == PlotSettings.HourLabels()
  {
    AxisLabels(PlotSettings.HourLabels(), NumberedLabels(WEEK_PREFIX, WEEK_LABEL_COUNT), NumberedLabels(MONTH_PREFIX, MONTH_LABEL_COUNT))
  }

  /** Every numbered label reads back, after its prefix, as its own
      position, so no two labels of a list are equal. */
  lemma {:induction false} NumberedLabelsNameTheirPosition(prefix: string, count: nat)
    ensures forall k :: 0 <= k < count ==>
              AllDigits(NumberedLabels(prefix, count)[k][|prefix|..])
              && ParseNat(NumberedLabels(prefix, count)[k][|prefix|..]) == k
    ensures forall i, j :: 0 <= i < j < count ==> NumberedLabels(prefix, count)[i] != NumberedLabels(prefix, count)[j]
  {
    var r := NumberedLabels(prefix, count);
    forall k | 0 <= k < count
      ensures AllDigits(r[k][|prefix|..]) && ParseNat(r[k][|prefix|..]) == k
    {
      assert r[k][|prefix|..] == NatToString(k);
      ParseNatToString(k);
    }
  }

  // Sleep data ------------------------------------------------------------

  /** A row of the Glow sleep-and-diaper export. */
  datatype BabyRow = BabyRow(key: string, start: Timestamp, end: Timestamp)

  predicate IsSleep(row: BabyRow)
  {
    row.key == "sleep"
  }

  function StartDate(row: BabyRow): int
  {
    row.start.day
  }

  /** The sleep rows and the day range the chart walks. */
  datatype SleepData = SleepData(rows: seq<BabyRow>, startDate: int, endDate: int)

  /** `get_sleep_data`: the rows whose key is "sleep", in file order; the
      range runs from the day of the last sleep row of the file to the day
      of the first one, and there is no range without a sleep row. */
  function GetSleepData(data: seq<BabyRow>): (r: Result<SleepData>)
    ensures r.Fail? <==> forall x :: x in data ==> !IsSleep(x)
    ensures r.Fail? ==> r.failure == NoRows
    ensures r.Ok? ==> r.value.rows == Filter(data, IsSleep)
    ensures r.Ok? ==> forall x :: x in r.value.rows <==> x in data && IsSleep(x)
    ensures r.Ok? ==> exists i :: 0 <= i < |data| && IsSleep(data[i]) && r.value.startDate == StartDate(data[i])
                                  && forall j :: i < j < |data| ==> !IsSleep(data[j])
    ensures r.Ok? ==> exists i :: 0 <= i < |data| && IsSleep(data[i]) && r.value.endDate == StartDate(data[i])
                                  && forall j :: 0 <= j < i ==> !IsSleep(data[j])
  {
    var sleep := Filter(data, IsSleep);
    assert forall x :: x in sleep <==> x in data && IsSleep(x) by {
      forall x ensures x in sleep <==> x in data && IsSleep(x) {
        FilterMembership(data, IsSleep, x);
      }
    }
    if |sleep| == 0 then
      assert forall x :: x in data ==> !IsSleep(x) by {
        forall x | x in data ensures !IsSleep(x) {
          assert x !in sleep;
        }
      }
      Fail(NoRows)
    else
      FilterFirstMatch(data, IsSleep);
      FilterLastMatch(data, IsSleep);
      Ok(SleepData(sleep, StartDate(sleep[|sleep| - 1]), StartDate(sleep[0])))
  }

  // Sleep bars ------------------------------------------------------------

  /** A `broken_barh` call: one column of the chart, from `bottom` for
      `height` hours. */
  datatype BabyBar = BabyBar(column: int, bottom: real, height: real)

  /** The session ends on a later day than it starts. */
  predicate Crosses(row: BabyRow)
  {
    row.end.day > row.start.day
  }

  /** The bar of one session in `column`: from its start hour to its end
      hour, or to 24:00 when it crosses midnight. */
  function SessionBar(row: BabyRow, column: int): (b: BabyBar)
    ensures b.column == column && b.bottom == DecimalHour(row.start)
    ensures Crosses(row) ==> b.bottom + b.height == 24.0
    ensures !Crosses(row) ==> b.bottom + b.height == DecimalHour(row.end)
    ensures Crosses(row) ==> b.height > 0.0
  {
    var startHour := DecimalHour(row.start);
    var endHour := if Crosses(row) then 24.0 else DecimalHour(row.end);
    BabyBar(column, startHour, endHour - startHour)
  }

  /** The offset the inner loop of `plot_sleep` leaves: a crossing session
      sets it to its end hour and any other session leaves it as it is. */
  function SessionsOffset(rows: seq<BabyRow>, offset: real): real
  {
    if |rows| == 0 then offset
    else SessionsOffset(rows[1..], if Crosses(rows[0]) then DecimalHour(rows[0].end) else offset)
  }

  /** The inner loop of `plot_sleep`: one bar per session, in row order,
      and the offset it leaves. */
  function SessionBars(rows: seq<BabyRow>, column: int, offset: real): (r: (seq<BabyBar>, real))
    ensures |r.0| == |rows|
    ensures forall i {:trigger r.0[i]} :: 0 <= i < |rows| ==> r.0[i] == SessionBar(rows[i], column)
  {
    (seq(|rows|, i requires 0 <= i < |rows| => SessionBar(rows[i], column)), SessionsOffset(rows, offset))
  }

  /** When no session of the day crosses midnight, the offset stays what
      the loop started with. */
  lemma {:induction false} NoCrossingKeepsOffset(rows: seq<BabyRow>, column: int, offset: real)
    requires forall i :: 0 <= i < |rows| ==> !Crosses(rows[i])
    ensures SessionBars(rows, column, offset).1 == offset
  {
    NoCrossingOffset(rows, offset);
  }

  lemma {:induction false} NoCrossingOffset(rows: seq<BabyRow>, offset: real)
    requires forall i :: 0 <= i < |rows| ==> !Crosses(rows[i])
    ensures SessionsOffset(rows, offset) == offset
  {
    if |rows| > 0 {
      assert forall i :: 0 <= i < |rows[1..]| ==> rows[1..][i] == rows[i + 1];
      NoCrossingOffset(rows[1..], offset);
    }
  }

  /** The offset after a day is the end hour of the last session that
      crossed midnight: an earlier crossing session's offset is replaced. */
  lemma {:induction false} CarryIsLastCrossing(rows: seq<BabyRow>, column: int, offset: real, i: int)
    requires 0 <= i < |rows| && Crosses(rows[i])
    requires forall j :: i < j < |rows| ==> !Crosses(rows[j])
    ensures SessionBars(rows, column, offset).1 == DecimalHour(rows[i].end)
  {
    LastCrossingOffset(rows, offset, i);
  }

  lemma {:induction false} LastCrossingOffset(rows: seq<BabyRow>, offset: real, i: int)
    requires 0 <= i < |rows| && Crosses(rows[i])
    requires forall j :: i < j < |rows| ==> !Crosses(rows[j])
    ensures SessionsOffset(rows, offset) == DecimalHour(rows[i].end)
  {
    var n := |rows|;
    OffsetOfLastSession(rows, offset);
    if i < n - 1 {
      var prefix := rows[..n - 1];
      assert prefix[i] == rows[i];
      assert forall j :: i < j < |prefix| ==> prefix[j] == rows[j];
      LastCrossingOffset(prefix, offset, i);
    }
  }

  /** The offset after the sessions is set by the last one when it crosses
      midnight, and is otherwise the offset after the sessions before it. */
  lemma {:induction false} OffsetOfLastSession(rows: seq<BabyRow>, offset: real)
    requires |rows| > 0
    ensures SessionsOffset(rows, offset)
         == if Crosses(rows[|rows| - 1]) then DecimalHour(rows[|rows| - 1].end)
            else SessionsOffset(rows[..|rows| - 1], offset)
  {
    var carry := if Crosses(rows[0]) then DecimalHour(rows[0].end) else offset;
    if |rows| > 1 {
      OffsetOfLastSession(rows[1..], carry);
      var prefix := rows[..|rows| - 1];
      assert prefix[0] == rows[0] && prefix[1..] == rows[1..][..|rows| - 2];
    }
  }

  /** The bars drawn in one day's column and the offset handed to the next
      day: a pending nonzero offset first becomes a bar from midnight and is
      reset, then the day's sessions follow. */
  function DayBars(onDate: seq<BabyRow>, column: int, offset: real): (r: (seq<BabyBar>, real))
    ensures |r.0| == |onDate| + (if offset != 0.0 then 1 else 0)
    ensures offset != 0.0 ==> r.0[0] == BabyBar(column, 0.0, offset)
    ensures forall i :: 0 <= i < |r.0| ==> r.0[i].column == column
    ensures forall i :: 0 <= i < |onDate| ==>
      r.0[i + (if offset != 0.0 then 1 else 0)] == SessionBar(onDate[i], column)
    ensures r.1 == SessionBars(onDate, column, 0.0).1
  {
    var pending := if offset != 0.0 then [BabyBar(column, 0.0, offset)] else [];
    var sessions := SessionBars(onDate, column, 0.0);
    (pending + sessions.0, sessions.1)
  }

  /** The bars drawn, the `date_num` the loop ends with, and the offset
      left over. */
  datatype SleepPlot = SleepPlot(bars: seq<BabyBar>, dateNum: int, offset: real)

  /** The outer loop of `plot_sleep` over `remaining` days from `day`, with
      `date_num` and the offset it starts with. */
  function PlotDays(rows: seq<BabyRow>, day: int, remaining: nat, dateNum: int, offset: real): (r: SleepPlot)
    ensures r.dateNum == dateNum + remaining
    ensures forall k :: 0 <= k < |r.bars| ==> dateNum <= r.bars[k].column < dateNum + remaining
    decreases remaining
  {
    if remaining == 0 then SleepPlot([], dateNum, offset)
    else
      var today := DayBars(Select(rows, StartDate, day), dateNum, offset);
      var rest := PlotDays(rows, day + 1, remaining - 1, dateNum + 1, today.1);
      var bars := today.0 + rest.bars;
      assert forall k :: |today.0| <= k < |bars| ==> bars[k] == rest.bars[k - |today.0|];
      SleepPlot(bars, rest.dateNum, rest.offset)
  }

  /** `plot_sleep`: `date_num` starts at 1 and the offset at 0. */
  function PlotSleep(data: seq<BabyRow>): (r: Result<SleepPlot>)
    ensures r.Fail? <==> GetSleepData(data).Fail?
    ensures r.Ok? ==> var s := GetSleepData(data).value;
              var days := if s.startDate <= s.endDate then s.endDate - s.startDate + 1 else 0;
              r.value.dateNum == days + 1
              && forall k :: 0 <= k < |r.value.bars| ==> 1 <= r.value.bars[k].column <= days
  {
    match GetSleepData(data)
    case Fail(f) => Fail(f)
    case Ok(s) =>
      var days := if s.startDate <= s.endDate then s.endDate - s.startDate + 1 else 0;
      Ok(PlotDays(s.rows, s.startDate, days, 1, 0.0))
  }

  /** Column c + 1 opens with the offset carried from column c: the end
      hour of the last session of day c that crossed midnight, drawn from
      midnight; a day whose sessions end before midnight hands nothing on. */
  lemma {:induction false} NextColumnOpensWithCarry(rows: seq<BabyRow>, day: int, remaining: nat, dateNum: int, offset: real)
    requires remaining >= 2
    ensures var today := DayBars(Select(rows, StartDate, day), dateNum, offset);
            var next := PlotDays(rows, day + 1, remaining - 1, dateNum + 1, today.1);
            && PlotDays(rows, day, remaining, dateNum, offset).bars == today.0 + next.bars
            && (today.1 != 0.0 ==> next.bars[0] == BabyBar(dateNum + 1, 0.0, today.1))
            && ((forall i :: 0 <= i < |Select(rows, StartDate, day)| ==> !Crosses(Select(rows, StartDate, day)[i])) ==> today.1 == 0.0)
  {
    var onDate := Select(rows, StartDate, day);
    var today := DayBars(onDate, dateNum, offset);
    if forall i :: 0 <= i < |onDate| ==> !Crosses(onDate[i]) {
      NoCrossingKeepsOffset(onDate, dateNum, 0.0);
    }
    PlotDaysStep(rows, day, remaining, dateNum, offset);
    PlotDaysStep(rows, day + 1, remaining - 1, dateNum + 1, today.1);
  }

  /** The walk over `remaining` days draws the first day's bars, then walks
      the rest with the offset that day hands on. */
  lemma {:induction false} PlotDaysStep(rows: seq<BabyRow>, day: int, remaining: nat, dateNum: int, offset: real)
    requires remaining >= 1
    ensures var today := DayBars(Select(rows, StartDate, day), dateNum, offset);
            PlotDays(rows, day, remaining, dateNum, offset).bars
            == today.0 + PlotDays(rows, day + 1, remaining - 1, dateNum + 1, today.1).bars
  {
  }

  // Axis ticks ------------------------------------------------------------

  const BABY_WEEK_TICK_DAYS: int := 7
  const BABY_MONTH_TICK_DAYS: int := 30

  /** `np.arange(1, date_num, 7)` */
  function BabyWeekTicks(dateNum: int): (r: seq<int>)
    ensures forall j :: 0 <= j < |r| ==> r[j] == 1 + 7 * j && r[j] < dateNum
    ensures |r| == if dateNum > 1 then CeilDiv(dateNum - 1, 7) else 0
  {
    if dateNum > 1 then ArangeLength(1, dateNum, BABY_WEEK_TICK_DAYS); Arange(1, dateNum, BABY_WEEK_TICK_DAYS)
    else Arange(1, dateNum, BABY_WEEK_TICK_DAYS)
  }

  /** `np.arange(1, date_num, 30)` */
  function BabyMonthTicks(dateNum: int): (r: seq<int>)
    ensures forall j :: 0 <= j < |r| ==> r[j] == 1 + 30 * j && r[j] < dateNum
    ensures |r| == if dateNum > 1 then CeilDiv(dateNum - 1, 30) else 0
  {
    if dateNum > 1 then ArangeLength(1, dateNum, BABY_MONTH_TICK_DAYS); Arange(1, dateNum, BABY_MONTH_TICK_DAYS)
    else Arange(1, dateNum, BABY_MONTH_TICK_DAYS)
  }

  /** There is one week tick for each of the 52 week labels exactly when
      `date_num` is from 359 to 365: a shorter chart leaves labels unused, a
      longer one leaves ticks unlabelled. */
  lemma {:induction false} WeekLabelsFitTicks(dateNum: int)
    ensures |BabyWeekTicks(dateNum)| == WEEK_LABEL_COUNT <==> 359 <= dateNum <= 365
  {
  }

  /** The same for the 12 month labels: `date_num` from 332 to 361. */
  lemma {:induction false} MonthLabelsFitTicks(dateNum: int)
    ensures |BabyMonthTicks(dateNum)| == MONTH_LABEL_COUNT <==> 332 <= dateNum <= 361
  {
  }

  /** Where a week tick has a label, the label's number is the number of
      whole weeks from the first day to the tick's day; for month ticks it
      is the number of 30-day blocks. */
  lemma {:induction false} TickLabelsCountFromFirstDay(dateNum: int, j: int)
    ensures 0 <= j < |BabyWeekTicks(dateNum)| && j < WEEK_LABEL_COUNT ==>
              ParseNat(EnumerateLabels().weeks[j][|WEEK_PREFIX|..]) == (BabyWeekTicks(dateNum)[j] - 1) / BABY_WEEK_TICK_DAYS
    ensures 0 <= j < |BabyMonthTicks(dateNum)| && j < MONTH_LABEL_COUNT ==>
              ParseNat(EnumerateLabels().months[j][|MONTH_PREFIX|..]) == (BabyMonthTicks(dateNum)[j] - 1) / BABY_MONTH_TICK_DAYS
  {
    NumberedLabelsNameTheirPosition(WEEK_PREFIX, WEEK_LABEL_COUNT);
    NumberedLabelsNameTheirPosition(MONTH_PREFIX, MONTH_LABEL_COUNT);
  }

  // Hatch table of baby_plot_daily.py -------------------------------------

  /** `parse_hatch_data` of baby_plot_daily.py: the start time cut to its
      date, sorted, and every day weighed more than once removed, without
      the reindexing of the later version. */
  function ParseBabyHatchData(raw: seq<Growth.RawHatchRow>, parseDate: string -> int): (r: seq<Growth.HatchRow>)
    ensures StrictlyIncreasing(r, Growth.HatchDate)
    ensures forall x :: x in r <==> x in Growth.ReadStartTimes(raw, parseDate) && Growth.SingleReading(Growth.ReadStartTimes(raw, parseDate), x)
  {
    Growth.DropDuplicateDates(Growth.ReadStartTimes(raw, parseDate))
  }
}
