/** The data behind the 24-hour charts (agenoria/plot_24h_viz.py): clock
    times in decimal hours, day numbers counted from the oldest row, the
    split of overnight sleep into two bars, and the diaper colour keys. */
module Viz24h {
  import opened Outcomes
  import opened Clock
  import opened Grouping
  import SleepStats

  /** The chart's last column when only the first year is shown. */
  const FIRST_YEAR_DAYS: int := 365

  /** A table row with the two columns `parse_raw_data` adds. */
  datatype Plotted<T> = Plotted(row: T, timestampHour: real, dayNumber: int)

  /** One `broken_barh` call: a one-day-wide column at `column`, covering
      the clock hours from `bottom` to `bottom + height`. */
  datatype Bar = Bar(column: int, bottom: real, height: real)

  function DayNumber<T>(p: Plotted<T>): int
  {
    p.dayNumber
  }

  function RowOf<T>(p: Plotted<T>): T
  {
    p.row
  }

  /** `get_end_date`: the chart's last day, either a fixed year or the day
      number of the first row. */
  function GetEndDate(dayNumbers: seq<int>, firstYearOnly: bool): (r: Result<int>)
    ensures firstYearOnly ==> r == Ok(FIRST_YEAR_DAYS)
    ensures !firstYearOnly ==> (r.Fail? <==> |dayNumbers| == 0)
    ensures !firstYearOnly && r.Ok? ==> r.value == dayNumbers[0]
  {
    if firstYearOnly then Ok(FIRST_YEAR_DAYS)
    else if |dayNumbers| == 0 then Fail(NoRows)
    else Ok(dayNumbers[0])
  }

  /** `parse_raw_data`: adds the clock time of `stamp` in decimal hours and
      the day number counted from the last row's date (which is day 1);
      every other column is kept as it was. An empty table has no last row. */
  function ParseRawData<T>(rows: seq<T>, stamp: T -> Timestamp, date: T -> int): (r: Result<seq<Plotted<T>>>)
    ensures r.Fail? <==> |rows| == 0
    ensures r.Ok? ==> |r.value| == |rows|
    ensures r.Ok? ==> forall i :: 0 <= i < |rows| ==> r.value[i].row == rows[i]
    ensures r.Ok? ==> forall i :: 0 <= i < |rows| ==>
              0.0 <= r.value[i].timestampHour < 24.0
              && r.value[i].timestampHour == DecimalHour(stamp(rows[i]))
    ensures r.Ok? ==> r.value[|rows| - 1].dayNumber == 1
    ensures r.Ok? ==> forall i, j :: 0 <= i < |rows| && 0 <= j < |rows| ==>
              r.value[i].dayNumber - r.value[j].dayNumber == date(rows[i]) - date(rows[j])
  {
    if |rows| == 0 then Fail(NoRows)
    else
      var start := date(rows[|rows| - 1]);
      Ok(seq(|rows|, i requires 0 <= i < |rows| =>
        Plotted(rows[i], DecimalHour(stamp(rows[i])), date(rows[i]) - start + 1)))
  }

  /** The `day_number` column. */
  function DayNumbers<T>(ps: seq<Plotted<T>>): (r: seq<int>)
    ensures |r| == |ps|
    ensures forall i :: 0 <= i < |ps| ==> r[i] == ps[i].dayNumber
  {
    seq(|ps|, i requires 0 <= i < |ps| => ps[i].dayNumber)
  }

  /** The rows as they were before the two columns were added. */
  function Rows<T>(ps: seq<Plotted<T>>): (r: seq<T>)
    ensures |r| == |ps|
    ensures forall i :: 0 <= i < |ps| ==> r[i] == ps[i].row
  {
    seq(|ps|, i requires 0 <= i < |ps| => ps[i].row)
  }

  /** Dropping the added columns gives back the table. */
  lemma {:induction false} ParseKeepsRows<T>(rows: seq<T>, stamp: T -> Timestamp, date: T -> int)
    requires |rows| > 0
    ensures ParseRawData(rows, stamp, date).Ok?
    ensures Rows(ParseRawData(rows, stamp, date).value) == rows
  {
  }

  /** With the table newest first (as the configuration sorts it), every day
      number is at least 1 and at most the first row's, and the first row's
      is the number of calendar days the table spans. */
  lemma {:induction false} DayNumbersFromOne<T>(rows: seq<T>, stamp: T -> Timestamp, date: T -> int)
    requires |rows| > 0
    requires forall i, j :: 0 <= i <= j < |rows| ==> date(rows[i]) >= date(rows[j])
    ensures ParseRawData(rows, stamp, date).Ok?
    ensures forall i :: 0 <= i < |rows| ==>
              1 <= ParseRawData(rows, stamp, date).value[i].dayNumber
                <= ParseRawData(rows, stamp, date).value[0].dayNumber
    ensures ParseRawData(rows, stamp, date).value[0].dayNumber
         == date(rows[0]) - date(rows[|rows| - 1]) + 1
  {
    var ps := ParseRawData(rows, stamp, date).value;
    forall i | 0 <= i < |rows|
      ensures 1 <= ps[i].dayNumber <= ps[0].dayNumber
    {
      assert date(rows[i]) >= date(rows[|rows| - 1]);
      assert date(rows[0]) >= date(rows[i]);
    }
  }

  /** Without the first-year cut-off, the chart ends at the newest row's day
      number: no row falls to the right of the last column. */
  lemma {:induction false} EndDateCoversEveryRow<T>(rows: seq<T>, stamp: T -> Timestamp, date: T -> int)
    requires |rows| > 0
    requires forall i, j :: 0 <= i <= j < |rows| ==> date(rows[i]) >= date(rows[j])
    ensures ParseRawData(rows, stamp, date).Ok?
    ensures GetEndDate(DayNumbers(ParseRawData(rows, stamp, date).value), false)
         == Ok(date(rows[0]) - date(rows[|rows| - 1]) + 1)
    ensures forall i :: 0 <= i < |rows| ==>
              ParseRawData(rows, stamp, date).value[i].dayNumber
                <= GetEndDate(DayNumbers(ParseRawData(rows, stamp, date).value), false).value
  {
    DayNumbersFromOne(rows, stamp, date);
  }

  // The midnight split of the sleep chart -------------------------------

  /** The session ends on a later calendar day than its "Date". */
  predicate PlottedCrosses(p: Plotted<SleepSession>)
  {
    SleepStats.CrossesMidnight(p.row)
  }

  type SleepSession = SleepStats.SleepSession

  /** The "end_timestamp_hour" column. */
  function EndHour(p: Plotted<SleepSession>): (r: real)
    ensures 0.0 <= r < 24.0
  {
    DecimalHour(p.row.end)
  }

  /** The bar drawn on the session's own day: up to its end, or cut off at
      midnight when the session runs into the next day. */
  function MainBar(p: Plotted<SleepSession>): Bar
  {
    if PlottedCrosses(p) then Bar(p.dayNumber, p.timestampHour, 24.0 - p.timestampHour)
    else Bar(p.dayNumber, p.timestampHour, EndHour(p) - p.timestampHour)
  }

  /** The bar drawn on the next day for the part after midnight. */
  function OffsetBar(p: Plotted<SleepSession>): Bar
  {
    Bar(p.dayNumber + 1, 0.0, EndHour(p))
  }

  function BarHeight(b: Bar): real
  {
    b.height
  }

  /** One bar per row, made by `f`, in table order. */
  function BarsOf(ps: seq<Plotted<SleepSession>>, f: Plotted<SleepSession> -> Bar): (r: seq<Bar>)
    ensures |r| == |ps|
    ensures forall i :: 0 <= i < |ps| ==> r[i] == f(ps[i])
  {
    if |ps| == 0 then [] else [f(ps[0])] + BarsOf(ps[1..], f)
  }

  /** Every bar of `plot_sleep_24h_viz`: first the next-day parts of the
      overnight sessions, then one bar per session on its own day. */
  function SleepBars(ps: seq<Plotted<SleepSession>>): (r: seq<Bar>)
    ensures |r| == |Filter(ps, PlottedCrosses)| + |ps|
  {
    BarsOf(Filter(ps, PlottedCrosses), OffsetBar) + BarsOf(ps, MainBar)
  }

  /** A plotted row whose clock column was computed from its beginning. */
  predicate FromBegin(p: Plotted<SleepSession>)
  {
    p.timestampHour == DecimalHour(p.row.begin)
  }

  /** The hours a session occupies on the chart, over both of its bars. */
  function DrawnHours(p: Plotted<SleepSession>): real
  {
    MainBar(p).height + (if PlottedCrosses(p) then OffsetBar(p).height else 0.0)
  }

  /** A session on one day gets the single bar from its start to its end; an
      overnight session gets a bar from its start up to midnight (hour 24)
      and one on the next column from hour 0 to its end, so its two pieces
      add up to 24 - start + end. */
  lemma {:induction false} SessionBars(p: Plotted<SleepSession>)
    requires FromBegin(p)
    ensures !PlottedCrosses(p) ==>
              MainBar(p).bottom == DecimalHour(p.row.begin)
              && MainBar(p).bottom + MainBar(p).height == DecimalHour(p.row.end)
    ensures PlottedCrosses(p) ==>
              MainBar(p).column == p.dayNumber
              && MainBar(p).bottom + MainBar(p).height == 24.0
              && OffsetBar(p).column == p.dayNumber + 1
              && OffsetBar(p).bottom == 0.0
              && DrawnHours(p) == 24.0 - DecimalHour(p.row.begin) + DecimalHour(p.row.end)
  {
  }

  /** The next-day bar is exactly the carry that the daily sleep totals move
      into the next day. */
  lemma {:induction false} OffsetBarIsCarry(p: Plotted<SleepSession>)
    requires PlottedCrosses(p)
    ensures OffsetBar(p).height == SleepStats.Offset(p.row)
  {
  }

  /** Every bar stays inside the 24-hour column. */
  lemma {:induction false} BarsInsideTheDay(ps: seq<Plotted<SleepSession>>)
    requires forall i :: 0 <= i < |ps| ==> FromBegin(ps[i])
    ensures forall k :: 0 <= k < |SleepBars(ps)| ==>
              0.0 <= SleepBars(ps)[k].bottom
              && SleepBars(ps)[k].bottom + SleepBars(ps)[k].height <= 24.0
  {
    var offs := BarsOf(Filter(ps, PlottedCrosses), OffsetBar);
    var mains := BarsOf(ps, MainBar);
    forall k | 0 <= k < |SleepBars(ps)|
      ensures 0.0 <= SleepBars(ps)[k].bottom
      ensures SleepBars(ps)[k].bottom + SleepBars(ps)[k].height <= 24.0
    {
      if k >= |offs| {
        var p := ps[k - |offs|];
        assert SleepBars(ps)[k] == MainBar(p);
        assert p.timestampHour == DecimalHour(p.row.begin);
      }
    }
  }

  /** A session that ends no earlier than it begins gets bars of
      non-negative height. */
  lemma {:induction false} BarsNonNegative(p: Plotted<SleepSession>)
    requires FromBegin(p)
    requires Instant(p.row.begin) <= Instant(p.row.end)
    ensures MainBar(p).height >= 0.0 && OffsetBar(p).height >= 0.0
  {
    if !PlottedCrosses(p) {
      assert p.row.end.day == p.row.begin.day;
      assert p.row.begin.second <= p.row.end.second;
      HourMonotone(p.row.begin, p.row.end);
    }
  }

  /** The decimal hour grows with the second of the day. */
  lemma {:induction false} HourMonotone(a: Timestamp, b: Timestamp)
    requires a.second <= b.second
    ensures DecimalHour(a) <= DecimalHour(b)
  {
    var ha, hb := Hour(a), Hour(b);
    if ha == hb {
      assert Minute(a) <= Minute(b);
    }
  }

  /** The bars add up to the drawn hours of the sessions. */
  lemma {:induction false} SleepBarsTotal(ps: seq<Plotted<SleepSession>>)
    ensures Total(SleepBars(ps), BarHeight) == Total(ps, DrawnHours)
  {
    var offs := Filter(ps, PlottedCrosses);
    TotalAppend(BarsOf(offs, OffsetBar), BarsOf(ps, MainBar), BarHeight);
    BarsOfTotal(offs, OffsetBar, OffsetHeight);
    BarsOfTotal(ps, MainBar, MainHeight);
    FilterTotal(ps, PlottedCrosses, OffsetHeight, CarriedHeight);
    TotalSplit(ps, DrawnHours, MainHeight, CarriedHeight);
  }

  function MainHeight(p: Plotted<SleepSession>): real
  {
    MainBar(p).height
  }

  function OffsetHeight(p: Plotted<SleepSession>): real
  {
    OffsetBar(p).height
  }

  function CarriedHeight(p: Plotted<SleepSession>): real
  {
    if PlottedCrosses(p) then OffsetBar(p).height else 0.0
  }

  lemma {:induction false} BarsOfTotal(ps: seq<Plotted<SleepSession>>, f: Plotted<SleepSession> -> Bar,
                                       h: Plotted<SleepSession> -> real)
    requires forall p :: h(p) == f(p).height
    ensures Total(BarsOf(ps, f), BarHeight) == Total(ps, h)
  {
    if |ps| > 0 {
      BarsOfTotal(ps[1..], f, h);
      assert BarsOf(ps, f)[1..] == BarsOf(ps[1..], f);
    }
  }

  /** A timestamp on a whole minute, as the app logs them. */
  predicate WholeMinute(t: Timestamp)
  {
    t.second % 60 == 0
  }

  lemma {:induction false} WholeMinuteHour(t: Timestamp)
    requires WholeMinute(t)
    ensures DecimalHour(t) == t.second as real / 3600.0
  {
    var h, m := Hour(t), Minute(t);
    assert t.second == h * 3600 + m * 60;
  }

  /** A session logged on whole minutes that ends no earlier than it begins
      and at the latest on the next day is drawn for exactly its duration. */
  lemma {:induction false} DrawnHoursAreDuration(p: Plotted<SleepSession>)
    requires FromBegin(p)
    requires WholeMinute(p.row.begin) && WholeMinute(p.row.end)
    requires Instant(p.row.begin) <= Instant(p.row.end)
    requires p.row.end.day <= p.row.begin.day + 1
    ensures DrawnHours(p) == SleepStats.Duration(p.row)
  {
    WholeMinuteHour(p.row.begin);
    WholeMinuteHour(p.row.end);
    var b: int, e: int := p.row.begin.second, p.row.end.second;
    if PlottedCrosses(p) {
      assert Instant(p.row.end) - Instant(p.row.begin) == 86400 + e - b;
      assert SleepStats.Duration(p.row) == (86400 + e - b) as real / 3600.0;
    } else {
      assert p.row.end.day == p.row.begin.day;
      assert Instant(p.row.end) - Instant(p.row.begin) == e - b;
      assert SleepStats.Duration(p.row) == (e - b) as real / 3600.0;
    }
  }

  /** Such sessions make the 24-hour sleep chart show exactly the logged
      sleep: the bars add up to the sum of the session durations. */
  lemma {:induction false} ChartShowsLoggedSleep(sessions: seq<SleepSession>)
    requires |sessions| > 0
    requires forall i :: 0 <= i < |sessions| ==>
               WholeMinute(sessions[i].begin) && WholeMinute(sessions[i].end)
               && Instant(sessions[i].begin) <= Instant(sessions[i].end)
               && sessions[i].end.day <= sessions[i].begin.day + 1
    ensures ParseRawData(sessions, Begin, SleepStats.SessionDate).Ok?
    ensures Total(SleepBars(ParseRawData(sessions, Begin, SleepStats.SessionDate).value), BarHeight)
         == Total(sessions, SleepStats.Duration)
  {
    var ps := ParseRawData(sessions, Begin, SleepStats.SessionDate).value;
    SleepBarsTotal(ps);
    forall i | 0 <= i < |ps|
      ensures DrawnHours(ps[i]) == SleepStats.Duration(sessions[i])
    {
      assert ps[i].row == sessions[i];
      DrawnHoursAreDuration(ps[i]);
    }
    TotalPointwise(ps, DrawnHours, sessions, SleepStats.Duration);
  }

  /** The "Begin time" column. */
  function Begin(s: SleepSession): Timestamp
  {
    s.begin
  }

  // Diaper colours -------------------------------------------------------

  /** The colour keys of the diaper chart's legend. */
  const LEGEND_KEYS: seq<string> := ["b", "g", "m", "r", "y"]

  /** `map_poop_color`: a missing colour is a pee-only change (yellow dot);
      the three named poop colours get their own key; any other colour is
      red. */
  function MapPoopColor(color: Option<string>): (r: string)
    ensures r == "y" <==> color.None?
    ensures r == "b" <==> color == Some("yellow")
    ensures r == "g" <==> color == Some("green")
    ensures r == "m" <==> color == Some("brown")
    ensures r == "r" <==> color.Some? && color.value != "yellow"
                          && color.value != "green" && color.value != "brown"
  {
    match color
    case None => "y"
    case Some(c) =>
      if c == "yellow" then "b"
      else if c == "green" then "g"
      else if c == "brown" then "m"
      else "r"
  }

  /** Every dot's colour has an entry in the legend, and every legend entry
      is the colour of some input. */
  lemma {:induction false} ColorKeysMatchLegend(color: Option<string>)
    ensures MapPoopColor(color) in LEGEND_KEYS
    ensures forall k :: k in LEGEND_KEYS ==>
              exists c: Option<string> :: MapPoopColor(c) == k
  {
    assert MapPoopColor(Some("yellow")) == "b";
    assert MapPoopColor(Some("green")) == "g";
    assert MapPoopColor(Some("brown")) == "m";
    assert MapPoopColor(Some("orange")) == "r";
    assert MapPoopColor(None) == "y";
  }
}
