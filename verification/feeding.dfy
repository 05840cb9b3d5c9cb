/** Daily feeding statistics and the bottle/solid merge
    (agenoria/plot_feeding_stats_charts.py and the earlier variants in
    agenoria/plot_daily_charts.py, agenoria/plot_sleep_feeding_charts.py
    and Projects/BabyData/baby_plot_daily.py). */
module FeedingStats {
  import opened Outcomes
  import opened Clock
  import opened Seqs
  import opened Sorting
  import opened Grouping
  import opened DayWindows

  /** Millilitres per US fluid ounce. */
  const ML_PER_OZ: real := 29.5735

  /** One logged feeding: its time and its amount (None when the cell is
      empty). */
  datatype Feeding = Feeding(time: Timestamp, amount: Option<real>)

  /** The five column reductions of one day. */
  datatype FeedingBasics = FeedingBasics(
    date: int,
    sum: real,
    mean: Option<real>,
    min: Option<real>,
    max: Option<real>,
    sessions: nat)

  /** One row of the current daily table: the reductions, the gaps between
      daytime feedings, and the daytime and nighttime sums. */
  datatype FeedingDay = FeedingDay(
    basics: FeedingBasics,
    gapMax: Option<real>,
    gapMean: Option<real>,
    gapMin: Option<real>,
    daytimeSum: real,
    nighttimeSum: real)

  /** The "Date" column: the calendar day of the feeding. */
  function FeedDate(f: Feeding): int
  {
    f.time.day
  }

  function FeedInstant(f: Feeding): int
  {
    Instant(f.time)
  }

  /** The recorded amounts, in row order, skipping empty cells. */
  function Amounts(rows: seq<Feeding>): (r: seq<real>)
    ensures |r| <= |rows|
  {
    if |rows| == 0 then []
    else (if rows[0].amount.Some? then [rows[0].amount.value] else []) + Amounts(rows[1..])
  }

  /** The amount of a feeding, an empty cell counting as zero. */
  function AmountOrZero(f: Feeding): real
  {
    if f.amount.Some? then f.amount.value else 0.0
  }

  /** `sum()` skips empty cells: it is the total with empty cells as zero. */
  lemma {:induction false} AmountsTotal(rows: seq<Feeding>)
    ensures Sum(Amounts(rows)) == Total(rows, AmountOrZero)
  {
    if |rows| > 0 {
      AmountsTotal(rows[1..]);
      var head := if rows[0].amount.Some? then [rows[0].amount.value] else [];
      SumAppend(head, Amounts(rows[1..]));
    }
  }

  /** `sum`, `mean`, `max`, `min` and `count` of the amount column of one
      day's rows. */
  function FeedingBasicsOf(rows: seq<Feeding>, d: int): (r: FeedingBasics)
    ensures r.date == d
    ensures r.sessions == |Amounts(rows)| && r.sum == Total(rows, AmountOrZero)
    ensures r.sessions == 0 ==> r.sum == 0.0
    ensures r.mean.None? <==> r.sessions == 0
    ensures r.min.None? <==> r.sessions == 0
    ensures r.max.None? <==> r.sessions == 0
    ensures r.mean.Some? ==> r.mean.value == r.sum / r.sessions as real
    ensures r.min == MinOpt(Amounts(rows)) && r.max == MaxOpt(Amounts(rows))
    ensures r.min.Some? ==>
      r.min.value in Amounts(rows) && forall i :: 0 <= i < |Amounts(rows)| ==> r.min.value <= Amounts(rows)[i]
    ensures r.max.Some? ==>
      r.max.value in Amounts(rows) && forall i :: 0 <= i < |Amounts(rows)| ==> Amounts(rows)[i] <= r.max.value
    ensures r.sessions > 0 ==> r.min.value <= r.mean.value <= r.max.value
  {
    var amounts := Amounts(rows);
    AmountsTotal(rows);
    var mean := MeanOpt(amounts);
    assert |amounts| > 0 ==> MinOpt(amounts).value <= MeanOpt(amounts).value <= MaxOpt(amounts).value by {
      if |amounts| > 0 {
        MeanBetweenMinAndMax(amounts);
      }
    }
    var r := FeedingBasics(d, Sum(amounts), mean, MinOpt(amounts), MaxOpt(amounts), |amounts|);
    r
  }

  /** The loop over start..end of the earlier variants: row i reduces the
      feedings of day start + i. */
  function BasicsSeries(rows: seq<Feeding>, start: int, end: int): (r: seq<FeedingBasics>)
    ensures |r| == if start <= end then end - start + 1 else 0
  {
    var n := if start <= end then end - start + 1 else 0;
    seq(n, i requires 0 <= i < n => FeedingBasicsOf(Select(rows, FeedDate, start + i), start + i))
  }

  /** `parse_glow_feeding_data` of agenoria/plot_daily_charts.py and
      agenoria/plot_sleep_feeding_charts.py, and
      `parse_glow_daily_feeding_data` of Projects/BabyData/baby_plot_daily.py:
      the range runs from the last row's date to the first row's date; an
      empty table has no last row. */
  function ParseFeedingBasics(rows: seq<Feeding>): (r: Result<seq<FeedingBasics>>)
    ensures r.Fail? <==> |rows| == 0
    ensures r.Fail? ==> r.failure == NoRows
    ensures r.Ok? ==> r.value == BasicsSeries(rows, FeedDate(rows[|rows| - 1]), FeedDate(rows[0]))
  {
    if |rows| == 0 then Fail(NoRows)
    else Ok(BasicsSeries(rows, FeedDate(rows[|rows| - 1]), FeedDate(rows[0])))
  }

  /** Each row is day start + i, and its reductions are those of the day's
      amounts: a day without amounts sums to zero and has no mean, min or
      max; otherwise min and max are the smallest and largest amount,
      min <= mean <= max and mean is sum / sessions. */
  lemma {:induction false} BasicsRows(rows: seq<Feeding>, i: int)
    requires ParseFeedingBasics(rows).Ok?
    requires 0 <= i < |ParseFeedingBasics(rows).value|
    ensures var b := ParseFeedingBasics(rows).value[i];
      var day := Select(rows, FeedDate, FeedDate(rows[|rows| - 1]) + i);
      && b.date == FeedDate(rows[|rows| - 1]) + i
      && b.sessions == |Amounts(day)| && b.sum == Total(day, AmountOrZero)
      && (b.sessions == 0 ==> b.sum == 0.0 && b.mean.None? && b.min.None? && b.max.None?)
      && (b.sessions > 0 ==> b.min.value <= b.mean.value <= b.max.value
                             && b.mean.value == b.sum / b.sessions as real)
      && (b.min.Some? ==> b.min.value in Amounts(day)
                          && forall k :: 0 <= k < |Amounts(day)| ==> b.min.value <= Amounts(day)[k])
      && (b.max.Some? ==> b.max.value in Amounts(day)
                          && forall k :: 0 <= k < |Amounts(day)| ==> Amounts(day)[k] <= b.max.value)
  {
    var start, end := FeedDate(rows[|rows| - 1]), FeedDate(rows[0]);
    var series := BasicsSeries(rows, start, end);
    assert ParseFeedingBasics(rows).value == series;
    assert series[i] == FeedingBasicsOf(Select(rows, FeedDate, start + i), start + i);
  }

  // Daytime and nighttime --------------------------------------------------

  /** Hours from each daytime feeding to the next one: `diff()` without its
      leading NaN. */
  function Gaps(rows: seq<Feeding>): (r: seq<real>)
    ensures |r| == if |rows| < 2 then 0 else |rows| - 1
    ensures forall i {:trigger r[i]} :: 0 <= i < |r| ==> r[i] == HoursBetween(rows[i].time, rows[i + 1].time)
  {
    if |rows| < 2 then []
    else seq(|rows| - 1, i requires 0 <= i < |rows| - 1 => HoursBetween(rows[i].time, rows[i + 1].time))
  }

  /** The gaps add up to the span from the first to the last feeding. */
  lemma {:induction false} GapsTelescope(rows: seq<Feeding>)
    requires |rows| >= 2
    ensures Sum(Gaps(rows)) == HoursBetween(rows[0].time, rows[|rows| - 1].time)
  {
    if |rows| > 2 {
      GapsTelescope(rows[1..]);
      assert Gaps(rows)[1..] == Gaps(rows[1..]);
    } else {
      assert Gaps(rows)[1..] == [];
    }
  }

  /** Feedings in time order have non-negative gaps. */
  lemma {:induction false} GapsNonNegative(rows: seq<Feeding>)
    requires SortedBy(rows, FeedInstant)
    ensures forall i :: 0 <= i < |Gaps(rows)| ==> Gaps(rows)[i] >= 0.0
  {
    forall i | 0 <= i < |Gaps(rows)| ensures Gaps(rows)[i] >= 0.0 {
      assert FeedInstant(rows[i]) <= FeedInstant(rows[i + 1]);
    }
  }

  predicate DaytimeFeed(f: Feeding)
  {
    Daytime(f.time)
  }

  predicate NighttimeFeed(f: Feeding)
  {
    Nighttime(f.time)
  }

  /** A feeding in the 20:00 hour, which neither window takes. */
  predicate EightPmFeed(f: Feeding)
  {
    Hour(f.time) == 20
  }

  function DaytimeRows(rows: seq<Feeding>): seq<Feeding>
  {
    Filter(rows, DaytimeFeed)
  }

  function NighttimeRows(rows: seq<Feeding>): seq<Feeding>
  {
    Filter(rows, NighttimeFeed)
  }

  function EightPmRows(rows: seq<Feeding>): seq<Feeding>
  {
    Filter(rows, EightPmFeed)
  }

  function DaytimeAmount(f: Feeding): real
  {
    if DaytimeFeed(f) then AmountOrZero(f) else 0.0
  }

  function NighttimeAmount(f: Feeding): real
  {
    if NighttimeFeed(f) then AmountOrZero(f) else 0.0
  }

  function EightPmAmount(f: Feeding): real
  {
    if EightPmFeed(f) then AmountOrZero(f) else 0.0
  }

  function OutsideDaytimeAmount(f: Feeding): real
  {
    NighttimeAmount(f) + EightPmAmount(f)
  }

  /** The gaps between time-ordered feedings are non-negative, their
      min <= mean <= max, and their mean is the span from the first to the
      last feeding over the number of gaps. */
  lemma {:induction false} GapStats(day: seq<Feeding>)
    requires SortedBy(day, FeedInstant) && |day| >= 2
    ensures 0.0 <= MinOpt(Gaps(day)).value <= MeanOpt(Gaps(day)).value <= MaxOpt(Gaps(day)).value
    ensures MeanOpt(Gaps(day)).value == HoursBetween(day[0].time, day[|day| - 1].time) / (|day| - 1) as real
  {
    var gaps := Gaps(day);
    GapsNonNegative(day);
    MeanBetweenMinAndMax(gaps);
    GapsTelescope(day);
  }

  /** Sorting a day's rows by time neither changes its sum nor which rows
      fall in each window. */
  lemma {:induction false} SortedWindows(rows: seq<Feeding>)
    ensures Total(SortBy(rows, FeedInstant), AmountOrZero) == Total(rows, AmountOrZero)
    ensures DaytimeRows(SortBy(rows, FeedInstant)) == SortBy(DaytimeRows(rows), FeedInstant)
    ensures NighttimeRows(SortBy(rows, FeedInstant)) == SortBy(NighttimeRows(rows), FeedInstant)
    ensures Total(DaytimeRows(SortBy(rows, FeedInstant)), AmountOrZero) == Total(DaytimeRows(rows), AmountOrZero)
    ensures Total(NighttimeRows(SortBy(rows, FeedInstant)), AmountOrZero) == Total(NighttimeRows(rows), AmountOrZero)
    ensures |DaytimeRows(SortBy(rows, FeedInstant))| == |DaytimeRows(rows)|
  {
    SortTotal(rows, FeedInstant, AmountOrZero);
    FilterSortBy(rows, FeedInstant, DaytimeFeed);
    FilterSortBy(rows, FeedInstant, NighttimeFeed);
    SortTotal(DaytimeRows(rows), FeedInstant, AmountOrZero);
    SortTotal(NighttimeRows(rows), FeedInstant, AmountOrZero);
  }

  /** One day of `parse_glow_feeding_data` (current variant), from that
      day's rows in any order. */
  function SummarizeFeedingDay(rows: seq<Feeding>, d: int): FeedingDay
  {
    var sorted := SortBy(rows, FeedInstant);
    var day := DaytimeRows(sorted);
    var gaps := Gaps(day);
    FeedingDay(FeedingBasicsOf(sorted, d), MaxOpt(gaps), MeanOpt(gaps), MinOpt(gaps),
               Total(day, AmountOrZero), Total(NighttimeRows(sorted), AmountOrZero))
  }

  /** The amounts of a row inserted into a table are the table's amounts
      and the row's own. */
  lemma {:induction false} AmountsInsert(x: Feeding, s: seq<Feeding>, key: Feeding -> int)
    ensures multiset(Amounts(Insert(x, s, key))) == multiset(Amounts([x])) + multiset(Amounts(s))
  {
    if |s| > 0 && key(x) > key(s[0]) {
      AmountsInsert(x, s[1..], key);
      var r := Insert(x, s, key);
      assert r[0] == s[0] && r[1..] == Insert(x, s[1..], key);
    } else if |s| > 0 {
      assert Insert(x, s, key) == [x] + s;
      assert ([x] + s)[1..] == s;
    }
  }

  /** Sorting a day's rows only reorders its amounts. */
  lemma {:induction false} AmountsSortPermutes(rows: seq<Feeding>)
    ensures multiset(Amounts(SortBy(rows, FeedInstant))) == multiset(Amounts(rows))
  {
    if |rows| > 0 {
      AmountsSortPermutes(rows[1..]);
      AmountsInsert(rows[0], SortBy(rows[1..], FeedInstant), FeedInstant);
      assert [rows[0]][1..] == [];
    }
  }

  /** The day's reductions are those of its rows, whatever their order: the
      count, sum and mean of its amounts, and its smallest and largest
      amount; the window sums are those of the rows in each window. */
  lemma {:induction false} FeedingDaySums(rows: seq<Feeding>, d: int)
    ensures var r := SummarizeFeedingDay(rows, d);
      && r.basics == FeedingBasicsOf(SortBy(rows, FeedInstant), d)
      && r.basics.date == d
      && r.basics.sessions == |Amounts(rows)|
      && r.basics.sum == Total(rows, AmountOrZero)
      && (r.basics.mean.Some? ==> r.basics.mean.value == Total(rows, AmountOrZero) / |Amounts(rows)| as real)
      && r.basics.min == MinOpt(Amounts(rows)) && r.basics.max == MaxOpt(Amounts(rows))
      && r.daytimeSum == Total(DaytimeRows(rows), AmountOrZero)
      && r.nighttimeSum == Total(NighttimeRows(rows), AmountOrZero)
  {
    SortedWindows(rows);
    AmountsSortPermutes(rows);
    var a, b := Amounts(SortBy(rows, FeedInstant)), Amounts(rows);
    assert |a| == |multiset(a)| == |multiset(b)| == |b|;
    MinMaxPermutation(a, b);
  }

  /** The gap statistics exist from two daytime feedings on, are ordered,
      and average the span of the daytime feedings in time order. */
  lemma {:induction false} FeedingDayGaps(rows: seq<Feeding>, d: int)
    ensures var r := SummarizeFeedingDay(rows, d);
      && (r.gapMean.None? <==> |DaytimeRows(rows)| < 2)
      && (r.gapMin.None? <==> |DaytimeRows(rows)| < 2)
      && (r.gapMax.None? <==> |DaytimeRows(rows)| < 2)
      && (r.gapMean.Some? ==>
            var day := SortBy(DaytimeRows(rows), FeedInstant);
            && 0.0 <= r.gapMin.value <= r.gapMean.value <= r.gapMax.value
            && r.gapMean.value == HoursBetween(day[0].time, day[|day| - 1].time) / (|day| - 1) as real)
  {
    var day := DaytimeRows(SortBy(rows, FeedInstant));
    FilterSortBy(rows, FeedInstant, DaytimeFeed);
    assert day == SortBy(DaytimeRows(rows), FeedInstant);
    if |day| >= 2 {
      SortByPermutesAndSorts(DaytimeRows(rows), FeedInstant);
      GapStats(day);
    }
  }

  /** The daytime sum, the nighttime sum and the 20:00 hour's feedings make
      up the day's sum. */
  lemma {:induction false} WindowSumsPartition(rows: seq<Feeding>)
    ensures Total(DaytimeRows(rows), AmountOrZero) + Total(NighttimeRows(rows), AmountOrZero)
          + Total(EightPmRows(rows), AmountOrZero) == Total(rows, AmountOrZero)
  {
    FilterTotal(rows, DaytimeFeed, AmountOrZero, DaytimeAmount);
    FilterTotal(rows, NighttimeFeed, AmountOrZero, NighttimeAmount);
    FilterTotal(rows, EightPmFeed, AmountOrZero, EightPmAmount);
    TotalSplit(rows, OutsideDaytimeAmount, NighttimeAmount, EightPmAmount);
    forall i | 0 <= i < |rows|
      ensures AmountOrZero(rows[i]) == DaytimeAmount(rows[i]) + OutsideDaytimeAmount(rows[i])
    {
      EightPmIsUncovered(rows[i].time);
      WindowsDisjoint(rows[i].time);
    }
    TotalSplit(rows, AmountOrZero, DaytimeAmount, OutsideDaytimeAmount);
  }

  /** A day's sum is its daytime sum, its nighttime sum and what was fed in
      the 20:00 hour. */
  lemma {:induction false} DaySumSplits(rows: seq<Feeding>, d: int)
    ensures var r := SummarizeFeedingDay(rows, d);
      r.basics.sum == r.daytimeSum + r.nighttimeSum + Total(EightPmRows(rows), AmountOrZero)
  {
    FeedingDaySums(rows, d);
    WindowSumsPartition(rows);
  }

  /** The loop over start..end of the current variant. */
  function FeedingSeries(rows: seq<Feeding>, start: int, end: int): (r: seq<FeedingDay>)
    ensures |r| == if start <= end then end - start + 1 else 0
  {
    var n := if start <= end then end - start + 1 else 0;
    seq(n, i requires 0 <= i < n => SummarizeFeedingDay(Select(rows, FeedDate, start + i), start + i))
  }

  /** `parse_glow_feeding_data` (current variant): the range runs from the
      last row's date to the first row's date; an empty table has no last
      row. */
  function ParseGlowFeedingData(rows: seq<Feeding>): (r: Result<seq<FeedingDay>>)
    ensures r.Fail? <==> |rows| == 0
    ensures r.Fail? ==> r.failure == NoRows
    ensures r.Ok? ==> r.value == FeedingSeries(rows, FeedDate(rows[|rows| - 1]), FeedDate(rows[0]))
  {
    if |rows| == 0 then Fail(NoRows)
    else Ok(FeedingSeries(rows, FeedDate(rows[|rows| - 1]), FeedDate(rows[0])))
  }

  /** Row i is day start + i: its sum is that day's total, split into the
      daytime sum, the nighttime sum and the 20:00 hour. */
  lemma {:induction false} FeedingRows(rows: seq<Feeding>, i: int)
    requires ParseGlowFeedingData(rows).Ok?
    requires 0 <= i < |ParseGlowFeedingData(rows).value|
    ensures var r := ParseGlowFeedingData(rows).value[i];
      var day := Select(rows, FeedDate, FeedDate(rows[|rows| - 1]) + i);
      && r.basics.date == FeedDate(rows[|rows| - 1]) + i
      && r.basics.sum == Total(day, AmountOrZero)
      && r.basics.sum == r.daytimeSum + r.nighttimeSum + Total(EightPmRows(day), AmountOrZero)
  {
    var start, end := FeedDate(rows[|rows| - 1]), FeedDate(rows[0]);
    var day := Select(rows, FeedDate, start + i);
    var series := FeedingSeries(rows, start, end);
    assert ParseGlowFeedingData(rows).value == series;
    var r := series[i];
    assert r.basics.date == start + i
        && r.basics.sum == Total(day, AmountOrZero)
        && r.basics.sum == r.daytimeSum + r.nighttimeSum + Total(EightPmRows(day), AmountOrZero)
    by {
      FeedingSeriesRow(rows, start, end, i);
      FeedingDaySums(day, start + i);
      DaySumSplits(day, start + i);
    }
  }

  lemma {:induction false} FeedingSeriesRow(rows: seq<Feeding>, start: int, end: int, i: int)
    requires 0 <= i < |FeedingSeries(rows, start, end)|
    ensures FeedingSeries(rows, start, end)[i] == SummarizeFeedingDay(Select(rows, FeedDate, start + i), start + i)
  {
  }

  // Bottle and solid --------------------------------------------------------

  /** `combine_bottle_solid`: the solid sums are right-aligned under the
      bottle sums by prepending zeros (none when the solid series is the
      longer one), then added to the bottle sums converted to ounces. An
      index present in only one series gives NaN. */
  function CombineBottleSolid(bottle: seq<real>, solid: seq<real>): (r: seq<Option<real>>)
    ensures |solid| <= |bottle| ==> |r| == |bottle|
    ensures |solid| > |bottle| ==> |r| == |solid|
    ensures forall i :: 0 <= i < |r| ==> (r[i].Some? <==> i < |bottle|)
  {
    var missing := if |bottle| > |solid| then |bottle| - |solid| else 0;
    var padded := seq(missing, _ => 0.0) + solid;
    var n := if |bottle| > |padded| then |bottle| else |padded|;
    seq(n, i requires 0 <= i < n =>
      if i < |bottle| && i < |padded| then Some(bottle[i] / ML_PER_OZ + padded[i]) else None)
  }

  /** The last |solid| entries pair each solid sum with the bottle sum of the
      same position from the end; the entries before them are the bottle
      sums alone. */
  lemma {:induction false} CombineRightAligned(bottle: seq<real>, solid: seq<real>)
    requires |solid| <= |bottle|
    ensures var r := CombineBottleSolid(bottle, solid);
      var missing := |bottle| - |solid|;
      && (forall i :: 0 <= i < missing ==> r[i] == Some(bottle[i] / ML_PER_OZ))
      && (forall j :: 0 <= j < |solid| ==>
            r[missing + j] == Some(bottle[missing + j] / ML_PER_OZ + solid[j]))
  {
  }

  /** With a longer solid series nothing is padded: the entries pair from
      the front and the tail beyond the bottle series is NaN. */
  lemma {:induction false} CombineSolidLonger(bottle: seq<real>, solid: seq<real>)
    requires |solid| > |bottle|
    ensures var r := CombineBottleSolid(bottle, solid);
      forall i :: 0 <= i < |solid| ==>
        r[i] == if i < |bottle| then Some(bottle[i] / ML_PER_OZ + solid[i]) else None
  {
  }
}
