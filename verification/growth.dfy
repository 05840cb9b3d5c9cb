/** The growth tables (agenoria/plot_growth_charts.py): ages in months,
    the height and head readings of the Glow log, the daily weight series
    of the Hatch scale with its rate of change and 14-day average gain, and
    the weight-for-length points joined from both. */
module Growth {
  import opened Outcomes
  import opened Seqs
  import opened Sorting
  import opened Grouping

  /** 2018-11-21, in days since 1970-01-01. */
  const BIRTHDAY: int := 17856

  /** `np.timedelta64(1, 'M')`: the mean Gregorian month, 365.2425 / 12 days. */
  const DAYS_PER_MONTH: real := 30.436875

  /** Ounces per kilogram, the factor of the average weight gain. */
  const KG_TO_OZ: real := 35.274

  /** Days in the rolling window of the average weight gain. */
  const ROC_WINDOW: nat := 14

  /** Characters of `Start Time` kept as the date (`str[0: 10]`). */
  const DATE_CHARS: nat := 10

  /** `(date - BIRTHDAY) / np.timedelta64(1, 'M')`: age in months. */
  function Age(date: int): (r: real)
    ensures r * DAYS_PER_MONTH == (date - BIRTHDAY) as real
  {
    (date - BIRTHDAY) as real / DAYS_PER_MONTH
  }

  /** The age is zero on the birthday, negative before it, and grows with
      the date. */
  lemma {:induction false} AgeFromBirth(a: int, b: int)
    ensures Age(BIRTHDAY) == 0.0
    ensures a < BIRTHDAY ==> Age(a) < 0.0
    ensures a < b ==> Age(a) < Age(b)
  {
  }

  // Glow log: height and head circumference ---------------------------

  /** A row of the Glow export; an empty cell is missing. */
  datatype GlowRow = GlowRow(date: int, height: Option<real>, head: Option<real>)

  /** A plotted reading: its date, the age then, and the measurement. */
  datatype GrowthPoint = GrowthPoint(date: int, age: real, value: real)

  function HeightOf(row: GlowRow): Option<real>
  {
    row.height
  }

  function HeadOf(row: GlowRow): Option<real>
  {
    row.head
  }

  function GlowDate(row: GlowRow): int
  {
    row.date
  }

  function PointDate(p: GrowthPoint): int
  {
    p.date
  }

  /** The `notnull()` mask of the measurement picked by `pick`. */
  function HasReading(pick: GlowRow -> Option<real>): GlowRow -> bool
  {
    x => pick(x).Some?
  }

  /** `data[data[col].notnull()][['Date', 'Age', col]]`: the rows that hold
      the measurement picked by `pick`, in log order and each once, as
      points with the age of their date. */
  function Column(rows: seq<GlowRow>, pick: GlowRow -> Option<real>): (r: seq<GrowthPoint>)
    ensures |r| == |Filter(rows, HasReading(pick))|
    ensures forall i :: 0 <= i < |r| ==>
              var x := Filter(rows, HasReading(pick))[i];
              pick(x).Some? && r[i] == GrowthPoint(x.date, Age(x.date), pick(x).value)
    ensures forall i :: 0 <= i < |r| ==> r[i].age == Age(r[i].date)
    ensures forall p :: p in r ==> exists x :: x in rows && pick(x) == Some(p.value) && x.date == p.date
  {
    if |rows| == 0 then []
    else
      var rest := Column(rows[1..], pick);
      assert forall x :: x in rows[1..] ==> x in rows;
      if pick(rows[0]).Some? then
        var r := [GrowthPoint(rows[0].date, Age(rows[0].date), pick(rows[0]).value)] + rest;
        assert Filter(rows, HasReading(pick)) == [rows[0]] + Filter(rows[1..], HasReading(pick));
        assert forall i :: 1 <= i < |r| ==> r[i] == rest[i - 1];
        r
      else
        assert Filter(rows, HasReading(pick)) == Filter(rows[1..], HasReading(pick));
        rest
  }

  /** Every reading of the picked measurement is in its table. */
  lemma {:induction false} ColumnHoldsEveryReading(rows: seq<GlowRow>, pick: GlowRow -> Option<real>)
    ensures forall x :: x in rows && pick(x).Some? ==> GrowthPoint(x.date, Age(x.date), pick(x).value) in Column(rows, pick)
  {
    if |rows| > 0 {
      ColumnHoldsEveryReading(rows[1..], pick);
      assert forall x :: x in rows ==> x == rows[0] || x in rows[1..];
    }
  }

  /** A log in strictly increasing date order gives tables in strictly
      increasing date order. */
  lemma {:induction false} ColumnKeepsDateOrder(rows: seq<GlowRow>, pick: GlowRow -> Option<real>)
    requires StrictlyIncreasing(rows, GlowDate)
    ensures StrictlyIncreasing(Column(rows, pick), PointDate)
  {
    if |rows| > 0 {
      var rest := Column(rows[1..], pick);
      assert StrictlyIncreasing(rows[1..], GlowDate);
      ColumnKeepsDateOrder(rows[1..], pick);
      if pick(rows[0]).Some? {
        var r := Column(rows, pick);
        assert forall k :: 0 <= k < |rows[1..]| ==> GlowDate(rows[0]) < GlowDate(rows[1..][k]) by {
          forall k | 0 <= k < |rows[1..]| ensures GlowDate(rows[0]) < GlowDate(rows[1..][k]) {
            assert rows[1..][k] == rows[k + 1];
          }
        }
        ColumnDatesAfter(rows[1..], pick, rows[0].date);
        assert r == [r[0]] + rest;
        ConsKeepsStrictOrder(r[0], rest);
      }
    }
  }

  lemma {:induction false} ConsKeepsStrictOrder(p: GrowthPoint, rest: seq<GrowthPoint>)
    requires StrictlyIncreasing(rest, PointDate)
    requires forall i :: 0 <= i < |rest| ==> PointDate(p) < PointDate(rest[i])
    ensures StrictlyIncreasing([p] + rest, PointDate)
  {
    var r := [p] + rest;
    forall i, j | 0 <= i < j < |r| ensures PointDate(r[i]) < PointDate(r[j]) {
      assert r[j] == rest[j - 1];
      if i > 0 {
        assert r[i] == rest[i - 1];
      }
    }
  }

  lemma {:induction false} ColumnDatesAfter(rows: seq<GlowRow>, pick: GlowRow -> Option<real>, d: int)
    requires forall k :: 0 <= k < |rows| ==> d < GlowDate(rows[k])
    ensures forall i :: 0 <= i < |Column(rows, pick)| ==> d < PointDate(Column(rows, pick)[i])
  {
    if |rows| > 0 {
      assert forall k :: 0 <= k < |rows[1..]| ==> d < GlowDate(rows[1..][k]) by {
        forall k | 0 <= k < |rows[1..]| ensures d < GlowDate(rows[1..][k]) {
          assert rows[1..][k] == rows[k + 1];
        }
      }
      ColumnDatesAfter(rows[1..], pick, d);
      var rest := Column(rows[1..], pick);
      var r := Column(rows, pick);
      forall i | 0 <= i < |r| ensures d < PointDate(r[i]) {
        if pick(rows[0]).Some? && i > 0 {
          assert r[i] == rest[i - 1];
        }
      }
    }
  }

  /** The two tables of `parse_glow_data`. */
  datatype GlowTables = GlowTables(height: seq<GrowthPoint>, head: seq<GrowthPoint>)

  /** `parse_glow_data`: the height table holds the rows with a height
      reading, in log order, each once, with the age of its date, and the
      head table likewise the rows with a head reading. */
  function ParseGlowData(rows: seq<GlowRow>): (r: GlowTables)
    ensures var hs := Filter(rows, HasReading(HeightOf));
      && |r.height| == |hs|
      && forall i :: 0 <= i < |hs| ==> hs[i].height.Some? && r.height[i] == GrowthPoint(hs[i].date, Age(hs[i].date), hs[i].height.value)
    ensures var hs := Filter(rows, HasReading(HeadOf));
      && |r.head| == |hs|
      && forall i :: 0 <= i < |hs| ==> hs[i].head.Some? && r.head[i] == GrowthPoint(hs[i].date, Age(hs[i].date), hs[i].head.value)
    ensures forall x :: x in rows && x.height.Some? ==> GrowthPoint(x.date, Age(x.date), x.height.value) in r.height
    ensures forall x :: x in rows && x.head.Some? ==> GrowthPoint(x.date, Age(x.date), x.head.value) in r.head
    ensures forall p :: p in r.height ==> exists x :: x in rows && x.height == Some(p.value) && x.date == p.date
    ensures forall p :: p in r.head ==> exists x :: x in rows && x.head == Some(p.value) && x.date == p.date
  {
    var height := Column(rows, HeightOf);
    var head := Column(rows, HeadOf);
    ColumnHoldsEveryReading(rows, HeightOf);
    ColumnHoldsEveryReading(rows, HeadOf);
    assert forall x :: x in rows && x.height.Some? ==> HeightOf(x).Some?;
    assert forall x :: x in rows && x.head.Some? ==> HeadOf(x).Some?;
    GlowTables(height, head)
  }

  // Hatch scale: one weight per day ---------------------------------------

  /** A row of the Hatch export as read: the start time text and the weight. */
  datatype RawHatchRow = RawHatchRow(startTime: string, amount: Option<real>)

  /** A Hatch row once its start time is reduced to a day. */
  datatype HatchRow = HatchRow(date: int, amount: Option<real>)

  function HatchDate(row: HatchRow): int
  {
    row.date
  }

  /** `astype(str).str[0: 10]`: the first ten characters, or the whole text
      when it is shorter. */
  function DatePart(s: string): (r: string)
    ensures |r| == if |s| < DATE_CHARS then |s| else DATE_CHARS
    ensures r == s[..|r|]
  {
    if |s| < DATE_CHARS then s else s[..DATE_CHARS]
  }

  /** A ten-character date followed by a time of day gives back the date,
      and cutting twice is cutting once. */
  lemma {:induction false} DatePartDropsTime(date: string, time: string)
    requires |date| == DATE_CHARS
    ensures DatePart(date + time) == date
    ensures DatePart(DatePart(date + time)) == DatePart(date + time)
  {
    assert (date + time)[..DATE_CHARS] == date;
  }

  /** The rows with their start time reduced to a day by `parseDate`
      (`pd.to_datetime(..., format='%m/%d/%Y')`), in file order. */
  function ReadStartTimes(raw: seq<RawHatchRow>, parseDate: string -> int): (r: seq<HatchRow>)
    ensures |r| == |raw|
    ensures forall i :: 0 <= i < |raw| ==> r[i].amount == raw[i].amount
  {
    seq(|raw|, i requires 0 <= i < |raw| => HatchRow(parseDate(DatePart(raw[i].startTime)), raw[i].amount))
  }

  /** The date of a row is the only one in the table: the rows
      `drop_duplicates(keep=False)` keeps. */
  predicate SingleReading(rows: seq<HatchRow>, x: HatchRow)
  {
    Occurrences(rows, HatchDate, x.date) == 1
  }

  /** `sort_values` by start time, then `drop_duplicates(subset=['Start
      Time'], keep=False)`: every day weighed more than once loses all its
      rows.  What is left is in strictly increasing date order and holds
      exactly the rows whose day was weighed once. */
  function DropDuplicateDates(rows: seq<HatchRow>): (r: seq<HatchRow>)
    ensures SortedBy(r, HatchDate) && StrictlyIncreasing(r, HatchDate)
    ensures forall x :: x in r <==> x in rows && SingleReading(rows, x)
  {
    var single := (x: HatchRow) => SingleReading(rows, x);
    DropDuplicatesFacts(rows, single);
    Filter(SortBy(rows, HatchDate), single)
  }

  lemma {:induction false} DropDuplicatesFacts(rows: seq<HatchRow>, single: HatchRow -> bool)
    requires forall x :: single(x) == SingleReading(rows, x)
    ensures SortedBy(Filter(SortBy(rows, HatchDate), single), HatchDate)
    ensures StrictlyIncreasing(Filter(SortBy(rows, HatchDate), single), HatchDate)
    ensures forall x :: x in Filter(SortBy(rows, HatchDate), single) <==> x in rows && SingleReading(rows, x)
  {
    var sorted := SortBy(rows, HatchDate);
    var r := Filter(sorted, single);
    SortByPermutesAndSorts(rows, HatchDate);
    FilterKeepsOrder(sorted, single, HatchDate);
    forall x ensures x in r <==> x in rows && SingleReading(rows, x) {
      FilterMembership(sorted, single, x);
      assert x in sorted <==> x in multiset(sorted);
    }
    forall i | 0 <= i < |r| ensures Occurrences(r, HatchDate, HatchDate(r[i])) <= 1 {
      FilterOccurrences(sorted, single, HatchDate, r[i].date);
      SortOccurrences(rows, HatchDate, HatchDate, r[i].date);
      assert single(r[i]);
    }
    UniqueSortedIsStrict(r, HatchDate);
  }

  /** Two readings whose start times fall on the same day (same first ten
      characters) are both dropped. */
  lemma {:induction false} SameDayReadingsDropped(raw: seq<RawHatchRow>, parseDate: string -> int, i: int, j: int)
    requires 0 <= i < j < |raw|
    requires DatePart(raw[i].startTime) == DatePart(raw[j].startTime)
    ensures ReadStartTimes(raw, parseDate)[i] !in DropDuplicateDates(ReadStartTimes(raw, parseDate))
    ensures ReadStartTimes(raw, parseDate)[j] !in DropDuplicateDates(ReadStartTimes(raw, parseDate))
  {
    var rows := ReadStartTimes(raw, parseDate);
    TwoPositionsOccurTwice(rows, HatchDate, i, j);
  }

  /** The weight of day `d` after `reindex`: the amount of the first row on
      that day, missing when no row falls on it. */
  function AmountOn(rows: seq<HatchRow>, d: int): Option<real>
  {
    if |rows| == 0 then None
    else if rows[0].date == d then rows[0].amount
    else AmountOn(rows[1..], d)
  }

  /** No row on the day, no weight. */
  lemma {:induction false} AmountOnAbsentDay(rows: seq<HatchRow>, d: int)
    requires forall k :: 0 <= k < |rows| ==> rows[k].date != d
    ensures AmountOn(rows, d).None?
  {
    if |rows| > 0 {
      assert forall k :: 0 <= k < |rows[1..]| ==> rows[1..][k] == rows[k + 1];
      AmountOnAbsentDay(rows[1..], d);
    }
  }

  /** In a table with distinct dates, the weight of a row's day is the
      row's weight. */
  lemma {:induction false} AmountOnDistinctDates(rows: seq<HatchRow>, x: HatchRow)
    requires StrictlyIncreasing(rows, HatchDate) && x in rows
    ensures AmountOn(rows, x.date) == x.amount
  {
    if rows[0] != x {
      var k :| 0 <= k < |rows| && rows[k] == x;
      assert k > 0 && HatchDate(rows[0]) < HatchDate(rows[k]);
      assert rows[1..][k - 1] == x;
      assert StrictlyIncreasing(rows[1..], HatchDate);
      AmountOnDistinctDates(rows[1..], x);
    }
  }

  /** `data['Amount'].diff().fillna(0)`: the change from the previous day,
      0 on the first day and wherever either weight is missing. */
  function Roc(amounts: seq<Option<real>>): (r: seq<real>)
    ensures |r| == |amounts|
    ensures forall i {:trigger r[i]} :: 0 <= i < |r| ==>
              r[i] == if i > 0 && amounts[i].Some? && amounts[i - 1].Some?
                      then amounts[i].value - amounts[i - 1].value else 0.0
  {
    seq(|amounts|, i requires 0 <= i < |amounts| =>
      if i > 0 && amounts[i].Some? && amounts[i - 1].Some? then amounts[i].value - amounts[i - 1].value else 0.0)
  }

  /** Over a stretch of days that all have a weight, the daily changes add
      up to the change from its first to its last day. */
  lemma {:induction false} RocTelescopes(amounts: seq<Option<real>>, j: int, k: int)
    requires 0 <= j <= k < |amounts|
    requires forall m :: j <= m <= k ==> amounts[m].Some?
    ensures Sum(Roc(amounts)[j + 1..k + 1]) == amounts[k].value - amounts[j].value
  {
    var roc := Roc(amounts);
    if k == j {
      assert roc[j + 1..k + 1] == [];
    } else {
      RocTelescopes(amounts, j, k - 1);
      SumLast(roc[j + 1..k + 1]);
      assert roc[j + 1..k + 1][..k - j - 1] == roc[j + 1..k];
    }
  }

  /** `rolling(window=14).mean() * 35.274`: undefined for the first 13 days,
      then the mean of the last 14 changes, in ounces. */
  function WeightAverageRoc(roc: seq<real>): (r: seq<Option<real>>)
    ensures |r| == |roc|
    ensures forall i {:trigger r[i]} :: 0 <= i < |r| ==> (r[i].None? <==> i < ROC_WINDOW - 1)
  {
    seq(|roc|, i requires 0 <= i < |roc| =>
      if i < ROC_WINDOW - 1 then None
      else Some(KG_TO_OZ * (Sum(roc[i - (ROC_WINDOW - 1)..i + 1]) / ROC_WINDOW as real)))
  }

  /** The weight gained from `earlier` to `later` (in kilograms) spread
      over the 14 days of the window, in ounces per day. */
  function GainPerDayOz(later: real, earlier: real): real
  {
    KG_TO_OZ * ((later - earlier) / ROC_WINDOW as real)
  }

  /** When the last 15 days all have a weight, the average gain is the
      weight gained over the last 14 days, per day, in ounces. */
  lemma {:induction false} AverageGainOverWindow(amounts: seq<Option<real>>, i: int)
    requires ROC_WINDOW <= i < |amounts|
    requires forall m :: i - ROC_WINDOW <= m <= i ==> amounts[m].Some?
    ensures WeightAverageRoc(Roc(amounts))[i]
         == Some(GainPerDayOz(amounts[i].value, amounts[i - ROC_WINDOW].value))
  {
    RocTelescopes(amounts, i - ROC_WINDOW, i);
  }

  /** The first defined average, on day 14, divides the 13 changes since
      day 1 by 14: the change of day 1 is the filled 0. */
  lemma {:induction false} FirstAverageSpansThirteenDays(amounts: seq<Option<real>>)
    requires ROC_WINDOW <= |amounts|
    requires forall m :: 0 <= m < ROC_WINDOW ==> amounts[m].Some?
    ensures WeightAverageRoc(Roc(amounts))[ROC_WINDOW - 1]
         == Some(GainPerDayOz(amounts[ROC_WINDOW - 1].value, amounts[0].value))
  {
    var roc := Roc(amounts);
    RocTelescopes(amounts, 0, ROC_WINDOW - 1);
    assert roc[0..ROC_WINDOW] == [roc[0]] + roc[1..ROC_WINDOW];
  }

  /** One day of the table `parse_hatch_data` returns. */
  datatype HatchDay = HatchDay(date: int, age: real, amount: Option<real>, roc: real, weightAverageRoc: Option<real>)

  function DayDate(d: HatchDay): int
  {
    d.date
  }

  /** The `Amount` column of a table. */
  function Amounts(days: seq<HatchDay>): (r: seq<Option<real>>)
    ensures |r| == |days|
    ensures forall i {:trigger r[i]} :: 0 <= i < |days| ==> r[i] == days[i].amount
  {
    seq(|days|, i requires 0 <= i < |days| => days[i].amount)
  }

  /** The table for the days `lo`, `lo + 1`, ... with the given weights. */
  function HatchDays(lo: int, amounts: seq<Option<real>>): (r: seq<HatchDay>)
    ensures |r| == |amounts|
    ensures forall i {:trigger r[i]} :: 0 <= i < |r| ==> r[i].amount == amounts[i]
    ensures forall i {:trigger r[i]} :: 0 <= i < |r| ==> r[i].date == lo + i && r[i].age == Age(lo + i)
    ensures forall i {:trigger r[i]} :: 0 <= i < |r| ==>
              r[i].roc == Roc(amounts)[i] && r[i].weightAverageRoc == WeightAverageRoc(Roc(amounts))[i]
  {
    var roc := Roc(amounts);
    var avg := WeightAverageRoc(roc);
    seq(|amounts|, i requires 0 <= i < |amounts| => HatchDay(lo + i, Age(lo + i), amounts[i], roc[i], avg[i]))
  }

  /** The weights of the days from `lo` to `hi` after `reindex`. */
  function ReindexedAmounts(unique: seq<HatchRow>, lo: int, hi: int): (r: seq<Option<real>>)
    requires lo <= hi
    ensures |r| == hi - lo + 1
    ensures forall i {:trigger r[i]} :: 0 <= i < |r| ==> r[i] == AmountOn(unique, lo + i)
  {
    seq(hi - lo + 1, i requires 0 <= i <= hi - lo => AmountOn(unique, lo + i))
  }

  /** `date_range(min, max)` and `reindex` on a table sorted by date,
      followed by the age, change and average-gain columns: one row per day
      from the first date to the last. */
  function Reindex(unique: seq<HatchRow>): (r: seq<HatchDay>)
    requires |unique| > 0 && unique[0].date <= unique[|unique| - 1].date
    ensures |r| == unique[|unique| - 1].date - unique[0].date + 1
    ensures forall i {:trigger r[i]} :: 0 <= i < |r| ==> r[i].date == unique[0].date + i && r[i].age == Age(unique[0].date + i)
  {
    var lo, hi := unique[0].date, unique[|unique| - 1].date;
    HatchDays(lo, ReindexedAmounts(unique, lo, hi))
  }

  /** `parse_hatch_data` on rows whose start time is already a day: drop the
      days weighed more than once, lay the rest out on every day from the
      first to the last (`date_range` and `reindex`), then add the age, the
      daily change and the 14-day average gain.  It fails when no day is
      left, as `date_range` does on the missing minimum. */
  function ParseHatchData(rows: seq<HatchRow>): (r: Result<seq<HatchDay>>)
    ensures r.Fail? <==> forall x :: x in rows ==> !SingleReading(rows, x)
    ensures r.Fail? ==> r.failure == NoRows
    ensures r.Ok? ==> |r.value| > 0
    ensures r.Ok? ==> forall i :: 0 <= i < |r.value| ==>
              r.value[i].date == r.value[0].date + i && r.value[i].age == Age(r.value[i].date)
  {
    var unique := DropDuplicateDates(rows);
    if |unique| == 0 then
      assert forall x :: x in rows ==> !SingleReading(rows, x) by {
        forall x | x in rows ensures !SingleReading(rows, x) {
          assert x !in unique;
        }
      }
      Fail(NoRows)
    else
      assert unique[0] in unique;
      assert HatchDate(unique[0]) <= HatchDate(unique[|unique| - 1]);
      Ok(Reindex(unique))
  }

  /** The parsed table is the reindexed weights of the single readings,
      from the first to the last of their days. */
  lemma {:induction false} ParsedAsHatchDays(rows: seq<HatchRow>)
    requires ParseHatchData(rows).Ok?
    ensures var unique := DropDuplicateDates(rows);
            && |unique| > 0 && unique[0].date <= unique[|unique| - 1].date
            && ParseHatchData(rows).value
               == HatchDays(unique[0].date, ReindexedAmounts(unique, unique[0].date, unique[|unique| - 1].date))
  {
    var unique := DropDuplicateDates(rows);
    assert |unique| > 0;
    assert HatchDate(unique[0]) <= HatchDate(unique[|unique| - 1]);
    assert ParseHatchData(rows) == Ok(Reindex(unique));
  }

  /** A reading whose day was weighed once lies inside the parsed range,
      and its day holds its weight. */
  lemma {:induction false} SingleReadingKept(rows: seq<HatchRow>, x: HatchRow)
    requires ParseHatchData(rows).Ok? && x in rows && SingleReading(rows, x)
    ensures var days := ParseHatchData(rows).value;
            days[0].date <= x.date < days[0].date + |days| && days[x.date - days[0].date].amount == x.amount
  {
    var unique := DropDuplicateDates(rows);
    ParsedAsHatchDays(rows);
    assert x in unique;
    var k :| 0 <= k < |unique| && unique[k] == x;
    assert HatchDate(unique[0]) <= HatchDate(unique[k]) <= HatchDate(unique[|unique| - 1]);
    AmountOnDistinctDates(unique, x);
    var lo, hi := unique[0].date, unique[|unique| - 1].date;
    var amounts := ReindexedAmounts(unique, lo, hi);
    var days := ParseHatchData(rows).value;
    assert days == HatchDays(lo, amounts);
    assert days[0].date == lo;
    assert amounts[x.date - lo] == x.amount;
    assert days[x.date - lo].amount == amounts[x.date - lo];
  }

  /** A day on which no single reading falls has no weight after
      `reindex`. */
  lemma {:induction false} UnweighedDayHasNoWeight(rows: seq<HatchRow>, i: int)
    requires ParseHatchData(rows).Ok? && 0 <= i < |ParseHatchData(rows).value|
    requires forall x :: x in rows && SingleReading(rows, x) ==> x.date != ParseHatchData(rows).value[i].date
    ensures ParseHatchData(rows).value[i].amount.None?
  {
    var unique := DropDuplicateDates(rows);
    ParsedAsHatchDays(rows);
    var lo := unique[0].date;
    forall k | 0 <= k < |unique| ensures unique[k].date != lo + i {
      assert unique[k] in unique;
    }
    AmountOnAbsentDay(unique, lo + i);
  }

  /** The change column of the parsed table: the difference to the
      previous day's weight, 0 on the first day and next to a day without
      weight. */
  lemma {:induction false} HatchRoc(rows: seq<HatchRow>, i: int)
    requires ParseHatchData(rows).Ok? && 0 <= i < |ParseHatchData(rows).value|
    ensures var days := ParseHatchData(rows).value;
            days[i].roc == if i > 0 && days[i].amount.Some? && days[i - 1].amount.Some?
                           then days[i].amount.value - days[i - 1].amount.value else 0.0
  {
    var unique := DropDuplicateDates(rows);
    ParsedAsHatchDays(rows);
    var amounts := ReindexedAmounts(unique, unique[0].date, unique[|unique| - 1].date);
    var days := HatchDays(unique[0].date, amounts);
    assert days[i].roc == Roc(amounts)[i];
    assert days[i].amount == amounts[i];
    assert i > 0 ==> days[i - 1].amount == amounts[i - 1];
  }

  /** The average-gain column of the parsed table: once the last 15 days
      all have a weight, it is the weight gained over the last 14 days, per
      day, in ounces. */
  lemma {:induction false} HatchAverageGain(rows: seq<HatchRow>, i: int)
    requires ParseHatchData(rows).Ok? && ROC_WINDOW <= i < |ParseHatchData(rows).value|
    requires forall m :: i - ROC_WINDOW <= m <= i ==> ParseHatchData(rows).value[m].amount.Some?
    ensures var days := ParseHatchData(rows).value;
            days[i].weightAverageRoc
            == Some(GainPerDayOz(days[i].amount.value, days[i - ROC_WINDOW].amount.value))
  {
    var unique := DropDuplicateDates(rows);
    ParsedAsHatchDays(rows);
    DaysAverageGain(unique[0].date, ReindexedAmounts(unique, unique[0].date, unique[|unique| - 1].date), i);
  }

  lemma {:induction false} DaysAverageGain(lo: int, amounts: seq<Option<real>>, i: int)
    requires ROC_WINDOW <= i < |amounts|
    requires forall m :: i - ROC_WINDOW <= m <= i ==> HatchDays(lo, amounts)[m].amount.Some?
    ensures var days := HatchDays(lo, amounts);
            days[i].weightAverageRoc
            == Some(GainPerDayOz(days[i].amount.value, days[i - ROC_WINDOW].amount.value))
  {
    var days := HatchDays(lo, amounts);
    assert forall m :: i - ROC_WINDOW <= m <= i ==> amounts[m] == days[m].amount;
    AverageGainOverWindow(amounts, i);
  }

  // Weight for length -----------------------------------------------------

  /** A point of the weight-for-length chart. */
  datatype WeightLength = WeightLength(date: int, age: real, height: real, weight: real)

  /** `float(match['Amount'].values)` for the rows of `days` on `date`: the
      weight (possibly missing) when exactly one row matches, a failure
      otherwise. */
  function WeightOn(days: seq<HatchDay>, date: int): (r: Result<Option<real>>)
    ensures r.Ok? <==> Occurrences(days, DayDate, date) == 1
    ensures r.Ok? ==> exists k :: 0 <= k < |days| && days[k].date == date && r.value == days[k].amount
    ensures r.Fail? ==> r.failure == DateNotFound(date)
  {
    var m := Select(days, DayDate, date);
    if |m| == 1 then
      SelectFromTable(days, DayDate, date);
      assert m[0] in multiset(days);
      assert DayDate(m[0]) == date;
      Ok(m[0].amount)
    else Fail(DateNotFound(date))
  }

  function Paired(p: GrowthPoint, weight: real): WeightLength
  {
    WeightLength(p.date, p.age, p.value, weight)
  }

  /** A height reading whose day has exactly one row in the weight table,
      and a weight in it. */
  function Weighed(days: seq<HatchDay>): GrowthPoint -> bool
  {
    (p: GrowthPoint) => WeightOn(days, p.date).Ok? && WeightOn(days, p.date).value.Some?
  }

  /** The weight of a weighed height reading's day. */
  function WeightOfDay(days: seq<HatchDay>, p: GrowthPoint): real
    requires Weighed(days)(p)
  {
    WeightOn(days, p.date).value.value
  }

  /** The loop of `plot_weight_length`: for every height reading, in order,
      look up the weight of its day; skip a missing weight, stop at a day the
      weight table does not hold. */
  function JoinWeightLength(heights: seq<GrowthPoint>, days: seq<HatchDay>): (r: Result<seq<WeightLength>>)
    ensures r.Ok? <==> forall i :: 0 <= i < |heights| ==> WeightOn(days, heights[i].date).Ok?
    ensures r.Fail? ==> r.failure.DateNotFound?
    ensures r.Ok? ==> |r.value| <= |heights|
    ensures r.Ok? ==> |r.value| == |Filter(heights, Weighed(days))|
    ensures r.Ok? ==> forall k :: 0 <= k < |r.value| ==>
              r.value[k] == Paired(Filter(heights, Weighed(days))[k], WeightOfDay(days, Filter(heights, Weighed(days))[k]))
    ensures r.Ok? ==> forall i :: 0 <= i < |heights| && WeightOn(days, heights[i].date).value.Some? ==>
              Paired(heights[i], WeightOn(days, heights[i].date).value.value) in r.value
    ensures r.Ok? ==> forall w :: w in r.value ==>
              exists i :: 0 <= i < |heights| && WeightOn(days, heights[i].date).Ok?
                          && WeightOn(days, heights[i].date).value.Some?
                          && w == Paired(heights[i], WeightOn(days, heights[i].date).value.value)
  {
    if |heights| == 0 then Ok([])
    else
      var first := WeightOn(days, heights[0].date);
      var rest := JoinWeightLength(heights[1..], days);
      assert forall i :: 0 < i < |heights| ==> heights[i] == heights[1..][i - 1];
      if first.Fail? then Fail(first.failure)
      else if rest.Fail? then
        assert exists i :: 0 <= i < |heights[1..]| && WeightOn(days, heights[1..][i].date).Fail?;
        Fail(rest.failure)
      else
        var pairs := if first.value.Some? then [Paired(heights[0], first.value.value)] + rest.value else rest.value;
        JoinStep(heights, days, rest.value, pairs);
        PairsCoverWeighedHeights(heights, days, pairs);
        Ok(pairs)
  }

  /** Prepending the pair of the first height, when its day has a weight,
      to the pairs of the other heights in order gives the pairs of all the
      heights in order. */
  lemma {:induction false} JoinStep(heights: seq<GrowthPoint>, days: seq<HatchDay>, rest: seq<WeightLength>, pairs: seq<WeightLength>)
    requires |heights| > 0 && WeightOn(days, heights[0].date).Ok?
    requires |rest| == |Filter(heights[1..], Weighed(days))|
    requires forall k :: 0 <= k < |rest| ==>
      rest[k] == Paired(Filter(heights[1..], Weighed(days))[k], WeightOfDay(days, Filter(heights[1..], Weighed(days))[k]))
    requires pairs == if WeightOn(days, heights[0].date).value.Some?
                      then [Paired(heights[0], WeightOn(days, heights[0].date).value.value)] + rest
                      else rest
    ensures |pairs| == |Filter(heights, Weighed(days))|
    ensures forall k :: 0 <= k < |pairs| ==>
      pairs[k] == Paired(Filter(heights, Weighed(days))[k], WeightOfDay(days, Filter(heights, Weighed(days))[k]))
  {
    var tail := Filter(heights[1..], Weighed(days));
    if Weighed(days)(heights[0]) {
      assert Filter(heights, Weighed(days)) == [heights[0]] + tail;
      forall k | 1 <= k < |pairs|
        ensures pairs[k] == Paired(Filter(heights, Weighed(days))[k], WeightOfDay(days, Filter(heights, Weighed(days))[k]))
      {
        assert pairs[k] == rest[k - 1];
        assert Filter(heights, Weighed(days))[k] == tail[k - 1];
      }
    } else {
      assert Filter(heights, Weighed(days)) == tail;
    }
  }

  /** Pairs that follow the weighed heights in order hold every weighed
      height's pair and nothing else. */
  lemma {:induction false} PairsCoverWeighedHeights(heights: seq<GrowthPoint>, days: seq<HatchDay>, pairs: seq<WeightLength>)
    requires |pairs| == |Filter(heights, Weighed(days))|
    requires forall k :: 0 <= k < |pairs| ==>
      pairs[k] == Paired(Filter(heights, Weighed(days))[k], WeightOfDay(days, Filter(heights, Weighed(days))[k]))
    ensures |pairs| <= |heights|
    ensures forall i :: 0 <= i < |heights| && WeightOn(days, heights[i].date).Ok? && WeightOn(days, heights[i].date).value.Some? ==>
              Paired(heights[i], WeightOn(days, heights[i].date).value.value) in pairs
    ensures forall w :: w in pairs ==>
              exists i :: 0 <= i < |heights| && WeightOn(days, heights[i].date).Ok?
                          && WeightOn(days, heights[i].date).value.Some?
                          && w == Paired(heights[i], WeightOn(days, heights[i].date).value.value)
  {
    var weighed := Filter(heights, Weighed(days));
    forall i | 0 <= i < |heights| && WeightOn(days, heights[i].date).Ok? && WeightOn(days, heights[i].date).value.Some?
      ensures Paired(heights[i], WeightOn(days, heights[i].date).value.value) in pairs
    {
      assert Weighed(days)(heights[i]);
      FilterMembership(heights, Weighed(days), heights[i]);
      var k :| 0 <= k < |weighed| && weighed[k] == heights[i];
      assert pairs[k] == Paired(heights[i], WeightOfDay(days, heights[i]));
    }
    forall w | w in pairs
      ensures exists i :: 0 <= i < |heights| && WeightOn(days, heights[i].date).Ok?
                          && WeightOn(days, heights[i].date).value.Some?
                          && w == Paired(heights[i], WeightOn(days, heights[i].date).value.value)
    {
      var k :| 0 <= k < |pairs| && pairs[k] == w;
      FilterMembership(heights, Weighed(days), weighed[k]);
      var i :| 0 <= i < |heights| && heights[i] == weighed[k];
      assert Weighed(days)(heights[i]);
    }
  }

  /** The days of a table that runs day by day from `lo` each occur once,
      and no other day occurs. */
  lemma {:induction false} ContiguousOccurrences(days: seq<HatchDay>, lo: int, d: int)
    requires forall i :: 0 <= i < |days| ==> days[i].date == lo + i
    ensures Occurrences(days, DayDate, d) == if lo <= d < lo + |days| then 1 else 0
  {
    if |days| > 0 {
      assert forall i :: 0 <= i < |days[1..]| ==> days[1..][i].date == (lo + 1) + i by {
        forall i | 0 <= i < |days[1..]| ensures days[1..][i].date == (lo + 1) + i {
          assert days[1..][i] == days[i + 1];
        }
      }
      ContiguousOccurrences(days[1..], lo + 1, d);
    }
  }

  /** Looking a date up in the weight table of `parse_hatch_data`
      succeeds exactly for dates from the first to the last weighed day. */
  lemma {:induction false} WeightFoundInsideRange(rows: seq<HatchRow>, d: int)
    requires ParseHatchData(rows).Ok?
    ensures var days := ParseHatchData(rows).value;
            WeightOn(days, d).Ok? <==> days[0].date <= d <= days[|days| - 1].date
  {
    var days := ParseHatchData(rows).value;
    ContiguousOccurrences(days, days[0].date, d);
  }

  /** The weight looked up on the day of a single reading is that
      reading's weight. */
  lemma {:induction false} WeightOfSingleReading(rows: seq<HatchRow>, x: HatchRow)
    requires ParseHatchData(rows).Ok? && x in rows && SingleReading(rows, x)
    ensures WeightOn(ParseHatchData(rows).value, x.date) == Ok(x.amount)
  {
    var days := ParseHatchData(rows).value;
    SingleReadingKept(rows, x);
    WeightOnContiguous(days, days[0].date, x.date);
  }

  /** In a table that runs day by day from `lo`, the weight looked up on a
      day is the weight of that day's row. */
  lemma {:induction false} WeightOnContiguous(days: seq<HatchDay>, lo: int, d: int)
    requires forall i :: 0 <= i < |days| ==> days[i].date == lo + i
    requires lo <= d < lo + |days|
    ensures WeightOn(days, d) == Ok(days[d - lo].amount)
  {
    ContiguousOccurrences(days, lo, d);
    assert WeightOn(days, d).Ok?;
    var j :| 0 <= j < |days| && days[j].date == d && WeightOn(days, d).value == days[j].amount;
    assert j == d - lo;
  }

  /** Every weight-for-length point pairs a height reading with the weight
      of that day, so the points need heights dated inside the weighed
      range: a height dated outside it stops the chart. */
  lemma {:induction false} HeightOutsideWeighedRangeFails(rows: seq<HatchRow>, heights: seq<GrowthPoint>, i: int)
    requires ParseHatchData(rows).Ok? && 0 <= i < |heights|
    requires heights[i].date < ParseHatchData(rows).value[0].date
    ensures JoinWeightLength(heights, ParseHatchData(rows).value).Fail?
  {
    WeightFoundInsideRange(rows, heights[i].date);
  }
}
