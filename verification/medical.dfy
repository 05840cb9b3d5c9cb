/** Monthly counts of the miscellaneous log and the days between vomits
    (agenoria/plot_medical_charts.py). */
module Medical {
  import opened Outcomes
  import opened Grouping
  import opened Clock
  import opened Monthly

  /** One day of the miscellaneous log; an empty cell is missing. */
  datatype MiscRow = MiscRow(date: int, vomit: Option<real>, daycare: Option<real>, doctor: Option<real>)

  /** The three columns that are summed per month. */
  datatype Column = Vomit | Daycare | Doctor

  /** `fillna(0)` */
  function Filled(v: Option<real>): real
  {
    if v.Some? then v.value else 0.0
  }

  /** A column's value in a row, with a missing value read as 0. */
  function ColumnValue(row: MiscRow, col: Column): real
  {
    match col
    case Vomit => Filled(row.vomit)
    case Daycare => Filled(row.daycare)
    case Doctor => Filled(row.doctor)
  }

  function VomitValue(row: MiscRow): real
  {
    ColumnValue(row, Vomit)
  }

  /** The column as a date-indexed series. */
  function ColumnSeries(rows: seq<MiscRow>, col: Column): (r: seq<Entry>)
    ensures |r| == |rows|
    ensures forall i :: 0 <= i < |rows| ==> r[i] == Entry(rows[i].date, ColumnValue(rows[i], col))
  {
    seq(|rows|, i requires 0 <= i < |rows| => Entry(rows[i].date, ColumnValue(rows[i], col)))
  }

  /** The dates of the log, in order. */
  function LogDates(rows: seq<MiscRow>): (r: seq<int>)
    ensures |r| == |rows|
    ensures forall i :: 0 <= i < |rows| ==> r[i] == rows[i].date
  {
    seq(|rows|, i requires 0 <= i < |rows| => rows[i].date)
  }

  /** `data[col].resample("BMS").sum()` of `plot_monthly_vomit`,
      `plot_daycare_days` and `plot_doctor_visit_monthly`: one bucket per
      calendar month from the month of the earliest log date to that of the
      latest, each the column's total over its month. */
  function MonthlySums(rows: seq<MiscRow>, col: Column): (r: seq<Bucket>)
    ensures |rows| == 0 <==> |r| == 0
    ensures |rows| > 0 ==>
      && |r| == LastMonth(LogDates(rows)) - FirstMonth(LogDates(rows)) + 1
      && forall i :: 0 <= i < |r| ==> r[i].month == FirstMonth(LogDates(rows)) + i
    ensures forall i :: 0 <= i < |r| ==>
              r[i].value == Total(Select(ColumnSeries(rows, col), EntryMonth, r[i].month), EntryValue)
  {
    var entries := ColumnSeries(rows, col);
    assert Days(entries) == LogDates(rows);
    ResampleSum(entries)
  }

  /** The monthly buckets of a column add up to the column's total: every
      day is counted in exactly one month, missing values as 0. */
  lemma {:induction false} MonthlySumsTotal(rows: seq<MiscRow>, col: Column)
    ensures BucketTotal(MonthlySums(rows, col)) == Total(rows, (row: MiscRow) => ColumnValue(row, col))
  {
    var entries := ColumnSeries(rows, col);
    ResampleSumTotal(entries);
    TotalPointwise(entries, EntryValue, rows, (row: MiscRow) => ColumnValue(row, col));
  }

  // Days between vomits -------------------------------------------------

  /** `data["Vomit"] == 1` */
  predicate VomitDay(row: MiscRow)
  {
    VomitValue(row) == 1.0
  }

  predicate OtherVomitValue(row: MiscRow)
  {
    !VomitDay(row)
  }

  function RowDate(row: MiscRow): int
  {
    row.date
  }

  /** The rows of `plot_days_between_vomit`, in log order. */
  function VomitDays(rows: seq<MiscRow>): (r: seq<MiscRow>)
    ensures |r| <= |rows|
    ensures forall i :: 0 <= i < |r| ==> VomitDay(r[i])
  {
    Filter(rows, VomitDay)
  }

  /** `vomit_days["Date"].diff()` in days: nothing before the first vomit
      day, then the days since the previous one. */
  function DaysSinceLastVomit(rows: seq<MiscRow>): (r: seq<Option<int>>)
    ensures |r| == |VomitDays(rows)|
    ensures |r| > 0 ==> r[0].None?
    ensures forall i {:trigger r[i]} :: 0 < i < |r| ==>
              r[i] == Some(VomitDays(rows)[i].date - VomitDays(rows)[i - 1].date)
  {
    var days := VomitDays(rows);
    seq(|days|, i requires 0 <= i < |days| =>
      if i == 0 then None else Some(days[i].date - days[i - 1].date))
  }

  /** In a log with strictly increasing dates, every defined gap is
      positive. */
  lemma {:induction false} GapsPositive(rows: seq<MiscRow>)
    requires StrictlyIncreasing(rows, RowDate)
    ensures forall i :: 0 <= i < |DaysSinceLastVomit(rows)| && DaysSinceLastVomit(rows)[i].Some? ==>
              DaysSinceLastVomit(rows)[i].value > 0
  {
    FilterKeepsStrictOrder(rows, VomitDay, RowDate);
    var days := VomitDays(rows);
    forall i | 0 < i < |days|
      ensures days[i].date - days[i - 1].date > 0
    {
      assert RowDate(days[i - 1]) < RowDate(days[i]);
    }
  }

  /** The defined gaps.  */
  function DefinedGaps(gaps: seq<Option<int>>): int
  {
    if |gaps| == 0 then 0
    else (if gaps[0].Some? then gaps[0].value else 0) + DefinedGaps(gaps[1..])
  }

  /** The gaps add up to the days from the first to the last vomit day. */
  lemma {:induction false} GapsSpanTheVomitDays(rows: seq<MiscRow>)
    requires |VomitDays(rows)| > 0
    ensures DefinedGaps(DaysSinceLastVomit(rows))
         == VomitDays(rows)[|VomitDays(rows)| - 1].date - VomitDays(rows)[0].date
  {
    var days := VomitDays(rows);
    var gaps := DaysSinceLastVomit(rows);
    GapsPrefix(days, gaps, |days|);
    assert gaps[..|days|] == gaps;
  }

  lemma {:induction false} GapsPrefix(days: seq<MiscRow>, gaps: seq<Option<int>>, n: nat)
    requires |gaps| == |days| && 1 <= n <= |days|
    requires gaps[0].None?
    requires forall i {:trigger gaps[i]} :: 0 < i < |gaps| ==> gaps[i] == Some(days[i].date - days[i - 1].date)
    ensures DefinedGaps(gaps[..n]) == days[n - 1].date - days[0].date
  {
    if n > 1 {
      GapsPrefix(days, gaps, n - 1);
      DefinedGapsLast(gaps[..n]);
      assert gaps[..n][..n - 1] == gaps[..n - 1];
    } else {
      assert gaps[..1] == [gaps[0]];
      assert gaps[..1][1..] == [];
    }
  }

  lemma {:induction false} DefinedGapsLast(gaps: seq<Option<int>>)
    requires |gaps| > 0
    ensures DefinedGaps(gaps) == DefinedGaps(gaps[..|gaps| - 1])
                                 + (if gaps[|gaps| - 1].Some? then gaps[|gaps| - 1].value else 0)
  {
    if |gaps| > 1 {
      DefinedGapsLast(gaps[1..]);
      assert gaps[1..][..|gaps| - 2] == gaps[..|gaps| - 1][1..];
    }
  }

  /** A row whose vomit value is neither 0 nor 1 (say 2 for two vomits
      that day) counts fully in the monthly vomit sums, yet it is not a
      vomit day for the gap series: the monthly total is the number of
      vomit days plus the values of all other rows. */
  lemma {:induction false} OtherVomitValuesOnlyInSums(rows: seq<MiscRow>)
    ensures BucketTotal(MonthlySums(rows, Vomit))
         == |VomitDays(rows)| as real + Total(Filter(rows, OtherVomitValue), VomitValue)
    ensures forall x :: x in rows && VomitValue(x) != 1.0 ==> x !in VomitDays(rows)
  {
    assert BucketTotal(MonthlySums(rows, Vomit)) == Total(rows, VomitValue) by {
      MonthlySumsTotal(rows, Vomit);
      TotalPointwise(rows, (row: MiscRow) => ColumnValue(row, Vomit), rows, VomitValue);
    }
    VomitTotalSplits(rows);
  }

  /** The vomit column's total is one per vomit day plus the values of the
      other rows. */
  lemma {:induction false} VomitTotalSplits(rows: seq<MiscRow>)
    ensures Total(rows, VomitValue) == |VomitDays(rows)| as real + Total(Filter(rows, OtherVomitValue), VomitValue)
  {
    assert Total(rows, VomitValue) == Total(rows, VomitPart) + Total(rows, OtherPart) by {
      TotalSplit(rows, VomitValue, VomitPart, OtherPart);
    }
    assert Total(rows, VomitPart) == |VomitDays(rows)| as real by {
      FilterTotal(rows, VomitDay, VomitValue, VomitPart);
      OnesTotal(VomitDays(rows));
    }
    assert Total(rows, OtherPart) == Total(Filter(rows, OtherVomitValue), VomitValue) by {
      FilterTotal(rows, OtherVomitValue, VomitValue, OtherPart);
    }
  }

  function VomitPart(row: MiscRow): real
  {
    if VomitDay(row) then VomitValue(row) else 0.0
  }

  function OtherPart(row: MiscRow): real
  {
    if OtherVomitValue(row) then VomitValue(row) else 0.0
  }

  lemma {:induction false} OnesTotal(days: seq<MiscRow>)
    requires forall i :: 0 <= i < |days| ==> VomitDay(days[i])
    ensures Total(days, VomitValue) == |days| as real
  {
    if |days| > 0 {
      OnesTotal(days[1..]);
    }
  }
}
