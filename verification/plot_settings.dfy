/** Tick labels, tick positions and the output file name of the charts
    (agenoria/plot_settings.py). */
module PlotSettings {
  import opened Seqs
  import opened Labels

  const HOURS_PER_DAY: int := 24

  /** Tick spacing of the week axis: every other week. */
  const WEEK_TICK_DAYS: int := 14

  /** `f"{num}:00"` */
  function HourLabel(h: nat): string
  {
    NatToString(h) + ":00"
  }

  /** The hour labels of `enumerate_labels`: "0:00" to "23:00". */
  function HourLabels(): (r: seq<string>)
    ensures |r| == HOURS_PER_DAY
    ensures forall k :: 0 <= k < |r| ==> r[k] == HourLabel(k)
  {
    seq(HOURS_PER_DAY, k requires 0 <= k < HOURS_PER_DAY => HourLabel(k))
  }

  /** The numbers `range(0, ceil(date_num / 7), 2)`: every other week of the
      chart. */
  function LabelledWeeks(dateNum: int): (r: seq<int>)
    ensures forall j :: 0 <= j < |r| ==> r[j] == 2 * j
  {
    Arange(0, CeilDiv(dateNum, 7), 2)
  }

  /** The week labels of `enumerate_labels`: "0", "2", "4", ... for every
      even week number below ceil(date_num / 7), and no other. */
  function WeekLabels(dateNum: int): (r: seq<string>)
    ensures |r| == |LabelledWeeks(dateNum)|
    ensures forall j :: 0 <= j < |r| ==> r[j] == NatToString(2 * j) && 2 * j < CeilDiv(dateNum, 7)
    ensures CeilDiv(dateNum, 7) <= 2 * |r|
  {
    var weeks := LabelledWeeks(dateNum);
    seq(|weeks|, j requires 0 <= j < |weeks| => NatToString(weeks[j]))
  }

  /** The y ticks `np.arange(0, 24, 1)`. */
  function HourTicks(): (r: seq<int>)
    ensures |r| == HOURS_PER_DAY
  {
    ArangeLength(0, HOURS_PER_DAY, 1);
    Arange(0, HOURS_PER_DAY, 1)
  }

  /** The x ticks `np.arange(1, date_num + 1, 14)` of both 24-hour layouts. */
  function WeekTicks(dateNum: int): (r: seq<int>)
    ensures forall j :: 0 <= j < |r| ==> 1 <= r[j] <= dateNum
  {
    Arange(1, dateNum + 1, WEEK_TICK_DAYS)
  }

  /** The hour labels are pairwise different, and the k-th y tick, at clock
      hour k, carries the label "k:00". */
  lemma {:induction false} HourTicksMatchLabels()
    ensures |HourTicks()| == |HourLabels()|
    ensures forall k :: 0 <= k < HOURS_PER_DAY ==> HourTicks()[k] == k && HourLabels()[k] == HourLabel(k)
    ensures forall i, j :: 0 <= i < j < HOURS_PER_DAY ==> HourLabels()[i] != HourLabels()[j]
  {
    forall i, j | 0 <= i < j < HOURS_PER_DAY
      ensures HourLabels()[i] != HourLabels()[j]
    {
      if HourLabels()[i] == HourLabels()[j] {
        assert HourLabel(i) == HourLabel(j);
        assert "" + NatToString(i) == NatToString(i) && "" + NatToString(j) == NatToString(j);
        LabelInjective("", i, j, ":00");
        assert false;
      }
    }
  }

  /** For a chart of at least one day there are as many week ticks as week
      labels, ceil(date_num / 14) of each, and the j-th tick, on day
      1 + 14 j, is labelled with week 2 j, the week that day begins. */
  lemma {:induction false} WeekTicksMatchLabels(dateNum: int)
    requires dateNum >= 1
    ensures |WeekTicks(dateNum)| == |WeekLabels(dateNum)| == CeilDiv(dateNum, WEEK_TICK_DAYS)
    ensures forall j :: 0 <= j < |WeekTicks(dateNum)| ==>
              WeekTicks(dateNum)[j] == 1 + 7 * LabelledWeeks(dateNum)[j]
              && WeekLabels(dateNum)[j] == NatToString(LabelledWeeks(dateNum)[j])
  {
    var c := CeilDiv(dateNum, 7);
    ArangeLength(1, dateNum + 1, WEEK_TICK_DAYS);
    ArangeLength(0, c, 2);
    var m := CeilDiv(c, 2);
    assert (m - 1) * 14 < dateNum <= m * 14;
  }

  /** A chart that spans no day has neither week ticks nor week labels. */
  lemma {:induction false} NoDaysNoWeekTicks(dateNum: int)
    requires dateNum <= 0
    ensures |WeekTicks(dateNum)| == 0 && |WeekLabels(dateNum)| == 0
  {
  }

  /** `export_figure`'s path: output directory, "/", chart name, format. */
  function ExportFilename(directory: string, name: string, format: string): (r: string)
    ensures |r| == |directory| + 1 + |name| + |format|
    ensures r[..|directory|] == directory && r[|directory|] == '/'
    ensures r[|directory| + 1..|directory| + 1 + |name|] == name
    ensures r[|directory| + 1 + |name|..] == format
  {
    directory + "/" + name + format
  }

  /** Charts with different names never overwrite each other's file. */
  lemma {:induction false} DistinctChartsDistinctFiles(directory: string, a: string, b: string, format: string)
    requires a != b
    ensures ExportFilename(directory, a, format) != ExportFilename(directory, b, format)
  {
  }
}
