/** `resample("BMS")`: calendar-month buckets of a day-indexed series, from
    the month of its earliest entry to the month of its latest. The bucket
    label (first business day of the month) is not modelled; a bucket is
    identified by its calendar month (`Clock.MonthOf`). */
module Monthly {
  import opened Clock
  import opened Sorting
  import opened Grouping

  /** One value of a day-indexed series. */
  datatype Entry = Entry(day: int, value: real)

  /** One monthly bucket: the month key and the aggregated value. */
  datatype Bucket = Bucket(month: int, value: real)

  /** One monthly bucket of `resample(...).count()`. */
  datatype CountBucket = CountBucket(month: int, count: nat)

  function EntryMonth(e: Entry): int
  {
    MonthOf(e.day)
  }

  function EntryValue(e: Entry): real
  {
    e.value
  }

  /** The month key of every day, in order. */
  function Months(days: seq<int>): (r: seq<int>)
    ensures |r| == |days|
    ensures forall i :: 0 <= i < |days| ==> r[i] == MonthOf(days[i])
  {
    seq(|days|, i requires 0 <= i < |days| => MonthOf(days[i]))
  }

  function Least(ms: seq<int>): (m: int)
    requires |ms| > 0
    ensures forall i :: 0 <= i < |ms| ==> m <= ms[i]
    ensures exists i :: 0 <= i < |ms| && ms[i] == m
  {
    if |ms| == 1 then ms[0]
    else
      var m := Least(ms[1..]);
      assert forall i :: 1 <= i < |ms| ==> ms[i] == ms[1..][i - 1];
      if ms[0] <= m then ms[0] else m
  }

  function Greatest(ms: seq<int>): (m: int)
    requires |ms| > 0
    ensures forall i :: 0 <= i < |ms| ==> ms[i] <= m
    ensures exists i :: 0 <= i < |ms| && ms[i] == m
  {
    if |ms| == 1 then ms[0]
    else
      var m := Greatest(ms[1..]);
      assert forall i :: 1 <= i < |ms| ==> ms[i] == ms[1..][i - 1];
      if ms[0] >= m then ms[0] else m
  }

  /** The earliest month among the days. */
  function FirstMonth(days: seq<int>): (m: int)
    requires |days| > 0
    ensures forall i :: 0 <= i < |days| ==> m <= MonthOf(days[i])
    ensures exists i :: 0 <= i < |days| && MonthOf(days[i]) == m
  {
    var ms := Months(days);
    var m := Least(ms);
    assert exists i :: 0 <= i < |days| && MonthOf(days[i]) == m by {
      var i :| 0 <= i < |ms| && ms[i] == m;
      assert MonthOf(days[i]) == m;
    }
    m
  }

  /** The latest month among the days. */
  function LastMonth(days: seq<int>): (m: int)
    requires |days| > 0
    ensures forall i :: 0 <= i < |days| ==> MonthOf(days[i]) <= m
    ensures exists i :: 0 <= i < |days| && MonthOf(days[i]) == m
  {
    var ms := Months(days);
    var m := Greatest(ms);
    assert exists i :: 0 <= i < |days| && MonthOf(days[i]) == m by {
      var i :| 0 <= i < |ms| && ms[i] == m;
      assert MonthOf(days[i]) == m;
    }
    m
  }

  function Days(entries: seq<Entry>): (r: seq<int>)
    ensures |r| == |entries|
    ensures forall i :: 0 <= i < |r| ==> r[i] == entries[i].day
  {
    if |entries| == 0 then [] else [entries[0].day] + Days(entries[1..])
  }

  /** The monthly sum for month m. */
  function MonthSum(entries: seq<Entry>, m: int): real
  {
    if |entries| == 0 then 0.0
    else (if EntryMonth(entries[0]) == m then entries[0].value else 0.0) + MonthSum(entries[1..], m)
  }

  /** The monthly sum is the total of the month's selected rows. */
  lemma {:induction false} MonthSumIsSelectedTotal(entries: seq<Entry>, m: int)
    ensures MonthSum(entries, m) == Total(Select(entries, EntryMonth, m), EntryValue)
  {
    if |entries| > 0 {
      MonthSumIsSelectedTotal(entries[1..], m);
      var rest := Select(entries[1..], EntryMonth, m);
      if EntryMonth(entries[0]) == m {
        assert Select(entries, EntryMonth, m) == [entries[0]] + rest;
        assert ([entries[0]] + rest)[1..] == rest;
      }
    }
  }

  /** The sums of the months lo..hi, one bucket per month. */
  function SumBuckets(entries: seq<Entry>, lo: int, hi: int): (r: seq<Bucket>)
    ensures |r| == if lo <= hi then hi - lo + 1 else 0
    ensures forall i :: 0 <= i < |r| ==> r[i] == Bucket(lo + i, MonthSum(entries, lo + i))
    decreases hi - lo
  {
    if lo > hi then []
    else
      var rest := SumBuckets(entries, lo + 1, hi);
      var r := [Bucket(lo, MonthSum(entries, lo))] + rest;
      assert forall i :: 1 <= i < |r| ==> r[i] == rest[i - 1];
      r
  }

  function BucketTotal(buckets: seq<Bucket>): real
  {
    if |buckets| == 0 then 0.0 else buckets[0].value + BucketTotal(buckets[1..])
  }

  /** `series.resample("BMS").sum()`: one bucket per month from the month of
      the earliest entry to the month of the latest, consecutive, each
      holding the total of the entries of its month (0 for a month without
      any). */
  function ResampleSum(entries: seq<Entry>): (r: seq<Bucket>)
    ensures |entries| == 0 <==> |r| == 0
    ensures |entries| > 0 ==>
      && |r| == LastMonth(Days(entries)) - FirstMonth(Days(entries)) + 1
      && forall i :: 0 <= i < |r| ==> r[i].month == FirstMonth(Days(entries)) + i
    ensures forall i :: 0 <= i < |r| ==> r[i].value == Total(Select(entries, EntryMonth, r[i].month), EntryValue)
    ensures |r| > 0 ==> forall k :: 0 <= k < |entries| ==> r[0].month <= EntryMonth(entries[k]) <= r[|r| - 1].month
  {
    if |entries| == 0 then []
    else
      var lo, hi := FirstMonth(Days(entries)), LastMonth(Days(entries));
      MonthsOrdered(Days(entries));
      MonthSumsAreSelectedTotals(entries, lo, hi);
      EntriesWithinMonths(entries);
      SumBuckets(entries, lo, hi)
  }

  /** Every bucket of `SumBuckets` is the total of its month's entries. */
  lemma {:induction false} MonthSumsAreSelectedTotals(entries: seq<Entry>, lo: int, hi: int)
    ensures forall i :: 0 <= i < |SumBuckets(entries, lo, hi)| ==>
              SumBuckets(entries, lo, hi)[i].value
              == Total(Select(entries, EntryMonth, SumBuckets(entries, lo, hi)[i].month), EntryValue)
  {
    forall i | 0 <= i < |SumBuckets(entries, lo, hi)|
      ensures SumBuckets(entries, lo, hi)[i].value
              == Total(Select(entries, EntryMonth, SumBuckets(entries, lo, hi)[i].month), EntryValue)
    {
      MonthSumIsSelectedTotal(entries, lo + i);
    }
  }

  lemma {:induction false} SumBucketsTotal(entries: seq<Entry>, lo: int, hi: int)
    ensures BucketTotal(SumBuckets(entries, lo, hi)) == TotalOverKeys(entries, EntryMonth, EntryValue, lo, hi)
    decreases hi - lo
  {
    if lo <= hi {
      SumBucketsTotal(entries, lo + 1, hi);
      MonthSumIsSelectedTotal(entries, lo);
      assert SumBuckets(entries, lo, hi)[1..] == SumBuckets(entries, lo + 1, hi);
    }
  }

  /** The monthly buckets add up to the total of the series: resampling
      neither loses nor double-counts a day. */
  lemma {:induction false} ResampleSumTotal(entries: seq<Entry>)
    ensures BucketTotal(ResampleSum(entries)) == Total(entries, EntryValue)
  {
    if |entries| > 0 {
      var days := Days(entries);
      var lo, hi := FirstMonth(days), LastMonth(days);
      SumBucketsTotal(entries, lo, hi);
      EntriesWithinMonths(entries);
      PartitionTotal(entries, EntryMonth, EntryValue, lo, hi);
    }
  }

  /** Every entry falls between the first and the last month. */
  lemma {:induction false} EntriesWithinMonths(entries: seq<Entry>)
    requires |entries| > 0
    ensures forall i :: 0 <= i < |entries| ==>
              FirstMonth(Days(entries)) <= EntryMonth(entries[i]) <= LastMonth(Days(entries))
  {
    var days := Days(entries);
    forall i | 0 <= i < |entries|
      ensures FirstMonth(days) <= EntryMonth(entries[i]) <= LastMonth(days)
    {
      assert days[i] == entries[i].day;
    }
  }

  /** Number of the days that fall in month m. */
  function MonthCount(days: seq<int>, m: int): nat
  {
    if |days| == 0 then 0
    else (if MonthOf(days[0]) == m then 1 else 0) + MonthCount(days[1..], m)
  }

  /** `MonthCount` counts the days whose month key is m. */
  lemma {:induction false} MonthCountIsOccurrences(days: seq<int>, m: int)
    ensures MonthCount(days, m) == Occurrences(days, MonthOf, m)
  {
    if |days| > 0 {
      MonthCountIsOccurrences(days[1..], m);
    }
  }

  function CountBuckets(days: seq<int>, lo: int, hi: int): (r: seq<CountBucket>)
    ensures |r| == if lo <= hi then hi - lo + 1 else 0
    ensures forall i :: 0 <= i < |r| ==> r[i] == CountBucket(lo + i, MonthCount(days, lo + i))
    decreases hi - lo
  {
    if lo > hi then []
    else
      var rest := CountBuckets(days, lo + 1, hi);
      var r := [CountBucket(lo, MonthCount(days, lo))] + rest;
      assert forall i :: 1 <= i < |r| ==> r[i] == rest[i - 1];
      r
  }

  lemma {:induction false} MonthsOrdered(days: seq<int>)
    requires |days| > 0
    ensures FirstMonth(days) <= LastMonth(days)
  {
    var d := days[0];
    assert FirstMonth(days) <= MonthOf(d) <= LastMonth(days);
  }

  /** Every bucket of `CountBuckets` counts the days of its month. */
  lemma {:induction false} CountsAreOccurrences(days: seq<int>, lo: int, hi: int)
    ensures forall i :: 0 <= i < |CountBuckets(days, lo, hi)| ==>
              CountBuckets(days, lo, hi)[i].count == Occurrences(days, MonthOf, CountBuckets(days, lo, hi)[i].month)
  {
    forall i | 0 <= i < |CountBuckets(days, lo, hi)|
      ensures CountBuckets(days, lo, hi)[i].count == Occurrences(days, MonthOf, CountBuckets(days, lo, hi)[i].month)
    {
      MonthCountIsOccurrences(days, lo + i);
    }
  }

  /** `series.resample("BMS").count()` of a series indexed by these days: one
      bucket per month from the earliest day's month to the latest's,
      consecutive, each counting the days that fall in its month. */
  function ResampleCount(days: seq<int>): (r: seq<CountBucket>)
    ensures |days| == 0 <==> |r| == 0
    ensures |days| > 0 ==>
      && |r| == LastMonth(days) - FirstMonth(days) + 1
      && forall i :: 0 <= i < |r| ==> r[i].month == FirstMonth(days) + i
    ensures forall i :: 0 <= i < |r| ==> r[i].count == Occurrences(days, MonthOf, r[i].month)
  {
    if |days| == 0 then []
    else
      var lo, hi := FirstMonth(days), LastMonth(days);
      MonthsOrdered(days);
      CountsAreOccurrences(days, lo, hi);
      CountBuckets(days, lo, hi)
  }
}
