/** Column reductions (pandas `sum`, `max`, `min`, `mean`), `range` /
    `np.arange`, and ceiling division. */
module Seqs {
  import opened Outcomes

  /** `Series.sum()` of a column without missing values. */
  function Sum(s: seq<real>): real
  {
    if |s| == 0 then 0.0 else s[0] + Sum(s[1..])
  }

  lemma {:induction false} SumAppend(a: seq<real>, b: seq<real>)
    ensures Sum(a + b) == Sum(a) + Sum(b)
  {
    if |a| == 0 {
      assert a + b == b;
    } else {
      assert (a + b)[1..] == a[1..] + b;
      SumAppend(a[1..], b);
    }
  }

  /** Summing from the back gives the same total. */
  lemma {:induction false} SumLast(s: seq<real>)
    requires |s| > 0
    ensures Sum(s) == Sum(s[..|s| - 1]) + s[|s| - 1]
  {
    assert s == s[..|s| - 1] + [s[|s| - 1]];
    SumAppend(s[..|s| - 1], [s[|s| - 1]]);
  }

  /** A column of non-negative values has a non-negative total. */
  lemma {:induction false} SumNonNegative(s: seq<real>)
    requires forall i :: 0 <= i < |s| ==> 0.0 <= s[i]
    ensures 0.0 <= Sum(s)
  {
    if |s| > 0 {
      SumNonNegative(s[1..]);
    }
  }

  /** `Series.max()` of a non-empty column: an element that bounds all others. */
  function Max(s: seq<real>): (r: real)
    requires |s| > 0
    ensures forall i :: 0 <= i < |s| ==> s[i] <= r
    ensures exists i :: 0 <= i < |s| && s[i] == r
  {
    if |s| == 1 then s[0]
    else
      var m := Max(s[1..]);
      assert forall i :: 1 <= i < |s| ==> s[i] == s[1..][i - 1];
      if s[0] >= m then s[0] else m
  }

  /** `Series.min()` of a non-empty column. */
  function Min(s: seq<real>): (r: real)
    requires |s| > 0
    ensures forall i :: 0 <= i < |s| ==> r <= s[i]
    ensures exists i :: 0 <= i < |s| && s[i] == r
  {
    if |s| == 1 then s[0]
    else
      var m := Min(s[1..]);
      assert forall i :: 1 <= i < |s| ==> s[i] == s[1..][i - 1];
      if s[0] <= m then s[0] else m
  }

  /** `max()`, NaN on an empty column. */
  function MaxOpt(s: seq<real>): (r: Option<real>)
    ensures r.None? <==> |s| == 0
    ensures r.Some? ==> (forall i :: 0 <= i < |s| ==> s[i] <= r.value) && r.value in s
  {
    if |s| == 0 then None else Some(Max(s))
  }

  /** `min()`, NaN on an empty column. */
  function MinOpt(s: seq<real>): (r: Option<real>)
    ensures r.None? <==> |s| == 0
    ensures r.Some? ==> (forall i :: 0 <= i < |s| ==> r.value <= s[i]) && r.value in s
  {
    if |s| == 0 then None else Some(Min(s))
  }

  /** `mean()`, NaN on an empty column. */
  function MeanOpt(s: seq<real>): (r: Option<real>)
    ensures r.None? <==> |s| == 0
    ensures r.Some? ==> r.value * |s| as real == Sum(s)
  {
    if |s| == 0 then None else Some(Sum(s) / |s| as real)
  }

  /** Reordering a column changes neither its minimum nor its maximum. */
  lemma {:induction false} MinMaxPermutation(a: seq<real>, b: seq<real>)
    requires multiset(a) == multiset(b)
    ensures MinOpt(a) == MinOpt(b) && MaxOpt(a) == MaxOpt(b)
  {
    assert |a| == |multiset(a)| == |multiset(b)| == |b|;
    if |a| > 0 {
      var x, y := MinOpt(a).value, MinOpt(b).value;
      assert x in multiset(b) && y in multiset(a);
      var i :| 0 <= i < |b| && b[i] == x;
      var j :| 0 <= j < |a| && a[j] == y;
      assert y <= x && x <= y;
      var u, v := MaxOpt(a).value, MaxOpt(b).value;
      assert u in multiset(b) && v in multiset(a);
      var k :| 0 <= k < |b| && b[k] == u;
      var l :| 0 <= l < |a| && a[l] == v;
      assert u <= v && v <= u;
    }
  }

  /** A column whose every value is at least `lo` totals at least
      `lo * |s|`. */
  lemma {:induction false} SumAtLeast(s: seq<real>, lo: real)
    requires forall i :: 0 <= i < |s| ==> lo <= s[i]
    ensures lo * |s| as real <= Sum(s)
  {
    if |s| > 0 {
      SumAtLeast(s[1..], lo);
      assert lo * |s| as real == lo * (|s| - 1) as real + lo;
    }
  }

  /** A column whose every value is at most `hi` totals at most
      `hi * |s|`. */
  lemma {:induction false} SumAtMost(s: seq<real>, hi: real)
    requires forall i :: 0 <= i < |s| ==> s[i] <= hi
    ensures Sum(s) <= hi * |s| as real
  {
    if |s| > 0 {
      SumAtMost(s[1..], hi);
      assert hi * |s| as real == hi * (|s| - 1) as real + hi;
    }
  }

  /** For a non-empty column, min <= mean <= max. */
  lemma {:induction false} MeanBetweenMinAndMax(s: seq<real>)
    requires |s| > 0
    ensures MinOpt(s).value <= MeanOpt(s).value <= MaxOpt(s).value
  {
    var n := |s| as real;
    var mean := MeanOpt(s).value;
    SumAtLeast(s, Min(s));
    SumAtMost(s, Max(s));
    MulCancel(Min(s), mean, n);
    MulCancel(mean, Max(s), n);
  }

  lemma {:induction false} MulCancel(a: real, b: real, n: real)
    requires n > 0.0 && a * n <= b * n
    ensures a <= b
  {
  }

  /** `math.ceil(a / b)` for a positive divisor. */
  function CeilDiv(a: int, b: int): (r: int)
    requires b > 0
    ensures (r - 1) * b < a <= r * b
  {
    (a + b - 1) / b
  }

  /** `range(start, stop, step)` / `np.arange(start, stop, step)` with a
      positive step: the values start, start + step, ... below stop. */
  function Arange(start: int, stop: int, step: int): (r: seq<int>)
    requires step > 0
    ensures start >= stop <==> |r| == 0
    ensures start < stop ==> stop <= r[|r| - 1] + step
    ensures forall i :: 0 <= i < |r| ==> r[i] == start + step * i && r[i] < stop
    decreases stop - start
  {
    if start >= stop then []
    else
      var rest := Arange(start + step, stop, step);
      assert forall i :: 0 <= i < |rest| ==> rest[i] == start + step * (i + 1) by {
        StepShift(start, step);
      }
      [start] + rest
  }

  /** Moving the start one step on shifts every position by one step. */
  lemma {:induction false} StepShift(start: int, step: int)
    ensures forall i :: start + step + step * i == start + step * (i + 1)
  {
  }

  /** The number of values `Arange` produces is the ceiling of the span
      over the step. */
  lemma {:induction false} ArangeLength(start: int, stop: int, step: int)
    requires step > 0 && start < stop
    ensures |Arange(start, stop, step)| == CeilDiv(stop - start, step)
  {
    var r := Arange(start, stop, step);
    var n := |r|;
    var c := CeilDiv(stop - start, step);
    assert r[n - 1] == start + step * (n - 1);
    // (n - 1) * step < stop - start <= n * step, and the same for c.
    if n < c {
      MulMonotone(n, c - 1, step);
    } else if n > c {
      MulMonotone(c, n - 1, step);
    }
  }

  lemma {:induction false} MulMonotone(a: int, b: int, k: int)
    requires a <= b && k >= 0
    ensures a * k <= b * k
  {
  }
}
