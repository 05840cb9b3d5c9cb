/** Grouping rows by an integer key (a calendar day or a calendar month):
    the per-day `isin` selection, the day range the loops walk, and the
    fact that per-key totals add up to the table total. */
module Grouping {
  import opened Outcomes
  import opened Sorting

  /** `data[data["Date"].isin([d])]`: the rows whose key is `d`, in table
      order. */
  function Select<T>(rows: seq<T>, key: T -> int, d: int): (r: seq<T>)
    ensures |r| == Occurrences(rows, key, d)
    ensures forall i :: 0 <= i < |r| ==> key(r[i]) == d
  {
    if |rows| == 0 then []
    else
      var rest := Select(rows[1..], key, d);
      if key(rows[0]) == d then [rows[0]] + rest else rest
  }

  /** Every selected row comes from the table. */
  lemma {:induction false} SelectFromTable<T>(rows: seq<T>, key: T -> int, d: int)
    ensures multiset(Select(rows, key, d)) <= multiset(rows)
  {
    if |rows| > 0 {
      SelectFromTable(rows[1..], key, d);
      assert rows == [rows[0]] + rows[1..];
    }
  }

  /** Selection keeps the table order, so a sorted table gives sorted days. */
  lemma {:induction false} SelectKeepsOrder<T>(rows: seq<T>, key: T -> int, d: int, order: T -> int)
    requires SortedBy(rows, order)
    ensures SortedBy(Select(rows, key, d), order)
  {
    if |rows| > 0 {
      var rest := Select(rows[1..], key, d);
      assert SortedBy(rows[1..], order);
      SelectKeepsOrder(rows[1..], key, d, order);
      SelectFromTable(rows[1..], key, d);
      if key(rows[0]) == d {
        forall j | 0 <= j < |rest| ensures order(rows[0]) <= order(rest[j]) {
          assert rest[j] in multiset(rows[1..]);
          var k :| 0 <= k < |rows[1..]| && rows[1..][k] == rest[j];
          assert rows[k + 1] == rest[j];
        }
      }
    }
  }

  /** The sum of `w` over the rows. */
  function Total<T>(rows: seq<T>, w: T -> real): real
  {
    if |rows| == 0 then 0.0 else w(rows[0]) + Total(rows[1..], w)
  }

  /** Sum over the keys lo..hi of the per-key totals. */
  function TotalOverKeys<T>(rows: seq<T>, key: T -> int, w: T -> real, lo: int, hi: int): real
    decreases hi - lo
  {
    if lo > hi then 0.0
    else Total(Select(rows, key, lo), w) + TotalOverKeys(rows, key, w, lo + 1, hi)
  }

  /** Sum over the keys lo..hi of `w(x)` where the key of x matches. */
  function OneRowOverKeys<T>(x: T, key: T -> int, w: T -> real, lo: int, hi: int): real
    decreases hi - lo
  {
    if lo > hi then 0.0
    else (if key(x) == lo then w(x) else 0.0) + OneRowOverKeys(x, key, w, lo + 1, hi)
  }

  lemma {:induction false} OneRowCountedOnce<T>(x: T, key: T -> int, w: T -> real, lo: int, hi: int)
    ensures OneRowOverKeys(x, key, w, lo, hi) == if lo <= key(x) <= hi then w(x) else 0.0
    decreases hi - lo
  {
    if lo <= hi {
      OneRowCountedOnce(x, key, w, lo + 1, hi);
    }
  }

  lemma {:induction false} PeelFirstRow<T>(rows: seq<T>, key: T -> int, w: T -> real, lo: int, hi: int)
    requires |rows| > 0
    ensures TotalOverKeys(rows, key, w, lo, hi)
         == OneRowOverKeys(rows[0], key, w, lo, hi) + TotalOverKeys(rows[1..], key, w, lo, hi)
    decreases hi - lo
  {
    if lo <= hi {
      PeelFirstRow(rows, key, w, lo + 1, hi);
    }
  }

  /** Every row lies in exactly one group: when all keys lie in lo..hi, the
      per-key totals add up to the table total. */
  lemma {:induction false} PartitionTotal<T>(rows: seq<T>, key: T -> int, w: T -> real, lo: int, hi: int)
    requires forall i :: 0 <= i < |rows| ==> lo <= key(rows[i]) <= hi
    ensures TotalOverKeys(rows, key, w, lo, hi) == Total(rows, w)
  {
    if |rows| == 0 {
      EmptyOverKeys(rows, key, w, lo, hi);
    } else {
      PeelFirstRow(rows, key, w, lo, hi);
      OneRowCountedOnce(rows[0], key, w, lo, hi);
      PartitionTotal(rows[1..], key, w, lo, hi);
    }
  }

  lemma {:induction false} EmptyOverKeys<T>(rows: seq<T>, key: T -> int, w: T -> real, lo: int, hi: int)
    requires |rows| == 0
    ensures TotalOverKeys(rows, key, w, lo, hi) == 0.0
    decreases hi - lo
  {
    if lo <= hi {
      EmptyOverKeys(rows, key, w, lo + 1, hi);
    }
  }

  /** `pd.date_range(start, end)`: every day from start to end inclusive. */
  function DateRange(start: int, end: int): (r: seq<int>)
    ensures |r| == if start <= end then end - start + 1 else 0
    ensures forall i :: 0 <= i < |r| ==> r[i] == start + i
    decreases end - start
  {
    if start > end then [] else [start] + DateRange(start + 1, end)
  }

  /** The first day of lo..hi on which no row falls, if there is one: the
      day on which a loop that reads `iloc[0]` of each day stops. */
  function FirstEmptyDay<T>(rows: seq<T>, key: T -> int, lo: int, hi: int): (r: Option<int>)
    ensures r.None? ==> forall k :: lo <= k <= hi ==> Occurrences(rows, key, k) > 0
    ensures r.Some? ==> !(forall k :: lo <= k <= hi ==> Occurrences(rows, key, k) > 0)
    ensures r.Some? ==> lo <= r.value <= hi && Occurrences(rows, key, r.value) == 0
    ensures r.Some? ==> forall k :: lo <= k < r.value ==> Occurrences(rows, key, k) > 0
    decreases hi - lo
  {
    if lo > hi then None
    else if Occurrences(rows, key, lo) == 0 then
      Some(lo)
    else FirstEmptyDay(rows, key, lo + 1, hi)
  }
  /** `rows[mask]`: the rows satisfying `p`, in table order. */
  function Filter<T>(rows: seq<T>, p: T -> bool): (r: seq<T>)
    ensures |r| <= |rows|
    ensures forall i :: 0 <= i < |r| ==> p(r[i])
  {
    if |rows| == 0 then []
    else if p(rows[0]) then [rows[0]] + Filter(rows[1..], p)
    else Filter(rows[1..], p)
  }

  /** A row that satisfies `p` survives the filter. */
  lemma {:induction false} FilterKeeps<T>(rows: seq<T>, p: T -> bool, i: int)
    requires 0 <= i < |rows| && p(rows[i])
    ensures rows[i] in Filter(rows, p)
  {
    if i > 0 {
      FilterKeeps(rows[1..], p, i - 1);
    }
  }

  /** The first row of a selection is the first row of the table that
      satisfies the mask. */
  lemma {:induction false} FilterFirstMatch<T>(rows: seq<T>, p: T -> bool)
    requires |Filter(rows, p)| > 0
    ensures exists i :: 0 <= i < |rows| && rows[i] == Filter(rows, p)[0] && p(rows[i])
                        && forall j :: 0 <= j < i ==> !p(rows[j])
  {
    if !p(rows[0]) {
      FilterFirstMatch(rows[1..], p);
      var i :| 0 <= i < |rows[1..]| && rows[1..][i] == Filter(rows[1..], p)[0] && p(rows[1..][i])
               && forall j :: 0 <= j < i ==> !p(rows[1..][j]);
      assert rows[i + 1] == Filter(rows, p)[0];
      assert forall j :: 0 <= j < i + 1 ==> !p(rows[j]) by {
        forall j | 0 <= j < i + 1 ensures !p(rows[j]) {
          if j > 0 {
            assert rows[j] == rows[1..][j - 1];
          }
        }
      }
    }
  }

  /** The last row of a selection is the last row of the table that
      satisfies the mask. */
  lemma {:induction false} FilterLastMatch<T>(rows: seq<T>, p: T -> bool)
    requires |Filter(rows, p)| > 0
    ensures exists i :: 0 <= i < |rows| && rows[i] == Filter(rows, p)[|Filter(rows, p)| - 1] && p(rows[i])
                        && forall j :: i < j < |rows| ==> !p(rows[j])
  {
    var f := Filter(rows, p);
    var rest := Filter(rows[1..], p);
    if |rest| > 0 {
      FilterLastMatch(rows[1..], p);
      var i :| 0 <= i < |rows[1..]| && rows[1..][i] == rest[|rest| - 1] && p(rows[1..][i])
               && forall j :: i < j < |rows[1..]| ==> !p(rows[1..][j]);
      assert f[|f| - 1] == rest[|rest| - 1];
      assert rows[i + 1] == f[|f| - 1];
      assert forall j :: i + 1 < j < |rows| ==> !p(rows[j]) by {
        forall j | i + 1 < j < |rows| ensures !p(rows[j]) {
          assert rows[j] == rows[1..][j - 1];
        }
      }
    } else {
      assert f == [rows[0]];
      assert forall j :: 0 < j < |rows| ==> !p(rows[j]) by {
        forall j | 0 < j < |rows| ensures !p(rows[j]) {
          if p(rows[j]) {
            FilterKeeps(rows[1..], p, j - 1);
            assert false;
          }
        }
      }
    }
  }

  lemma {:induction false} TotalAppend<T>(a: seq<T>, b: seq<T>, w: T -> real)
    ensures Total(a + b, w) == Total(a, w) + Total(b, w)
  {
    if |a| == 0 {
      assert a + b == b;
    } else {
      assert (a + b)[1..] == a[1..] + b;
      TotalAppend(a[1..], b, w);
    }
  }

  /** Summing the filtered rows is summing all rows with the others masked
      to zero. */
  lemma {:induction false} FilterTotal<T>(rows: seq<T>, p: T -> bool, w: T -> real, masked: T -> real)
    requires forall x :: masked(x) == if p(x) then w(x) else 0.0
    ensures Total(Filter(rows, p), w) == Total(rows, masked)
  {
    if |rows| > 0 {
      FilterTotal(rows[1..], p, w, masked);
      if p(rows[0]) {
        assert ([rows[0]] + Filter(rows[1..], p))[1..] == Filter(rows[1..], p);
      }
    }
  }

  /** Dropping rows of non-negative weight never raises the total. */
  lemma {:induction false} FilterTotalAtMost<T>(rows: seq<T>, p: T -> bool, w: T -> real)
    requires forall i :: 0 <= i < |rows| ==> w(rows[i]) >= 0.0
    ensures Total(Filter(rows, p), w) <= Total(rows, w)
  {
    if |rows| > 0 {
      FilterTotalAtMost(rows[1..], p, w);
      if p(rows[0]) {
        assert ([rows[0]] + Filter(rows[1..], p))[1..] == Filter(rows[1..], p);
      }
    }
  }

  lemma {:induction false} InsertTotal<T>(x: T, s: seq<T>, key: T -> int, w: T -> real)
    ensures Total(Insert(x, s, key), w) == w(x) + Total(s, w)
  {
    if |s| > 0 && key(x) > key(s[0]) {
      InsertTotal(x, s[1..], key, w);
      assert Insert(x, s, key)[1..] == Insert(x, s[1..], key);
    } else if |s| > 0 {
      assert ([x] + s)[1..] == s;
    }
  }

  /** Sorting does not change a total. */
  lemma {:induction false} SortTotal<T>(s: seq<T>, key: T -> int, w: T -> real)
    ensures Total(SortBy(s, key), w) == Total(s, w)
  {
    if |s| > 0 {
      SortTotal(s[1..], key, w);
      InsertTotal(s[0], SortBy(s[1..], key), key, w);
    }
  }

  /** A total is monotone in the weight. */
  lemma {:induction false} TotalMonotone<T>(rows: seq<T>, v: T -> real, w: T -> real)
    requires forall i :: 0 <= i < |rows| ==> v(rows[i]) <= w(rows[i])
    ensures Total(rows, v) <= Total(rows, w)
  {
    if |rows| > 0 {
      TotalMonotone(rows[1..], v, w);
    }
  }

  /** A stricter mask keeps no more rows. */
  lemma {:induction false} FilterCountMonotone<T>(rows: seq<T>, p: T -> bool, q: T -> bool)
    requires forall i :: 0 <= i < |rows| ==> p(rows[i]) ==> q(rows[i])
    ensures |Filter(rows, p)| <= |Filter(rows, q)|
  {
    if |rows| > 0 {
      FilterCountMonotone(rows[1..], p, q);
    }
  }

  /** The per-key totals over lo..hi+1 add the last key's total to those
      over lo..hi. */
  lemma {:induction false} TotalOverKeysLast<T>(rows: seq<T>, key: T -> int, w: T -> real, lo: int, hi: int)
    requires lo <= hi + 1
    ensures TotalOverKeys(rows, key, w, lo, hi + 1)
         == TotalOverKeys(rows, key, w, lo, hi) + Total(Select(rows, key, hi + 1), w)
    decreases hi - lo
  {
    if lo <= hi {
      TotalOverKeysLast(rows, key, w, lo + 1, hi);
    }
  }

  /** A weight that splits pointwise into parts splits the total. */
  lemma {:induction false} TotalSplit<T>(rows: seq<T>, u: T -> real, v: T -> real, w: T -> real)
    requires forall i :: 0 <= i < |rows| ==> u(rows[i]) == v(rows[i]) + w(rows[i])
    ensures Total(rows, u) == Total(rows, v) + Total(rows, w)
  {
    if |rows| > 0 {
      TotalSplit(rows[1..], u, v, w);
    }
  }

  /** Filtering keeps the rows in their order. */
  lemma {:induction false} FilterKeepsOrder<T>(rows: seq<T>, p: T -> bool, order: T -> int)
    requires SortedBy(rows, order)
    ensures SortedBy(Filter(rows, p), order)
  {
    if |rows| > 0 {
      FilterKeepsOrder(rows[1..], p, order);
      FilterFromTable(rows[1..], p);
      var rest := Filter(rows[1..], p);
      if p(rows[0]) {
        var r := [rows[0]] + rest;
        forall j | 0 < j < |r| ensures order(r[0]) <= order(r[j]) {
          assert r[j] == rest[j - 1];
          assert r[j] in rows[1..];
          var k :| 0 <= k < |rows[1..]| && rows[1..][k] == r[j];
          assert rows[k + 1] == r[j];
        }
      }
    }
  }

  /** Every filtered row is a row of the table. */
  lemma {:induction false} FilterFromTable<T>(rows: seq<T>, p: T -> bool)
    ensures forall x :: x in Filter(rows, p) ==> x in rows
  {
    if |rows| > 0 {
      FilterFromTable(rows[1..], p);
    }
  }

  lemma {:induction false} FilterInsert<T>(x: T, s: seq<T>, key: T -> int, p: T -> bool)
    requires SortedBy(s, key)
    ensures Filter(Insert(x, s, key), p)
         == if p(x) then Insert(x, Filter(s, p), key) else Filter(s, p)
  {
    if |s| == 0 {
    } else if key(x) <= key(s[0]) {
      assert ([x] + s)[1..] == s;
      var fs := Filter(s, p);
      if |fs| > 0 {
        FilterFromTable(s, p);
        assert fs[0] in s;
        var k :| 0 <= k < |s| && s[k] == fs[0];
        assert key(s[0]) <= key(s[k]);
      }
    } else {
      assert SortedBy(s[1..], key);
      FilterInsert(x, s[1..], key, p);
      var r := Insert(x, s, key);
      assert r[0] == s[0] && r[1..] == Insert(x, s[1..], key);
      assert s == [s[0]] + s[1..];
    }
  }

  /** Sorting and filtering commute: the filtered rows of a sorted table
      are the sorted filtered rows. */
  lemma {:induction false} FilterSortBy<T>(s: seq<T>, key: T -> int, p: T -> bool)
    ensures Filter(SortBy(s, key), p) == SortBy(Filter(s, p), key)
  {
    if |s| > 0 {
      FilterSortBy(s[1..], key, p);
      SortByPermutesAndSorts(s[1..], key);
      FilterInsert(s[0], SortBy(s[1..], key), key, p);
      assert s == [s[0]] + s[1..];
    }
  }
  /** Two tables of equal length whose rows have equal weights, row by row,
      have equal totals. */
  lemma {:induction false} TotalPointwise<T, U>(a: seq<T>, w: T -> real, b: seq<U>, v: U -> real)
    requires |a| == |b|
    requires forall i :: 0 <= i < |a| ==> w(a[i]) == v(b[i])
    ensures Total(a, w) == Total(b, v)
  {
    if |a| > 0 {
      TotalPointwise(a[1..], w, b[1..], v);
    }
  }
  /** Keys strictly increasing along the table. */
  ghost predicate StrictlyIncreasing<T>(rows: seq<T>, key: T -> int)
  {
    forall i, j :: 0 <= i < j < |rows| ==> key(rows[i]) < key(rows[j])
  }

  /** Filtering keeps strictly increasing keys strictly increasing. */
  lemma {:induction false} FilterKeepsStrictOrder<T>(rows: seq<T>, p: T -> bool, key: T -> int)
    requires StrictlyIncreasing(rows, key)
    ensures StrictlyIncreasing(Filter(rows, p), key)
  {
    if |rows| > 0 {
      FilterKeepsStrictOrder(rows[1..], p, key);
      FilterFromTable(rows[1..], p);
      var rest := Filter(rows[1..], p);
      if p(rows[0]) {
        var r := [rows[0]] + rest;
        forall j | 0 < j < |r| ensures key(r[0]) < key(r[j]) {
          assert r[j] == rest[j - 1];
          assert r[j] in rows[1..];
          var k :| 0 <= k < |rows[1..]| && rows[1..][k] == r[j];
          assert rows[k + 1] == r[j];
        }
      }
    }
  }
  /** A row is in the filtered table exactly when it is in the table and
      satisfies the mask. */
  lemma {:induction false} FilterMembership<T>(rows: seq<T>, p: T -> bool, x: T)
    ensures x in Filter(rows, p) <==> x in rows && p(x)
  {
    FilterFromTable(rows, p);
    if x in rows && p(x) {
      var i :| 0 <= i < |rows| && rows[i] == x;
      FilterKeeps(rows, p, i);
    }
    if x in Filter(rows, p) {
      var r := Filter(rows, p);
      var i :| 0 <= i < |r| && r[i] == x;
      assert p(r[i]);
    }
  }

  /** Filtering never makes a key more frequent. */
  lemma {:induction false} FilterOccurrences<T>(rows: seq<T>, p: T -> bool, f: T -> int, k: int)
    ensures Occurrences(Filter(rows, p), f, k) <= Occurrences(rows, f, k)
  {
    if |rows| > 0 {
      FilterOccurrences(rows[1..], p, f, k);
      if p(rows[0]) {
        assert ([rows[0]] + Filter(rows[1..], p))[1..] == Filter(rows[1..], p);
      }
    }
  }

  /** A sorted table in which no key repeats is strictly increasing. */
  lemma {:induction false} UniqueSortedIsStrict<T>(s: seq<T>, key: T -> int)
    requires SortedBy(s, key)
    requires forall i :: 0 <= i < |s| ==> Occurrences(s, key, key(s[i])) <= 1
    ensures StrictlyIncreasing(s, key)
  {
    forall i, j | 0 <= i < j < |s| ensures key(s[i]) < key(s[j]) {
      if key(s[i]) == key(s[j]) {
        TwoPositionsOccurTwice(s, key, i, j);
        assert false;
      }
    }
  }
}
