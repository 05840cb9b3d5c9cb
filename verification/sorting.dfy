/** `sort_values` on one integer key, as a stable insertion sort. */
module Sorting {

  /** Non-decreasing in `key`. */
  ghost predicate SortedBy<T>(s: seq<T>, key: T -> int)
  {
    forall i, j :: 0 <= i < j < |s| ==> key(s[i]) <= key(s[j])
  }

  /** Number of elements whose `f` equals `k` (how often a date occurs). */
  function Occurrences<T>(s: seq<T>, f: T -> int, k: int): nat
  {
    if |s| == 0 then 0
    else (if f(s[0]) == k then 1 else 0) + Occurrences(s[1..], f, k)
  }

  /** Inserts `x` in front of the first element whose key is not smaller. */
  function Insert<T>(x: T, s: seq<T>, key: T -> int): (r: seq<T>)
    ensures |r| == |s| + 1
  {
    if |s| == 0 then [x]
    else if key(x) <= key(s[0]) then [x] + s
    else [s[0]] + Insert(x, s[1..], key)
  }

  /** Inserting adds `x` to the elements. */
  lemma {:induction false} InsertPermutes<T>(x: T, s: seq<T>, key: T -> int)
    ensures multiset(Insert(x, s, key)) == multiset(s) + multiset{x}
  {
    if |s| > 0 && key(x) > key(s[0]) {
      InsertPermutes(x, s[1..], key);
      assert s == [s[0]] + s[1..];
      assert Insert(x, s, key) == [s[0]] + Insert(x, s[1..], key);
    } else if |s| > 0 {
      assert Insert(x, s, key) == [x] + s;
    }
  }

  /** Inserting keeps a sorted sequence sorted. */
  lemma {:induction false} InsertKeepsSorted<T>(x: T, s: seq<T>, key: T -> int)
    requires SortedBy(s, key)
    ensures SortedBy(Insert(x, s, key), key)
  {
    var r := Insert(x, s, key);
    if |s| > 0 && key(x) > key(s[0]) {
      var rest := Insert(x, s[1..], key);
      assert SortedBy(s[1..], key);
      InsertKeepsSorted(x, s[1..], key);
      InsertLowerBound(x, s[1..], key, key(s[0]));
      assert r == [s[0]] + rest;
      forall i, j | 0 <= i < j < |r| ensures key(r[i]) <= key(r[j]) {
        assert r[j] == rest[j - 1];
        if i > 0 {
          assert r[i] == rest[i - 1];
        }
      }
    } else if |s| > 0 {
      assert r == [x] + s;
      forall i, j | 0 <= i < j < |r| ensures key(r[i]) <= key(r[j]) {
        assert r[j] == s[j - 1];
        if i > 0 {
          assert r[i] == s[i - 1];
        }
      }
    }
  }

  /** A bound below `x` and below every element of `s` stays below every
      element after inserting. */
  lemma {:induction false} InsertLowerBound<T>(x: T, s: seq<T>, key: T -> int, b: int)
    requires b <= key(x) && forall i :: 0 <= i < |s| ==> b <= key(s[i])
    ensures forall i :: 0 <= i < |Insert(x, s, key)| ==> b <= key(Insert(x, s, key)[i])
  {
    var r := Insert(x, s, key);
    if |s| > 0 && key(x) > key(s[0]) {
      InsertLowerBound(x, s[1..], key, b);
      assert r == [s[0]] + Insert(x, s[1..], key);
    } else if |s| > 0 {
      assert r == [x] + s;
    }
  }

  lemma {:induction false} InsertOccurrences<T>(x: T, s: seq<T>, key: T -> int, f: T -> int, k: int)
    ensures Occurrences(Insert(x, s, key), f, k)
         == Occurrences(s, f, k) + (if f(x) == k then 1 else 0)
  {
    if |s| > 0 && key(x) > key(s[0]) {
      InsertOccurrences(x, s[1..], key, f, k);
      var r := Insert(x, s, key);
      assert r[1..] == Insert(x, s[1..], key);
    }
  }

  /** `sort_values([key], ascending=True)`: a sorted permutation; elements
      with equal keys keep their input order. */
  function SortBy<T>(s: seq<T>, key: T -> int): (r: seq<T>)
    ensures |r| == |s|
  {
    if |s| == 0 then [] else Insert(s[0], SortBy(s[1..], key), key)
  }

  /** The sorted sequence holds the same elements, in non-decreasing key
      order. */
  lemma {:induction false} SortByPermutesAndSorts<T>(s: seq<T>, key: T -> int)
    ensures multiset(SortBy(s, key)) == multiset(s)
    ensures SortedBy(SortBy(s, key), key)
  {
    if |s| > 0 {
      SortByPermutesAndSorts(s[1..], key);
      InsertPermutes(s[0], SortBy(s[1..], key), key);
      InsertKeepsSorted(s[0], SortBy(s[1..], key), key);
      assert s == [s[0]] + s[1..];
    }
  }

  /** Sorting changes no element's multiplicity under any key. */
  lemma {:induction false} SortOccurrences<T>(s: seq<T>, key: T -> int, f: T -> int, k: int)
    ensures Occurrences(SortBy(s, key), f, k) == Occurrences(s, f, k)
  {
    if |s| > 0 {
      SortOccurrences(s[1..], key, f, k);
      InsertOccurrences(s[0], SortBy(s[1..], key), key, f, k);
    }
  }

  /** Two positions sharing a value make that value occur at least twice. */
  lemma {:induction false} TwoPositionsOccurTwice<T>(s: seq<T>, f: T -> int, i: int, j: int)
    requires 0 <= i < j < |s| && f(s[i]) == f(s[j])
    ensures Occurrences(s, f, f(s[i])) >= 2
  {
    if i > 0 {
      TwoPositionsOccurTwice(s[1..], f, i - 1, j - 1);
    } else {
      OccursAtPosition(s[1..], f, j - 1);
    }
  }

  lemma {:induction false} OccursAtPosition<T>(s: seq<T>, f: T -> int, j: int)
    requires 0 <= j < |s|
    ensures Occurrences(s, f, f(s[j])) >= 1
  {
    if j > 0 {
      OccursAtPosition(s[1..], f, j - 1);
    }
  }
}
