/** Ordering rows by a numeric score, highest first, as Python's stable
    `sorted(rows, key=lambda r: -r["score"])` does in run.py and as the
    `order("total_score", desc=True)` query does in pipeline/db.py. */
module Ordering {

  ghost predicate Descending<T>(xs: seq<T>, key: T -> real) {
    forall i, j :: 0 <= i < j < |xs| ==> key(xs[i]) >= key(xs[j])
  }

  /** The elements of `xs` whose key is `v`, in their order in `xs`. */
  function WithKey<T>(xs: seq<T>, key: T -> real, v: real): seq<T> {
    if xs == [] then []
    else (if key(xs[0]) == v then [xs[0]] else []) + WithKey(xs[1..], key, v)
  }

  /** Puts `x` in front of the first element whose key does not exceed
      its own, so that `x` stays ahead of the elements it ties with. */
  function Insert<T>(x: T, ys: seq<T>, key: T -> real): (r: seq<T>)
    ensures multiset(r) == multiset(ys) + multiset{x}
    ensures |r| == |ys| + 1
  {
    if ys == [] || key(ys[0]) <= key(x) then [x] + ys
    else
      assert ys == [ys[0]] + ys[1..];
      [ys[0]] + Insert(x, ys[1..], key)
  }

  lemma {:induction false} InsertDescending<T>(x: T, ys: seq<T>, key: T -> real)
    requires Descending(ys, key)
    ensures Descending(Insert(x, ys, key), key)
    ensures Insert(x, ys, key) != [] && (ys == [] || Insert(x, ys, key)[0] == x || Insert(x, ys, key)[0] == ys[0])
  {
    if ys == [] || key(ys[0]) <= key(x) {
    } else {
      InsertDescending(x, ys[1..], key);
      var rest := Insert(x, ys[1..], key);
      assert rest[0] == x || rest[0] == ys[1];
    }
  }

  /** Insertion sort: each row goes in front of the rows of the sorted
      rest whose key does not exceed its own. */
  function InsertionSorted<T>(xs: seq<T>, key: T -> real): seq<T> {
    if xs == [] then [] else Insert(xs[0], InsertionSorted(xs[1..], key), key)
  }

  lemma {:induction false} InsertionSortedPermutes<T>(xs: seq<T>, key: T -> real)
    ensures multiset(InsertionSorted(xs, key)) == multiset(xs)
    ensures |InsertionSorted(xs, key)| == |xs|
  {
    if xs != [] {
      InsertionSortedPermutes(xs[1..], key);
      assert xs == [xs[0]] + xs[1..];
    }
  }

  lemma {:induction false} InsertionSortedDescends<T>(xs: seq<T>, key: T -> real)
    ensures Descending(InsertionSorted(xs, key), key)
  {
    if xs != [] {
      InsertionSortedDescends(xs[1..], key);
      InsertDescending(xs[0], InsertionSorted(xs[1..], key), key);
    }
  }

  /** The rows ordered by descending key, ties in their original order. */
  function SortDescending<T>(xs: seq<T>, key: T -> real): (r: seq<T>)
    ensures multiset(r) == multiset(xs)
    ensures |r| == |xs|
    ensures Descending(r, key)
  {
    InsertionSortedPermutes(xs, key);
    InsertionSortedDescends(xs, key);
    InsertionSorted(xs, key)
  }

  lemma {:induction false} WithKeyAppend<T>(a: seq<T>, b: seq<T>, key: T -> real, v: real)
    ensures WithKey(a + b, key, v) == WithKey(a, key, v) + WithKey(b, key, v)
  {
    if a == [] {
      assert a + b == b;
    } else {
      var ab := a + b;
      assert ab[0] == a[0];
      assert ab[1..] == a[1..] + b;
      WithKeyAppend(a[1..], b, key, v);
      assert WithKey(ab, key, v) == (if key(a[0]) == v then [a[0]] else []) + WithKey(a[1..] + b, key, v);
    }
  }

  lemma {:induction false} InsertWithKey<T>(x: T, ys: seq<T>, key: T -> real, v: real)
    ensures WithKey(Insert(x, ys, key), key, v) == WithKey([x], key, v) + WithKey(ys, key, v)
  {
    WithKeyAppend([x], ys, key, v);
    if ys == [] || key(ys[0]) <= key(x) {
    } else {
      // ys[0] is strictly above x, so at most one of the two has key v.
      var r := Insert(x, ys, key);
      assert r == [ys[0]] + Insert(x, ys[1..], key);
      WithKeyAppend([ys[0]], Insert(x, ys[1..], key), key, v);
      InsertWithKey(x, ys[1..], key, v);
      WithKeyAppend([x], ys[1..], key, v);
      WithKeyAppend([ys[0]], ys[1..], key, v);
      assert [ys[0]] + ys[1..] == ys;
    }
  }

  /** The sort is stable: rows that tie keep their relative order. */
  lemma SortDescendingStable<T>(xs: seq<T>, key: T -> real, v: real)
    ensures WithKey(SortDescending(xs, key), key, v) == WithKey(xs, key, v)
  {
    InsertionSortedStable(xs, key, v);
  }

  lemma {:induction false} InsertionSortedStable<T>(xs: seq<T>, key: T -> real, v: real)
    ensures WithKey(InsertionSorted(xs, key), key, v) == WithKey(xs, key, v)
  {
    if xs != [] {
      InsertionSortedStable(xs[1..], key, v);
      InsertWithKey(xs[0], InsertionSorted(xs[1..], key), key, v);
      WithKeyAppend([xs[0]], xs[1..], key, v);
      assert [xs[0]] + xs[1..] == xs;
    }
  }

  /** `rows[:n]`, the first `n` rows, or all of them when there are fewer. */
  function Take<T>(xs: seq<T>, n: nat): (r: seq<T>)
    ensures |r| == if n < |xs| then n else |xs|
    ensures forall i :: 0 <= i < |r| ==> r[i] == xs[i]
  {
    if n < |xs| then xs[..n] else xs
  }
}
