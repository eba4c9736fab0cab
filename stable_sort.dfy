/**
 * The stable sort by a real-valued key that orders the attraction catalog by
 * distance, and the "first n" cut that follows it. A stable sort is
 * characterised by three facts: the output is a permutation of the input, it
 * is ordered by the key, and elements with equal keys keep their input order
 * (for every key value, the elements with that key form the same subsequence
 * before and after).
 */
module StableSort {

  predicate SortedBy<T>(s: seq<T>, key: T -> real)
  {
    forall i, j :: 0 <= i < j < |s| ==> key(s[i]) <= key(s[j])
  }

  /** The subsequence of the elements whose key is `k`. */
  function WithKey<T>(s: seq<T>, key: T -> real, k: real): seq<T>
  {
    if s == [] then []
    else (if key(s[0]) == k then [s[0]] else []) + WithKey(s[1..], key, k)
  }

  /** Inserts `x` in front of the first element whose key is not smaller. */
  function Insert<T>(x: T, sorted: seq<T>, key: T -> real): (r: seq<T>)
    ensures multiset(r) == multiset(sorted) + multiset{x}
    ensures SortedBy(sorted, key) ==> SortedBy(r, key)
    ensures r[0] == x || (sorted != [] && r[0] == sorted[0])
  {
    if sorted == [] || key(x) <= key(sorted[0]) then [x] + sorted
    else
      var rest := Insert(x, sorted[1..], key);
      assert sorted == [sorted[0]] + sorted[1..];
      assert SortedBy(sorted, key) ==> key(sorted[0]) <= key(rest[0]);
      [sorted[0]] + rest
  }

  /** Insertion sort; it is stable because every element goes in front of its ties. */
  function SortBy<T>(s: seq<T>, key: T -> real): (r: seq<T>)
    ensures multiset(r) == multiset(s)
    ensures SortedBy(r, key)
  {
    if s == [] then []
    else
      assert s == [s[0]] + s[1..];
      Insert(s[0], SortBy(s[1..], key), key)
  }

  /** The `n` elements with the smallest keys, in key order. */
  function Smallest<T>(s: seq<T>, key: T -> real, n: nat): seq<T>
  {
    var sorted := SortBy(s, key);
    sorted[..if n < |sorted| then n else |sorted|]
  }

  lemma {:induction false} WithKeyAppend<T>(a: seq<T>, b: seq<T>, key: T -> real, k: real)
    ensures WithKey(a + b, key, k) == WithKey(a, key, k) + WithKey(b, key, k)
    decreases |a|
  {
    if a != [] {
      assert (a + b)[0] == a[0];
      assert (a + b)[1..] == a[1..] + b;
      WithKeyAppend(a[1..], b, key, k);
    } else {
      assert a + b == b;
    }
  }

  lemma {:induction false} InsertStable<T>(x: T, sorted: seq<T>, key: T -> real, k: real)
    requires SortedBy(sorted, key)
    ensures WithKey(Insert(x, sorted, key), key, k) == WithKey([x] + sorted, key, k)
    decreases |sorted|
  {
    if sorted != [] && !(key(x) <= key(sorted[0])) {
      var tail := sorted[1..];
      InsertStable(x, tail, key, k);
      var ins := Insert(x, tail, key);
      assert ([sorted[0]] + ins)[1..] == ins;
      assert ([x] + tail)[1..] == tail;
      assert ([x] + sorted)[1..] == sorted;
      assert sorted[1..] == tail;
    }
  }

  /** Stability: for every key value, equal-key elements keep their input order. */
  lemma {:induction false} SortByStable<T>(s: seq<T>, key: T -> real, k: real)
    ensures WithKey(SortBy(s, key), key, k) == WithKey(s, key, k)
    decreases |s|
  {
    if s != [] {
      SortByStable(s[1..], key, k);
      var rest := SortBy(s[1..], key);
      InsertStable(s[0], rest, key, k);
      assert ([s[0]] + rest)[1..] == rest;
    }
  }

  lemma SortedByLength<T>(s: seq<T>, key: T -> real)
    ensures |SortBy(s, key)| == |s|
  {
    assert |multiset(SortBy(s, key))| == |multiset(s)|;
  }

  /** The cut keeps `min(n, |s|)` elements of `s`, in key order. */
  lemma SmallestShape<T>(s: seq<T>, key: T -> real, n: nat)
    ensures var r := Smallest(s, key, n);
      && |r| == (if n < |s| then n else |s|)
      && SortedBy(r, key)
      && multiset(r) <= multiset(s)
  {
    var sorted := SortBy(s, key);
    SortedByLength(s, key);
    var m := if n < |sorted| then n else |sorted|;
    assert sorted == sorted[..m] + sorted[m..];
    assert multiset(sorted) == multiset(sorted[..m]) + multiset(sorted[m..]);
  }

  /** No element left out of the cut has a smaller key than one kept. */
  lemma SmallestAreNearest<T>(s: seq<T>, key: T -> real, n: nat)
    ensures var r := Smallest(s, key, n);
      forall x, y :: x in r && y in multiset(s) - multiset(r) ==> key(x) <= key(y)
  {
    var sorted := SortBy(s, key);
    var m := if n < |sorted| then n else |sorted|;
    var r, rest := sorted[..m], sorted[m..];
    assert sorted == r + rest;
    assert multiset(sorted) == multiset(r) + multiset(rest);
    forall x, y | x in r && y in multiset(s) - multiset(r)
      ensures key(x) <= key(y)
    {
      assert y in multiset(rest);
      assert y in rest;
      var i :| 0 <= i < m && r[i] == x;
      var j :| 0 <= j < |rest| && rest[j] == y;
      assert sorted[i] == x && sorted[m + j] == y;
    }
  }

  /** Among equal keys the kept elements are the earliest of the input. */
  lemma SmallestKeepsInputOrder<T>(s: seq<T>, key: T -> real, n: nat, k: real)
    ensures WithKey(Smallest(s, key, n), key, k) <= WithKey(s, key, k)
  {
    var sorted := SortBy(s, key);
    var m := if n < |sorted| then n else |sorted|;
    assert sorted == sorted[..m] + sorted[m..];
    WithKeyAppend(sorted[..m], sorted[m..], key, k);
    SortByStable(s, key, k);
  }
}
