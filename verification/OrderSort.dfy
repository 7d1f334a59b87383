/** The board's display sort, `xs.sort((a, b) => key(a) - key(b))`:
    JavaScript's `Array.prototype.sort` is stable, so it is modelled by a
    stable insertion sort. `SortBy` is the value a sort produces;
    `SortInPlace` is the same sort run on an array, as the views run it on
    the state's own arrays. */
module OrderSort {

  ghost predicate SortedBy<T>(s: seq<T>, key: T -> int) {
    forall i, j :: 0 <= i < j < |s| ==> key(s[i]) <= key(s[j])
  }

  /** The elements of `s` whose key is `k`, in their order in `s`. */
  function WithKey<T>(s: seq<T>, key: T -> int, k: int): seq<T> {
    if s == [] then []
    else WithKey(s[..|s| - 1], key, k) + (if key(s[|s| - 1]) == k then [s[|s| - 1]] else [])
  }

  /** Puts `x` after every element whose key is at most its own, scanning
      from the end. */
  function InsertByKey<T>(s: seq<T>, x: T, key: T -> int): (r: seq<T>)
    ensures |r| == |s| + 1
    decreases |s|
  {
    if s == [] then [x]
    else if key(s[|s| - 1]) <= key(x) then s + [x]
    else
      assert s == s[..|s| - 1] + [s[|s| - 1]];
      InsertByKey(s[..|s| - 1], x, key) + [s[|s| - 1]]
  }

  /** Inserting adds exactly `x`. */
  lemma {:induction false} InsertByKeyPermutes<T>(s: seq<T>, x: T, key: T -> int)
    ensures multiset(InsertByKey(s, x, key)) == multiset(s) + multiset{x}
    decreases |s|
  {
    if s != [] && key(s[|s| - 1]) > key(x) {
      var init, last := s[..|s| - 1], s[|s| - 1];
      assert s == init + [last];
      InsertByKeyPermutes(init, x, key);
    }
  }

  /** Inserting keeps every key under a bound that all inputs respect. */
  lemma {:induction false} InsertByKeyBounded<T>(s: seq<T>, x: T, key: T -> int, bound: int)
    requires forall m :: 0 <= m < |s| ==> key(s[m]) <= bound
    requires key(x) <= bound
    ensures forall m :: 0 <= m < |s| + 1 ==> key(InsertByKey(s, x, key)[m]) <= bound
    decreases |s|
  {
    if s != [] && key(s[|s| - 1]) > key(x) {
      InsertByKeyBounded(s[..|s| - 1], x, key, bound);
    }
  }

  /** Inserting into a sorted sequence keeps it sorted. */
  lemma {:induction false} InsertByKeySorted<T>(s: seq<T>, x: T, key: T -> int)
    requires SortedBy(s, key)
    ensures SortedBy(InsertByKey(s, x, key), key)
    decreases |s|
  {
    if s != [] && key(s[|s| - 1]) > key(x) {
      var init, last := s[..|s| - 1], s[|s| - 1];
      var ins := InsertByKey(init, x, key);
      assert SortedBy(init, key);
      InsertByKeySorted(init, x, key);
      InsertByKeyBounded(init, x, key, key(last));
      var r := ins + [last];
      forall i, j | 0 <= i < j < |r|
        ensures key(r[i]) <= key(r[j])
      {
        if j == |r| - 1 {
          assert r[i] == ins[i];
        }
      }
    }
  }

  /** The stable sort by `key`. */
  function SortBy<T>(s: seq<T>, key: T -> int): (r: seq<T>)
    ensures |r| == |s|
    ensures SortedBy(r, key)
    ensures multiset(r) == multiset(s)
  {
    if s == [] then []
    else
      assert s == s[..|s| - 1] + [s[|s| - 1]];
      var sorted := SortBy(s[..|s| - 1], key);
      InsertByKeySorted(sorted, s[|s| - 1], key);
      InsertByKeyPermutes(sorted, s[|s| - 1], key);
      InsertByKey(sorted, s[|s| - 1], key)
  }

  lemma {:induction false} WithKeyAppend<T>(a: seq<T>, b: seq<T>, key: T -> int, k: int)
    ensures WithKey(a + b, key, k) == WithKey(a, key, k) + WithKey(b, key, k)
    decreases |b|
  {
    if b == [] {
      assert a + b == a;
    } else {
      var b', y := b[..|b| - 1], b[|b| - 1];
      assert (a + b)[..|a + b| - 1] == a + b';
      WithKeyAppend(a, b', key, k);
    }
  }

  /** Inserting `x` adds it after every element with the same key. */
  lemma {:induction false} InsertByKeyStable<T>(s: seq<T>, x: T, key: T -> int, k: int)
    ensures WithKey(InsertByKey(s, x, key), key, k)
         == WithKey(s, key, k) + (if key(x) == k then [x] else [])
    decreases |s|
  {
    if s == [] {
    } else if key(s[|s| - 1]) <= key(x) {
      assert (s + [x])[..|s|] == s;
    } else {
      var init, last := s[..|s| - 1], s[|s| - 1];
      var r := InsertByKey(init, x, key) + [last];
      assert r[..|r| - 1] == InsertByKey(init, x, key);
      InsertByKeyStable(init, x, key, k);
    }
  }

  /** Stability: among elements with equal keys, the sort keeps the input
      order. Together with `SortedBy` this pins the result down uniquely. */
  lemma {:induction false} SortByStable<T>(s: seq<T>, key: T -> int, k: int)
    ensures WithKey(SortBy(s, key), key, k) == WithKey(s, key, k)
    decreases |s|
  {
    if s != [] {
      var init, last := s[..|s| - 1], s[|s| - 1];
      SortByStable(init, key, k);
      InsertByKeyStable(SortBy(init, key), last, key, k);
    }
  }

  /** A sequence already in key order is left as it is. */
  lemma {:induction false} SortByOfSorted<T>(s: seq<T>, key: T -> int)
    requires SortedBy(s, key)
    ensures SortBy(s, key) == s
    decreases |s|
  {
    if s != [] {
      var init, last := s[..|s| - 1], s[|s| - 1];
      assert SortedBy(init, key);
      SortByOfSorted(init, key);
      if |init| > 0 {
        assert key(init[|init| - 1]) <= key(last);
      }
      assert init + [last] == s;
    }
  }

  /** `InsertByKey` as a splice: `x` lands at `j` when everything from `j`
      on has a larger key and the element before `j`, if any, does not. */
  lemma {:induction false} InsertByKeyAt<T>(s: seq<T>, x: T, key: T -> int, j: nat)
    requires j <= |s|
    requires forall m :: j <= m < |s| ==> key(s[m]) > key(x)
    requires j == 0 || key(s[j - 1]) <= key(x)
    ensures InsertByKey(s, x, key) == s[..j] + [x] + s[j..]
    decreases |s|
  {
    if |s| == j {
      assert s[..j] == s && s[j..] == [];
    } else {
      var init, last := s[..|s| - 1], s[|s| - 1];
      assert InsertByKey(s, x, key) == InsertByKey(init, x, key) + [last] by {
        assert key(last) > key(x);
      }
      assert InsertByKey(init, x, key) == init[..j] + [x] + init[j..] by {
        assert j == 0 || key(init[j - 1]) <= key(x) by {
          assert j == 0 || init[j - 1] == s[j - 1];
        }
        InsertByKeyAt(init, x, key, j);
      }
      assert init[..j] == s[..j];
      assert init[j..] + [last] == s[j..];
    }
  }

  /** The sort of a prefix one longer inserts the next element into the
      sort of the shorter prefix. */
  lemma SortByStep<T>(s: seq<T>, i: nat, key: T -> int)
    requires i < |s|
    ensures SortBy(s[..i + 1], key) == InsertByKey(SortBy(s[..i], key), s[i], key)
  {
    assert s[..i + 1][..i] == s[..i];
  }

  /** One step of insertion sort: `a[..i]` is sorted and `a[i]` is moved
      left past every larger key. */
  method InsertLast<T>(a: array<T>, i: nat, key: T -> int)
    requires i < a.Length
    modifies a
    ensures a[..i + 1] == InsertByKey(old(a[..i]), old(a[i]), key)
    ensures forall m :: i < m < a.Length ==> a[m] == old(a[m])
  {
    ghost var sorted := a[..i];
    var x := a[i];
    var j := i;
    while j > 0 && key(a[j - 1]) > key(x)
      invariant 0 <= j <= i
      invariant forall m :: 0 <= m < j ==> a[m] == sorted[m]
      invariant forall m :: j < m <= i ==> a[m] == sorted[m - 1]
      invariant forall m :: i < m < a.Length ==> a[m] == old(a[m])
      invariant forall m :: j <= m < i ==> key(sorted[m]) > key(x)
    {
      a[j] := a[j - 1];
      j := j - 1;
    }
    a[j] := x;
    InsertByKeyAt(sorted, x, key, j);
    assert a[..i + 1] == sorted[..j] + [x] + sorted[j..] by {
      forall m | 0 <= m < i + 1
        ensures a[m] == (sorted[..j] + [x] + sorted[j..])[m]
      {
      }
    }
  }

  /** Insertion sort on an array: the array ends up holding `SortBy` of
      its old contents. */
  method SortInPlace<T>(a: array<T>, key: T -> int)
    modifies a
    ensures a[..] == SortBy(old(a[..]), key)
  {
    ghost var initial := a[..];
    var i := 0;
    while i < a.Length
      invariant 0 <= i <= a.Length
      invariant a[..i] == SortBy(initial[..i], key)
      invariant forall m :: i <= m < a.Length ==> a[m] == initial[m]
    {
      InsertLast(a, i, key);
      SortByStep(initial, i, key);
      i := i + 1;
    }
    assert a[..] == a[..a.Length] && initial[..a.Length] == initial;
  }
}
