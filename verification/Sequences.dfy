/** Sequence operations the board's updaters are built from: JavaScript's
    `filter`, `map` and `splice`, and the `arrayMove` helper of the
    drag-and-drop library, all over immutable sequences. */
module Sequences {

  /** `s.filter(p)`: the elements that satisfy `p`, in their original order. */
  function Filter<T(!new)>(p: T -> bool, s: seq<T>): (r: seq<T>)
    ensures |r| <= |s|
    ensures forall x :: x in r <==> x in s && p(x)
  {
    if s == [] then []
    else
      assert s == [s[0]] + s[1..];
      (if p(s[0]) then [s[0]] else []) + Filter(p, s[1..])
  }

  /** Filtering distributes over concatenation: the survivors keep their
      relative order. */
  lemma {:induction false} FilterAppend<T(!new)>(p: T -> bool, a: seq<T>, b: seq<T>)
    ensures Filter(p, a + b) == Filter(p, a) + Filter(p, b)
  {
    if a == [] {
      assert a + b == b;
    } else {
      assert (a + b)[1..] == a[1..] + b;
      FilterAppend(p, a[1..], b);
    }
  }

  /** A filter that every element passes is the identity. */
  lemma {:induction false} FilterKeepsAll<T(!new)>(p: T -> bool, s: seq<T>)
    requires forall x :: x in s ==> p(x)
    ensures Filter(p, s) == s
  {
    if s != [] {
      assert s == [s[0]] + s[1..];
      FilterKeepsAll(p, s[1..]);
    }
  }

  /** A filter and the filter by the complementary predicate split the
      sequence between them. */
  lemma {:induction false} FilterSplitsLength<T(!new)>(p: T -> bool, q: T -> bool, s: seq<T>)
    requires forall x :: q(x) == !p(x)
    ensures |Filter(p, s)| + |Filter(q, s)| == |s|
  {
    if s != [] {
      FilterSplitsLength(p, q, s[1..]);
    }
  }

  /** An element the filter accepts survives as often as it occurs. */
  lemma {:induction false} FilterCountsAll<T(!new)>(p: T -> bool, s: seq<T>, x: T)
    requires p(x)
    ensures multiset(Filter(p, s))[x] == multiset(s)[x]
  {
    if s != [] {
      assert s == [s[0]] + s[1..];
      FilterCountsAll(p, s[1..], x);
    }
  }

  /** A filter that rejects exactly one position removes that position. */
  lemma FilterDropsOnly<T(!new)>(p: T -> bool, s: seq<T>, i: nat)
    requires i < |s| && !p(s[i])
    requires forall j :: 0 <= j < |s| && j != i ==> p(s[j])
    ensures Filter(p, s) == RemoveAt(s, i)
  {
    var before, after := s[..i], s[i + 1..];
    assert s == (before + [s[i]]) + after;
    calc {
      Filter(p, s);
    == { FilterAppend(p, before + [s[i]], after); }
      Filter(p, before + [s[i]]) + Filter(p, after);
    == { FilterAppend(p, before, [s[i]]); }
      Filter(p, before) + Filter(p, [s[i]]) + Filter(p, after);
    == { assert forall x :: x in before ==> p(x);
         FilterKeepsAll(p, before);
         assert forall x :: x in after ==> p(x);
         FilterKeepsAll(p, after); }
      before + Filter(p, [s[i]]) + after;
    == { assert Filter(p, [s[i]]) == []; }
      before + after;
    }
  }

  /** `s.map(f)`. */
  function Map<T, U>(f: T -> U, s: seq<T>): (r: seq<U>)
    ensures |r| == |s|
    ensures forall i :: 0 <= i < |s| ==> r[i] == f(s[i])
  {
    seq(|s|, i requires 0 <= i < |s| => f(s[i]))
  }

  /** A sequence is its prefix, the element at `i` and its suffix; removing
      `i` leaves the prefix and the suffix. */
  lemma SplitAround<T>(s: seq<T>, i: nat)
    requires i < |s|
    ensures s == s[..i] + [s[i]] + s[i + 1..]
    ensures RemoveAt(s, i)[..i] == s[..i] && RemoveAt(s, i)[i..] == s[i + 1..]
  {
  }

  /** Removing a position commutes with a map. */
  lemma MapRemoveAt<T, U>(f: T -> U, s: seq<T>, i: nat)
    requires i < |s|
    ensures Map(f, RemoveAt(s, i)) == RemoveAt(Map(f, s), i)
  {
  }

  /** `s.splice(i, 1)`: the sequence without its element at `i`. */
  function RemoveAt<T>(s: seq<T>, i: nat): (r: seq<T>)
    requires i < |s|
    ensures |r| == |s| - 1
    ensures forall j :: 0 <= j < i ==> r[j] == s[j]
    ensures forall j :: i <= j < |r| ==> r[j] == s[j + 1]
  {
    s[..i] + s[i + 1..]
  }

  /** Where `splice(at, 0, x)` puts `x` in a sequence of length `len`: an
      index past the end is clamped to the end. */
  function Clamp(at: nat, len: nat): (k: nat)
    ensures k <= len
    ensures k == at || (at > len && k == len)
  {
    if at <= len then at else len
  }

  /** `s.splice(at, 0, x)` on a copy of `s`. */
  function InsertAt<T>(s: seq<T>, at: nat, x: T): (r: seq<T>)
    ensures |r| == |s| + 1
    ensures r[Clamp(at, |s|)] == x
    ensures RemoveAt(r, Clamp(at, |s|)) == s
    ensures multiset(r) == multiset(s) + multiset{x}
  {
    var k := Clamp(at, |s|);
    assert s == s[..k] + s[k..];
    s[..k] + [x] + s[k..]
  }

  /** The drag-and-drop library's `arrayMove(s, from, to)`: take the element
      at `from` out, then insert it at `to` in the shortened copy. */
  function ArrayMove<T>(s: seq<T>, from: nat, to: nat): (r: seq<T>)
    requires from < |s|
    ensures |r| == |s|
    ensures r[Clamp(to, |s| - 1)] == s[from]
    ensures RemoveAt(r, Clamp(to, |s| - 1)) == RemoveAt(s, from)
    ensures multiset(r) == multiset(s)
  {
    assert s == s[..from] + [s[from]] + s[from + 1..];
    InsertAt(RemoveAt(s, from), to, s[from])
  }

  /** Moving an element onto its own index changes nothing. */
  lemma ArrayMoveToSameIndex<T>(s: seq<T>, i: nat)
    requires i < |s|
    ensures ArrayMove(s, i, i) == s
  {
    var r := ArrayMove(s, i, i);
    assert Clamp(i, |s| - 1) == i;
    forall j | 0 <= j < |s|
      ensures r[j] == s[j]
    {
      if j < i {
        assert r[j] == RemoveAt(r, i)[j] == RemoveAt(s, i)[j];
      } else if j > i {
        assert r[j] == RemoveAt(r, i)[j - 1] == RemoveAt(s, i)[j - 1];
      }
    }
  }

  /** Mapping a field-wise function commutes with a move. */
  lemma ArrayMoveMap<T, U>(f: T -> U, s: seq<T>, from: nat, to: nat)
    requires from < |s|
    ensures Map(f, ArrayMove(s, from, to)) == ArrayMove(Map(f, s), from, to)
  {
    var k := Clamp(to, |s| - 1);
    var a := Map(f, ArrayMove(s, from, to));
    var b := ArrayMove(Map(f, s), from, to);
    assert |a| == |b|;
    forall j | 0 <= j < |a|
      ensures a[j] == b[j]
    {
      if j < k {
        assert ArrayMove(s, from, to)[j] == RemoveAt(ArrayMove(s, from, to), k)[j];
        assert b[j] == RemoveAt(b, k)[j];
      } else if j > k {
        assert ArrayMove(s, from, to)[j] == RemoveAt(ArrayMove(s, from, to), k)[j - 1];
        assert b[j] == RemoveAt(b, k)[j - 1];
      }
    }
  }
}
