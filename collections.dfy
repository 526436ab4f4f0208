/** Sequence helpers for the counting and de-duplicating loops of the source. */
module Collections {

  /** How many times `x` occurs in `xs` (`xs.count(x)`). */
  function Count<T(==)>(xs: seq<T>, x: T): nat
    ensures Count(xs, x) <= |xs|
    ensures x !in xs ==> Count(xs, x) == 0
    decreases |xs|
  {
    if xs == [] then 0 else Count(xs[..|xs| - 1], x) + (if xs[|xs| - 1] == x then 1 else 0)
  }

  predicate Distinct<T(==)>(xs: seq<T>) {
    forall i, j :: 0 <= i < j < |xs| ==> xs[i] != xs[j]
  }

  /** The elements of `xs` in order of first appearance, each once
      (`list(dict.fromkeys(xs))`). */
  function Dedupe<T(==,!new)>(xs: seq<T>): (r: seq<T>)
    ensures forall x :: x in r <==> x in xs
    ensures Distinct(r)
    ensures |r| <= |xs|
    decreases |xs|
  {
    if xs == [] then []
    else
      var d := Dedupe(xs[..|xs| - 1]);
      assert xs == xs[..|xs| - 1] + [xs[|xs| - 1]];
      if xs[|xs| - 1] in d then d else d + [xs[|xs| - 1]]
  }

  /** `xs[:n]` for a non-negative `n`. */
  function Take<T>(xs: seq<T>, n: nat): (r: seq<T>)
    ensures |r| == if n < |xs| then n else |xs|
    ensures r == xs[..|r|]
  {
    if n < |xs| then xs[..n] else xs
  }

  /** A list without repetitions holds each value at most once. */
  lemma {:induction false} DistinctMultiplicity<T>(xs: seq<T>, x: T)
    requires Distinct(xs)
    ensures multiset(xs)[x] <= 1
    decreases |xs|
  {
    if xs != [] {
      var init := xs[..|xs| - 1];
      assert xs == init + [xs[|xs| - 1]];
      assert Distinct(init);
      DistinctMultiplicity(init, x);
      if xs[|xs| - 1] == x {
        assert x !in init;
      }
    }
  }

  /** A reordering of a list without repetitions has none either. */
  lemma PermutationKeepsDistinct<T>(a: seq<T>, b: seq<T>)
    requires multiset(a) == multiset(b) && Distinct(a)
    ensures Distinct(b)
  {
    forall i, j | 0 <= i < j < |b|
      ensures b[i] != b[j]
    {
      if b[i] == b[j] {
        assert b == b[..j] + b[j..];
        assert b[i] in b[..j] && b[j] in b[j..];
        assert multiset(b)[b[i]] == multiset(b[..j])[b[i]] + multiset(b[j..])[b[i]];
        DistinctMultiplicity(a, b[i]);
        assert false;
      }
    }
  }

  lemma CountSnoc<T>(xs: seq<T>, x: T, y: T)
    ensures Count(xs + [x], y) == Count(xs, y) + (if x == y then 1 else 0)
  {
    assert (xs + [x])[..|xs|] == xs;
  }

  /** Appending a value that occurs already leaves the de-duplicated list
      alone; a new value goes to its end. */
  lemma DedupeSnoc<T(!new)>(xs: seq<T>, x: T)
    ensures Dedupe(xs + [x]) == if x in xs then Dedupe(xs) else Dedupe(xs) + [x]
  {
    assert (xs + [x])[..|xs|] == xs;
    var d := Dedupe(xs);
    if x in d {
      var i :| 0 <= i < |d| && d[i] == x;
    }
    if x in xs {
      var i :| 0 <= i < |xs| && xs[i] == x;
    }
  }

  lemma PrefixSnoc<T>(xs: seq<T>, j: nat)
    requires j < |xs|
    ensures xs[..j + 1] == xs[..j] + [xs[j]]
  {
  }

  lemma PrefixCons<T>(xs: seq<T>, k: nat)
    requires 0 < k <= |xs|
    ensures xs[..k] == [xs[0]] + xs[1..][..k - 1]
  {
  }

  lemma SplitConcat<T>(a: seq<T>, b: seq<T>)
    ensures (a + b)[..|a|] == a && (a + b)[|a|..] == b
  {
  }

  /** The slices of `a + (m + y)` at the seams. */
  lemma SplitThree<T>(a: seq<T>, m: seq<T>, y: seq<T>)
    ensures (a + (m + y))[|a|..] == m + y
    ensures (a + (m + y))[|a| + |m|..] == y
    ensures (m + y)[..|m|] == m
  {
  }

  lemma Regroup<T>(a: seq<T>, b: seq<T>, c: seq<T>, d: seq<T>, e: seq<T>)
    ensures a + b + c + d + e == a + (b + (c + (d + e)))
  {
  }

  lemma AppendAssoc<T>(a: seq<T>, b: seq<T>, c: seq<T>)
    ensures a + (b + c) == a + b + c
  {
  }

  /** The first value of a non-empty list is the first one kept. */
  /** A list without repeats is its own de-duplication. */
  lemma {:induction false} DedupeDistinct<T(!new)>(xs: seq<T>)
    requires Distinct(xs)
    ensures Dedupe(xs) == xs
    decreases |xs|
  {
    if xs != [] {
      var init := xs[..|xs| - 1];
      assert Distinct(init);
      DedupeDistinct(init);
      assert xs == init + [xs[|xs| - 1]];
      assert xs[|xs| - 1] !in init;
    }
  }

  lemma {:induction false} DedupeHead<T(!new)>(xs: seq<T>)
    requires xs != []
    ensures Dedupe(xs) != [] && Dedupe(xs)[0] == xs[0]
    decreases |xs|
  {
    if |xs| > 1 {
      var p := xs[..|xs| - 1];
      DedupeHead(p);
      assert p[0] == xs[0];
    }
  }

  /** Replaces every element of `a` by its image under `f`, in place and
      in index order. */
  method UpdateEach<T>(a: array<T>, f: T -> T)
    modifies a
    ensures forall j :: 0 <= j < a.Length ==> a[j] == f(old(a[j]))
  {
    for i := 0 to a.Length
      invariant forall j :: 0 <= j < i ==> a[j] == f(old(a[j]))
      invariant forall j :: i <= j < a.Length ==> a[j] == old(a[j])
    {
      a[i] := f(a[i]);
    }
  }
}
