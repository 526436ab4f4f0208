/** Python's `sorted(xs, key=k, reverse=True)`: a stable sort into
    descending key order. The key order is given as `le(a, b)`, "the key
    of a is at most the key of b". */
module Sorting {

  ghost predicate TotalPreorder<T(!new)>(le: (T, T) -> bool) {
    (forall a, b :: le(a, b) || le(b, a)) &&
    (forall a, b, c :: le(a, b) && le(b, c) ==> le(a, c))
  }

  predicate SortedDesc<T>(xs: seq<T>, le: (T, T) -> bool) {
    forall i, j :: 0 <= i < j < |xs| ==> le(xs[j], xs[i])
  }

  /** Puts `x` before the first element whose key is not larger, so that
      `x` stays ahead of later elements with an equal key. */
  function Insert<T(==)>(x: T, ys: seq<T>, le: (T, T) -> bool): (r: seq<T>)
    ensures multiset(r) == multiset(ys) + multiset{x}
    ensures |r| == |ys| + 1
    decreases |ys|
  {
    if ys == [] || le(ys[0], x) then [x] + ys
    else
      assert ys == [ys[0]] + ys[1..];
      [ys[0]] + Insert(x, ys[1..], le)
  }

  function SortDesc<T(==)>(xs: seq<T>, le: (T, T) -> bool): (r: seq<T>)
    ensures multiset(r) == multiset(xs)
    ensures |r| == |xs|
    decreases |xs|
  {
    if xs == [] then []
    else
      assert xs == [xs[0]] + xs[1..];
      Insert(xs[0], SortDesc(xs[1..], le), le)
  }

  /** Every element of `xs` has a key at most that of `b`. */
  predicate AllAtMost<T>(xs: seq<T>, b: T, le: (T, T) -> bool) {
    forall k :: 0 <= k < |xs| ==> le(xs[k], b)
  }

  /** Inserting an element whose key is at most `b` keeps the bound. */
  lemma InsertKeepsBound<T(!new)>(x: T, ys: seq<T>, le: (T, T) -> bool, b: T)
    requires le(x, b) && AllAtMost(ys, b, le)
    ensures AllAtMost(Insert(x, ys, le), b, le)
  {
    var r := Insert(x, ys, le);
    forall k | 0 <= k < |r|
      ensures le(r[k], b)
    {
      assert r[k] in multiset(r);
      if r[k] != x {
        assert r[k] in multiset(ys);
        var j :| 0 <= j < |ys| && ys[j] == r[k];
      }
    }
  }

  lemma {:induction false} InsertSorted<T(!new)>(x: T, ys: seq<T>, le: (T, T) -> bool)
    requires TotalPreorder(le) && SortedDesc(ys, le)
    ensures SortedDesc(Insert(x, ys, le), le)
    decreases |ys|
  {
    if ys != [] && !le(ys[0], x) {
      var rest := Insert(x, ys[1..], le);
      InsertSorted(x, ys[1..], le);
      assert le(x, ys[0]);
      assert AllAtMost(ys[1..], ys[0], le) by {
        forall k | 0 <= k < |ys[1..]|
          ensures le(ys[1..][k], ys[0])
        {
          assert ys[1..][k] == ys[k + 1];
        }
      }
      InsertKeepsBound(x, ys[1..], le, ys[0]);
      var r := [ys[0]] + rest;
      forall i, j | 0 <= i < j < |r|
        ensures le(r[j], r[i])
      {
        assert r[j] == rest[j - 1];
        if i > 0 {
          assert r[i] == rest[i - 1];
        }
      }
    }
  }

  lemma {:induction false} SortDescSorted<T(!new)>(xs: seq<T>, le: (T, T) -> bool)
    requires TotalPreorder(le)
    ensures SortedDesc(SortDesc(xs, le), le)
    decreases |xs|
  {
    if xs != [] {
      SortDescSorted(xs[1..], le);
      InsertSorted(xs[0], SortDesc(xs[1..], le), le);
    }
  }

  /** Stability at the head: the first element of the result is the first
      element of the input that carries the largest key. */
  lemma {:induction false} SortDescHead<T(!new)>(xs: seq<T>, le: (T, T) -> bool, i: nat)
    requires TotalPreorder(le)
    requires i < |xs|
    requires forall j :: 0 <= j < |xs| ==> le(xs[j], xs[i])
    requires forall j :: 0 <= j < i ==> !le(xs[i], xs[j])
    ensures SortDesc(xs, le)[0] == xs[i]
    decreases |xs|
  {
    var s := SortDesc(xs[1..], le);
    if i == 0 {
      if s != [] {
        assert s[0] in multiset(xs[1..]);
        var k :| 0 <= k < |xs[1..]| && xs[1..][k] == s[0];
        assert le(xs[k + 1], xs[0]);
      }
    } else {
      SortDescHead(xs[1..], le, i - 1);
      assert s[0] == xs[i];
      assert !le(xs[i], xs[0]);
    }
  }

  /** `le` both ways: the two keys are equal. */
  predicate SameKey<T>(a: T, b: T, le: (T, T) -> bool) {
    le(a, b) && le(b, a)
  }

  /** The elements of `xs` whose key equals that of `x`, in order. */
  function WithKeyOf<T>(xs: seq<T>, x: T, le: (T, T) -> bool): seq<T>
    decreases |xs|
  {
    if xs == [] then [] else (if SameKey(xs[0], x, le) then [xs[0]] else []) + WithKeyOf(xs[1..], x, le)
  }

  lemma {:induction false} WithKeyOfConcat<T>(a: seq<T>, b: seq<T>, x: T, le: (T, T) -> bool)
    ensures WithKeyOf(a + b, x, le) == WithKeyOf(a, x, le) + WithKeyOf(b, x, le)
    decreases |a|
  {
    if a == [] {
      assert a + b == b;
    } else {
      WithKeyOfConcat(a[1..], b, x, le);
      var h := if SameKey(a[0], x, le) then [a[0]] else [];
      assert (a + b)[0] == a[0] && (a + b)[1..] == a[1..] + b;
      calc {
        WithKeyOf(a + b, x, le);
        h + WithKeyOf(a[1..] + b, x, le);
        h + (WithKeyOf(a[1..], x, le) + WithKeyOf(b, x, le));
        (h + WithKeyOf(a[1..], x, le)) + WithKeyOf(b, x, le);
      }
    }
  }

  /** Insertion passes over elements with a strictly larger key only, so
      it never overtakes an element with the key of the one inserted. */
  lemma {:induction false} InsertStable<T(!new)>(y: T, ys: seq<T>, x: T, le: (T, T) -> bool)
    requires TotalPreorder(le)
    ensures WithKeyOf(Insert(y, ys, le), x, le) == WithKeyOf([y] + ys, x, le)
    decreases |ys|
  {
    if ys != [] && !le(ys[0], y) {
      InsertStable(y, ys[1..], x, le);
      var r := [ys[0]] + Insert(y, ys[1..], le);
      assert r[0] == ys[0] && r[1..] == Insert(y, ys[1..], le);
      assert ([y] + ys[1..])[0] == y && ([y] + ys[1..])[1..] == ys[1..];
      assert ([y] + ys)[0] == y && ([y] + ys)[1..] == ys;
      if SameKey(y, x, le) {
        assert !SameKey(ys[0], x, le);
      }
    }
  }

  /** Stability: elements with equal keys keep their input order. */
  lemma {:induction false} SortDescStable<T(!new)>(xs: seq<T>, x: T, le: (T, T) -> bool)
    requires TotalPreorder(le)
    ensures WithKeyOf(SortDesc(xs, le), x, le) == WithKeyOf(xs, x, le)
    decreases |xs|
  {
    if xs != [] {
      SortDescStable(xs[1..], x, le);
      InsertStable(xs[0], SortDesc(xs[1..], le), x, le);
      var s := SortDesc(xs[1..], le);
      assert ([xs[0]] + s)[0] == xs[0] && ([xs[0]] + s)[1..] == s;
    }
  }

  /** The first `n` of the sorted list leave out nothing whose key is
      larger than that of the last one kept. */
  lemma PrefixKeepsLargest<T(!new)>(xs: seq<T>, le: (T, T) -> bool, n: nat)
    requires TotalPreorder(le) && 0 < n <= |xs|
    ensures forall y :: y in xs ==> y in SortDesc(xs, le)[..n] || le(y, SortDesc(xs, le)[n - 1])
  {
    var s := SortDesc(xs, le);
    SortDescSorted(xs, le);
    forall y | y in xs
      ensures y in s[..n] || le(y, s[n - 1])
    {
      assert y in multiset(s);
      var k :| 0 <= k < |s| && s[k] == y;
      if k < n {
        assert s[..n][k] == y;
      } else if k > n - 1 {
        assert le(s[k], s[n - 1]);
      }
    }
  }

  /** The elements kept from the sorted list, among those of one key, are
      the first ones of that key in input order. */
  lemma PrefixStable<T(!new)>(xs: seq<T>, le: (T, T) -> bool, n: nat, x: T)
    requires TotalPreorder(le) && n <= |xs|
    ensures WithKeyOf(SortDesc(xs, le)[..n], x, le) <= WithKeyOf(xs, x, le)
  {
    var s := SortDesc(xs, le);
    assert s == s[..n] + s[n..];
    WithKeyOfConcat(s[..n], s[n..], x, le);
    SortDescStable(xs, x, le);
  }
}
