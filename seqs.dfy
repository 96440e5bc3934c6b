/** Filtering and filter-mapping of sequences, the shape of Python comprehensions
    `[g(x) for x in s if c(x)]` and of SQL `WHERE` clauses. */
module Seqs {
  import opened Wrappers

  /** The elements of `s` that satisfy `p`, in their original order. */
  function Filter<T(!new)>(s: seq<T>, p: T -> bool): (r: seq<T>)
    ensures |r| <= |s|
    ensures forall x :: x in r <==> x in s && p(x)
    decreases |s|
  {
    if s == [] then []
    else
      var init := Filter(s[..|s| - 1], p);
      assert s == s[..|s| - 1] + [s[|s| - 1]];
      if p(s[|s| - 1]) then init + [s[|s| - 1]] else init
  }

  lemma FilterSnoc<T(!new)>(s: seq<T>, x: T, p: T -> bool)
    ensures Filter(s + [x], p) == Filter(s, p) + (if p(x) then [x] else [])
  {
    assert (s + [x])[..|s|] == s;
  }

  /** Filtering distributes over concatenation, so it keeps the relative order of what it keeps. */
  lemma {:induction false} FilterAppend<T(!new)>(a: seq<T>, b: seq<T>, p: T -> bool)
    ensures Filter(a + b, p) == Filter(a, p) + Filter(b, p)
    decreases |b|
  {
    if b == [] {
      assert a + b == a;
    } else {
      var b' := b[..|b| - 1];
      assert a + b == (a + b') + [b[|b| - 1]];
      assert b == b' + [b[|b| - 1]];
      FilterAppend(a, b', p);
      FilterSnoc(a + b', b[|b| - 1], p);
      FilterSnoc(b', b[|b| - 1], p);
    }
  }

  /** The `Some` images under `f` of the elements of `s`, in order. */
  function FilterMap<T, U>(s: seq<T>, f: T -> Option<U>): (r: seq<U>)
    ensures |r| <= |s|
    decreases |s|
  {
    if s == [] then []
    else
      var x := s[|s| - 1];
      FilterMap(s[..|s| - 1], f) + (if f(x).Some? then [f(x).value] else [])
  }

  lemma FilterMapSnoc<T, U>(s: seq<T>, x: T, f: T -> Option<U>)
    ensures FilterMap(s + [x], f) == FilterMap(s, f) + (if f(x).Some? then [f(x).value] else [])
  {
    assert (s + [x])[..|s|] == s;
  }

  lemma {:induction false} FilterMapAppend<T, U>(a: seq<T>, b: seq<T>, f: T -> Option<U>)
    ensures FilterMap(a + b, f) == FilterMap(a, f) + FilterMap(b, f)
    decreases |b|
  {
    if b == [] {
      assert a + b == a;
    } else {
      var b' := b[..|b| - 1];
      assert a + b == (a + b') + [b[|b| - 1]];
      assert b == b' + [b[|b| - 1]];
      FilterMapAppend(a, b', f);
      FilterMapSnoc(a + b', b[|b| - 1], f);
      FilterMapSnoc(b', b[|b| - 1], f);
    }
  }

  /** `y` is produced exactly when some element of `s` maps to `Some(y)`. */
  lemma {:induction false} FilterMapMember<T, U>(s: seq<T>, f: T -> Option<U>, y: U)
    ensures y in FilterMap(s, f) <==> exists i :: 0 <= i < |s| && f(s[i]) == Some(y)
    decreases |s|
  {
    if s != [] {
      var n := |s| - 1;
      FilterMapMember(s[..n], f, y);
      assert s == s[..n] + [s[n]];
      if exists i :: 0 <= i < n && f(s[..n][i]) == Some(y) {
        var i :| 0 <= i < n && f(s[..n][i]) == Some(y);
        assert s[i] == s[..n][i];
      }
      if exists i :: 0 <= i < |s| && f(s[i]) == Some(y) {
        var i :| 0 <= i < |s| && f(s[i]) == Some(y);
        if i < n {
          assert s[..n][i] == s[i];
        }
      }
    }
  }

  lemma MultisetRemove<T>(p: seq<T>, x: T, q: seq<T>)
    ensures multiset(p + q) == multiset(p + [x] + q) - multiset{x}
  {
    MultisetMiddle(p, [x], q);
  }

  /** What `FilterMap` contributes for one element. */
  function Image<T, U>(x: T, f: T -> Option<U>): seq<U> {
    if f(x).Some? then [f(x).value] else []
  }

  lemma FilterMapSplit<T, U>(p: seq<T>, x: T, q: seq<T>, f: T -> Option<U>)
    ensures FilterMap(p + [x] + q, f) == FilterMap(p, f) + Image(x, f) + FilterMap(q, f)
  {
    FilterMapAppend(p + [x], q, f);
    FilterMapSnoc(p, x, f);
  }

  lemma FilterMapRemove<T, U>(p: seq<T>, x: T, q: seq<T>, f: T -> Option<U>)
    ensures multiset(FilterMap(p + [x] + q, f))
         == multiset(FilterMap(p + q, f)) + multiset(Image(x, f))
  {
    FilterMapSplit(p, x, q, f);
    FilterMapAppend(p, q, f);
    MultisetMiddle(FilterMap(p, f), Image(x, f), FilterMap(q, f));
  }

  lemma MultisetMiddle<T>(a: seq<T>, b: seq<T>, c: seq<T>)
    ensures multiset(a + b + c) == multiset(a + c) + multiset(b)
  {
    calc {
      multiset(a + b + c);
      multiset(a + b) + multiset(c);
      multiset(a) + multiset(b) + multiset(c);
      multiset(a + c) + multiset(b);
    }
  }

  /** Reordering the input only reorders the output: the result depends on the multiset of `s` alone. */
  lemma {:induction false} FilterMapPermutation<T, U>(a: seq<T>, b: seq<T>, f: T -> Option<U>)
    requires multiset(a) == multiset(b)
    ensures multiset(FilterMap(a, f)) == multiset(FilterMap(b, f))
    decreases |a|
  {
    if a == [] {
      assert |multiset(b)| == 0;
      assert b == [];
    } else {
      var n := |a| - 1;
      var x := a[n];
      assert a == a[..n] + [x] + [];
      assert x in multiset(b);
      var j :| 0 <= j < |b| && b[j] == x;
      var p, q := b[..j], b[j + 1..];
      assert b == p + [x] + q;
      MultisetRemove(a[..n], x, []);
      MultisetRemove(p, x, q);
      assert a[..n] + [] == a[..n];
      FilterMapPermutation(a[..n], p + q, f);
      FilterMapRemove(a[..n], x, [], f);
      FilterMapRemove(p, x, q, f);
    }
  }
}
