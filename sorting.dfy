/** Array.prototype.sort with a comparator `(a, b) => key(b) - key(a)`: a
    stable sort into non-increasing key order. The sort is a library call in
    the source, so it is modelled as a function (insertion of each element, in
    input order, behind every element whose key is at least as large), and its
    three defining properties are proved: the result is ordered, it is a
    permutation of the input, and elements with equal keys keep their relative
    order. */
module Sorting {
  import opened Collections

  ghost predicate NonIncreasing<T>(s: seq<T>, key: T -> real) {
    forall i, j :: 0 <= i < j < |s| ==> key(s[i]) >= key(s[j])
  }

  /** The elements of `s` whose key is `v`, in order. */
  function WithKey<T>(s: seq<T>, key: T -> real, v: real): seq<T> {
    Filter(s, KeyIs(key, v))
  }

  function KeyIs<T>(key: T -> real, v: real): T -> bool {
    y => key(y) == v
  }

  /** Insert `x` behind every trailing element whose key is at least key(x). */
  function InsertDesc<T>(t: seq<T>, x: T, key: T -> real): (r: seq<T>)
    ensures multiset(r) == multiset(t) + multiset{x}
    ensures |r| == |t| + 1
  {
    if t == [] then [x]
    else if key(t[|t| - 1]) >= key(x) then t + [x]
    else
      var init := t[..|t| - 1];
      assert t == init + [t[|t| - 1]];
      InsertDesc(init, x, key) + [t[|t| - 1]]
  }

  function SortDesc<T>(s: seq<T>, key: T -> real): (r: seq<T>)
    ensures multiset(r) == multiset(s)
    ensures |r| == |s|
  {
    if s == [] then []
    else
      assert s == s[..|s| - 1] + [s[|s| - 1]];
      InsertDesc(SortDesc(s[..|s| - 1], key), s[|s| - 1], key)
  }

  lemma InMultiset<T>(a: seq<T>, b: seq<T>, x: T)
    requires multiset(a) == multiset(b)
    ensures x in a <==> x in b
  {
    assert x in a <==> x in multiset(a);
    assert x in b <==> x in multiset(b);
  }

  lemma {:induction false} InsertDescOrdered<T>(t: seq<T>, x: T, key: T -> real)
    requires NonIncreasing(t, key)
    ensures NonIncreasing(InsertDesc(t, x, key), key)
  {
    if t != [] && key(t[|t| - 1]) < key(x) {
      var init, last := t[..|t| - 1], t[|t| - 1];
      InsertDescOrdered(init, x, key);
      var r' := InsertDesc(init, x, key);
      forall y | y in r' ensures key(y) >= key(last) {
        assert y in multiset(r');
        if y != x { assert y in init; }
      }
      assert InsertDesc(t, x, key) == r' + [last];
    }
  }

  /** The sort's result is in non-increasing key order. */
  lemma {:induction false} SortDescOrdered<T>(s: seq<T>, key: T -> real)
    ensures NonIncreasing(SortDesc(s, key), key)
  {
    if s != [] {
      SortDescOrdered(s[..|s| - 1], key);
      InsertDescOrdered(SortDesc(s[..|s| - 1], key), s[|s| - 1], key);
    }
  }

  /** The sort keeps exactly the input's elements. */
  lemma SortDescMembers<T>(s: seq<T>, key: T -> real, x: T)
    ensures x in SortDesc(s, key) <==> x in s
  {
    InMultiset(SortDesc(s, key), s, x);
  }

  lemma {:induction false} InsertDescStable<T>(t: seq<T>, x: T, key: T -> real, v: real)
    requires NonIncreasing(t, key)
    ensures WithKey(InsertDesc(t, x, key), key, v)
         == WithKey(t, key, v) + (if key(x) == v then [x] else [])
  {
    var p := KeyIs(key, v);
    FilterSingle(x, p);
    if t == [] {
      assert InsertDesc(t, x, key) == [x];
    } else if key(t[|t| - 1]) >= key(x) {
      assert InsertDesc(t, x, key) == t + [x];
      FilterAppend(t, [x], p);
    } else {
      assert NonIncreasing(t[..|t| - 1], key);
      InsertDescStable(t[..|t| - 1], x, key, v);
      InsertBeforeLast(t, x, key, v);
    }
  }

  /** One step of InsertDescStable: `x` passes the smaller last element of `t`. */
  lemma InsertBeforeLast<T>(t: seq<T>, x: T, key: T -> real, v: real)
    requires t != [] && key(t[|t| - 1]) < key(x)
    requires WithKey(InsertDesc(t[..|t| - 1], x, key), key, v)
          == WithKey(t[..|t| - 1], key, v) + (if key(x) == v then [x] else [])
    ensures WithKey(InsertDesc(t, x, key), key, v)
         == WithKey(t, key, v) + (if key(x) == v then [x] else [])
  {
    var inserted := InsertDesc(t[..|t| - 1], x, key);
    assert InsertDesc(t, x, key) == inserted + [t[|t| - 1]];
    WithKeySnoc(inserted, t[|t| - 1], key, v);
    KeysApart(WithKey(t[..|t| - 1], key, v), x, t[|t| - 1], key, v);
  }

  lemma WithKeySnoc<T>(s: seq<T>, y: T, key: T -> real, v: real)
    ensures WithKey(s + [y], key, v) == WithKey(s, key, v) + (if key(y) == v then [y] else [])
  {
    FilterAppend(s, [y], KeyIs(key, v));
    FilterSingle(y, KeyIs(key, v));
  }

  /** Two elements with different keys cannot both carry key `v`, so their
      contributions to WithKey commute. */
  lemma KeysApart<T>(w: seq<T>, x: T, y: T, key: T -> real, v: real)
    requires key(y) < key(x)
    ensures w + (if key(x) == v then [x] else []) + (if key(y) == v then [y] else [])
         == w + (if key(y) == v then [y] else []) + (if key(x) == v then [x] else [])
  {
  }

  /** Stability: the elements sharing any one key come out in input order. */
  lemma {:induction false} SortDescStable<T>(s: seq<T>, key: T -> real, v: real)
    ensures WithKey(SortDesc(s, key), key, v) == WithKey(s, key, v)
  {
    if s != [] {
      var init, last := s[..|s| - 1], s[|s| - 1];
      var sorted := SortDesc(init, key);
      var tail := if key(last) == v then [last] else [];
      assert SortDesc(s, key) == InsertDesc(sorted, last, key);
      SortDescStable(init, key, v);
      SortDescOrdered(init, key);
      InsertDescStable(sorted, last, key, v);
      assert WithKey(SortDesc(s, key), key, v) == WithKey(init, key, v) + tail;
      assert WithKey(s, key, v) == WithKey(init, key, v) + tail;
    }
  }

  lemma {:induction false} InsertDescDistinct<T, K>(t: seq<T>, x: T, key: T -> real, name: T -> K)
    requires DistinctBy(t, name)
    requires forall y :: y in t ==> name(y) != name(x)
    ensures DistinctBy(InsertDesc(t, x, key), name)
  {
    if t != [] && key(t[|t| - 1]) < key(x) {
      var init, last := t[..|t| - 1], t[|t| - 1];
      assert forall y :: y in init ==> y in t;
      InsertDescDistinct(init, x, key, name);
      var r' := InsertDesc(init, x, key);
      forall y | y in r' ensures name(y) != name(last) {
        assert y in multiset(r');
        if y != x {
          var i :| 0 <= i < |init| && init[i] == y;
          assert t[i] == y;
        }
      }
      assert InsertDesc(t, x, key) == r' + [last];
    } else if t != [] {
      assert x !in t;
    }
  }

  /** Sorting never introduces two elements with one name. */
  lemma {:induction false} SortDescDistinct<T, K>(s: seq<T>, key: T -> real, name: T -> K)
    requires DistinctBy(s, name)
    ensures DistinctBy(SortDesc(s, key), name)
  {
    if s != [] {
      var init, last := s[..|s| - 1], s[|s| - 1];
      SortDescDistinct(init, key, name);
      forall y | y in SortDesc(init, key) ensures name(y) != name(last) {
        SortDescMembers(init, key, y);
        var i :| 0 <= i < |init| && init[i] == y;
        assert s[i] == y;
      }
      InsertDescDistinct(SortDesc(init, key), last, key, name);
    }
  }
}
