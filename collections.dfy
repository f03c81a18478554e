/** Sequence and set helpers shared by every module: the model's counterparts
    of Array.prototype.filter / map, `new Set(...)` de-duplication and the
    order-preserving subsequence relation used to state what a filter keeps. */
module Collections {

  datatype Option<T> = None | Some(value: T)

  function Min(a: real, b: real): (r: real)
    ensures r <= a && r <= b && (r == a || r == b)
  {
    if a <= b then a else b
  }

  /** Array.prototype.filter: the elements of `s` satisfying `p`, in order. */
  function Filter<T>(s: seq<T>, p: T -> bool): (r: seq<T>)
    ensures |r| <= |s|
    ensures forall x :: x in r ==> x in s && p(x)
    ensures forall x :: x in s && p(x) ==> x in r
  {
    if s == [] then []
    else
      var init := s[..|s| - 1];
      assert s == init + [s[|s| - 1]];
      Filter(init, p) + (if p(s[|s| - 1]) then [s[|s| - 1]] else [])
  }

  lemma {:induction false} FilterAppend<T>(a: seq<T>, b: seq<T>, p: T -> bool)
    ensures Filter(a + b, p) == Filter(a, p) + Filter(b, p)
    decreases |b|
  {
    if b == [] {
      assert a + b == a;
    } else {
      var bi, x := b[..|b| - 1], b[|b| - 1];
      assert b == bi + [x];
      assert a + b == (a + bi) + [x];
      FilterAppend(a, bi, p);
      FilterSnoc(a + bi, x, p);
      FilterSnoc(bi, x, p);
      SnocAssoc(Filter(a + b, p), Filter(a, p), Filter(bi, p), if p(x) then [x] else [], Filter(b, p));
    }
  }

  lemma SnocAssoc<T>(ab: seq<T>, a: seq<T>, bi: seq<T>, t: seq<T>, b: seq<T>)
    requires ab == (a + bi) + t && b == bi + t
    ensures ab == a + b
  {
  }

  lemma FilterSingle<T>(x: T, p: T -> bool)
    ensures Filter([x], p) == if p(x) then [x] else []
  {
    assert [x][..0] == [];
  }

  /** The step a filtering loop takes: one more element. */
  lemma FilterSnoc<T>(s: seq<T>, x: T, p: T -> bool)
    ensures Filter(s + [x], p) == Filter(s, p) + (if p(x) then [x] else [])
  {
    assert (s + [x])[..|s + [x]| - 1] == s;
  }

  /** When no element passes, the filter keeps nothing. */
  lemma {:induction false} FilterNone<T>(s: seq<T>, p: T -> bool)
    requires forall x :: x in s ==> !p(x)
    ensures Filter(s, p) == []
  {
    if s != [] {
      var init := s[..|s| - 1];
      assert forall x :: x in init ==> x in s;
      FilterNone(init, p);
      assert s[|s| - 1] in s;
    }
  }

  /** Filters with predicates that agree everywhere keep the same elements. */
  lemma {:induction false} FilterExt<T>(s: seq<T>, p: T -> bool, q: T -> bool)
    requires forall x :: p(x) == q(x)
    ensures Filter(s, p) == Filter(s, q)
  {
    if s != [] {
      FilterExt(s[..|s| - 1], p, q);
    }
  }

  function Both<T>(p: T -> bool, q: T -> bool): T -> bool {
    x => p(x) && q(x)
  }

  /** Filtering twice is filtering once by both predicates. */
  lemma {:induction false} FilterFilter<T>(s: seq<T>, p: T -> bool, q: T -> bool)
    ensures Filter(Filter(s, p), q) == Filter(s, Both(p, q))
  {
    if s != [] {
      var init, x := s[..|s| - 1], s[|s| - 1];
      assert s == init + [x];
      FilterFilter(init, p, q);
      FilterSnoc(init, x, p);
      FilterSnoc(init, x, Both(p, q));
      if p(x) {
        FilterSnoc(Filter(init, p), x, q);
      } else {
        assert Filter(init, p) + [] == Filter(init, p);
      }
    }
  }

  /** A non-empty sequence of one repeated value has that value as its only
      distinct element. */
  lemma {:induction false} DistinctAllSame<T>(s: seq<T>, c: T)
    requires |s| > 0 && forall x :: x in s ==> x == c
    ensures Distinct(s) == [c]
  {
    var init := s[..|s| - 1];
    assert s == init + [s[|s| - 1]];
    assert s[|s| - 1] in s;
    if |init| > 0 {
      assert forall x :: x in init ==> x in s;
      DistinctAllSame(init, c);
    }
  }

  /** When every element passes, the filter keeps the whole sequence. */
  lemma {:induction false} FilterKeepsAll<T>(s: seq<T>, p: T -> bool)
    requires forall x :: x in s ==> p(x)
    ensures Filter(s, p) == s
  {
    if s != [] {
      var init, last := s[..|s| - 1], s[|s| - 1];
      assert s == init + [last];
      forall x | x in init ensures p(x) {
        assert x in s;
      }
      FilterKeepsAll(init, p);
      assert last in s;
      assert Filter(s, p) == Filter(init, p) + [last];
    }
  }

  /** Array.prototype.find: the first element satisfying `p`, if any. */
  function Find<T>(s: seq<T>, p: T -> bool): (r: Option<T>)
    ensures r.None? ==> forall x :: x in s ==> !p(x)
    ensures r.Some? ==> exists i :: 0 <= i < |s| && s[i] == r.value && p(s[i])
                                   && forall j :: 0 <= j < i ==> !p(s[j])
  {
    if s == [] then None
    else if p(s[0]) then Some(s[0])
    else
      var r := Find(s[1..], p);
      assert forall x :: x in s[1..] ==> x in s;
      assert r.Some? ==> exists i :: 0 <= i < |s[1..]| && s[1..][i] == r.value && p(s[1..][i])
                                    && forall j :: 0 <= j < i ==> !p(s[1..][j]);
      r
  }

  /** Array.prototype.map. */
  function MapSeq<T, U>(s: seq<T>, f: T -> U): (r: seq<U>)
    ensures |r| == |s|
    ensures forall i :: 0 <= i < |s| ==> r[i] == f(s[i])
  {
    seq(|s|, i requires 0 <= i < |s| => f(s[i]))
  }

  /** No element occurs twice. */
  ghost predicate NoDup<T>(s: seq<T>) {
    forall i, j :: 0 <= i < j < |s| ==> s[i] != s[j]
  }

  /** No two elements share a key. */
  ghost predicate DistinctBy<T, K>(s: seq<T>, key: T -> K) {
    forall i, j :: 0 <= i < j < |s| ==> key(s[i]) != key(s[j])
  }

  /** The set of keys of the elements of `s`. */
  function KeySet<T(==), K>(s: seq<T>, key: T -> K): set<K> {
    set x | x in s :: key(x)
  }

  lemma KeySetAppend<T, K>(s: seq<T>, x: T, key: T -> K)
    ensures KeySet(s + [x], key) == KeySet(s, key) + {key(x)}
  {
    var l, r := KeySet(s + [x], key), KeySet(s, key) + {key(x)};
    forall k | k in l ensures k in r {
      var y :| y in s + [x] && key(y) == k;
      if y != x { assert y in s; }
    }
    forall k | k in r ensures k in l {
      if k != key(x) {
        var y :| y in s && key(y) == k;
        assert y in s + [x];
      } else {
        assert x in s + [x];
      }
    }
  }

  lemma KeySetConcat<T, K>(a: seq<T>, b: seq<T>, key: T -> K)
    ensures KeySet(a + b, key) == KeySet(a, key) + KeySet(b, key)
  {
    forall k | k in KeySet(a + b, key) ensures k in KeySet(a, key) + KeySet(b, key) {
      var y :| y in a + b && key(y) == k;
    }
    forall k | k in KeySet(a, key) + KeySet(b, key) ensures k in KeySet(a + b, key) {
      if k in KeySet(a, key) {
        var y :| y in a && key(y) == k;
        assert y in a + b;
      } else {
        var y :| y in b && key(y) == k;
        assert y in a + b;
      }
    }
  }

  /** `[...new Set(s)]`: the distinct elements of `s` in first-appearance order. */
  function Distinct<T(==)>(s: seq<T>): (r: seq<T>)
    ensures forall x :: x in r ==> x in s
    ensures forall x :: x in s ==> x in r
    ensures NoDup(r)
  {
    if s == [] then []
    else
      var init := s[..|s| - 1];
      assert s == init + [s[|s| - 1]];
      var d := Distinct(init);
      if s[|s| - 1] in d then d else d + [s[|s| - 1]]
  }

  /** Appending elements can only append to the distinct list: an element's
      position is fixed at its first appearance. */
  lemma {:induction false} DistinctPrefix<T>(a: seq<T>, b: seq<T>)
    ensures Distinct(a) <= Distinct(a + b)
    decreases |b|
  {
    if b != [] {
      var bi := b[..|b| - 1];
      assert (a + b)[..|a + b| - 1] == a + bi;
      DistinctPrefix(a, bi);
    } else {
      assert a + b == a;
    }
  }

  /** Keep the first element of every key, drop later ones: the effect of
      pushing only after a `Set.has` / `Array.find` check on the key. */
  function DedupBy<T(==), K(==)>(s: seq<T>, key: T -> K): (r: seq<T>)
    ensures forall x :: x in r ==> x in s
    ensures DistinctBy(r, key)
    ensures KeySet(r, key) == KeySet(s, key)
  {
    if s == [] then []
    else
      var init := s[..|s| - 1];
      var x := s[|s| - 1];
      assert s == init + [x];
      KeySetAppend(init, x, key);
      var d := DedupBy(init, key);
      if key(x) in KeySet(init, key) then d
      else
        KeySetAppend(d, x, key);
        d + [x]
  }

  /** The step the imperative loops take: one more candidate. */
  lemma DedupBySnoc<T, K>(s: seq<T>, x: T, key: T -> K)
    ensures DedupBy(s + [x], key)
         == if key(x) in KeySet(s, key) then DedupBy(s, key) else DedupBy(s, key) + [x]
  {
    assert (s + [x])[..|s + [x]| - 1] == s;
  }

  /** Earlier candidates keep their places when more are appended. */
  lemma {:induction false} DedupByPrefix<T, K>(a: seq<T>, b: seq<T>, key: T -> K)
    ensures DedupBy(a, key) <= DedupBy(a + b, key)
    decreases |b|
  {
    if b == [] {
      assert a + b == a;
    } else {
      var bi := b[..|b| - 1];
      assert a + b == (a + bi) + [b[|b| - 1]];
      DedupByPrefix(a, bi, key);
      DedupBySnoc(a + bi, b[|b| - 1], key);
    }
  }

  /** First discovery wins: every kept element is the first element of `s`
      carrying its key. */
  lemma {:induction false} DedupByFirstWins<T, K>(s: seq<T>, key: T -> K, i: nat)
    requires i < |DedupBy(s, key)|
    ensures exists j :: 0 <= j < |s| && s[j] == DedupBy(s, key)[i]
                        && forall k :: 0 <= k < j ==> key(s[k]) != key(s[j])
  {
    var init := s[..|s| - 1];
    var x := s[|s| - 1];
    assert s == init + [x];
    DedupBySnoc(init, x, key);
    var d := DedupBy(init, key);
    if i < |d| {
      DedupByFirstWins(init, key, i);
      var j :| 0 <= j < |init| && init[j] == d[i]
               && forall k :: 0 <= k < j ==> key(init[k]) != key(init[j]);
      assert s[j] == init[j];
    } else {
      assert key(x) !in KeySet(init, key);
      assert DedupBy(s, key)[i] == x;
      forall k | 0 <= k < |s| - 1 ensures key(s[k]) != key(x) {
        assert s[k] in init;
      }
    }
  }

  /** Every key of the input survives deduplication. */
  lemma DedupByCovers<T, K>(s: seq<T>, key: T -> K, x: T) returns (y: T)
    requires x in s
    ensures y in DedupBy(s, key) && key(y) == key(x)
  {
    assert key(x) in KeySet(s, key);
    assert key(x) in KeySet(DedupBy(s, key), key);
    y :| y in DedupBy(s, key) && key(y) == key(x);
  }

  /** When elements sharing a key are equal, dropping repeated keys drops
      only repeated elements. */
  lemma DedupByDetermined<T, K>(s: seq<T>, key: T -> K, x: T)
    requires forall y, z :: y in s && z in s && key(y) == key(z) ==> y == z
    ensures x in DedupBy(s, key) <==> x in s
  {
    if x in s {
      assert key(x) in KeySet(s, key);
      var y :| y in DedupBy(s, key) && key(y) == key(x);
    }
  }

  /** `arr` is `s` with some elements left out, order kept. */
  ghost predicate IsSubsequence<T>(a: seq<T>, b: seq<T>) {
    exists idx: seq<nat> :: IndexEmbedding(idx, a, b)
  }

  ghost predicate IndexEmbedding<T>(idx: seq<nat>, a: seq<T>, b: seq<T>) {
    && |idx| == |a|
    && (forall k :: 0 <= k < |idx| ==> idx[k] < |b| && a[k] == b[idx[k]])
    && (forall k, l :: 0 <= k < l < |idx| ==> idx[k] < idx[l])
  }

  lemma {:induction false} FilterIsSubsequence<T>(s: seq<T>, p: T -> bool)
    ensures IsSubsequence(Filter(s, p), s)
  {
    if s == [] {
      assert IndexEmbedding([], Filter(s, p), s);
    } else {
      var init, last := s[..|s| - 1], s[|s| - 1];
      FilterIsSubsequence(init, p);
      var idx: seq<nat> :| IndexEmbedding(idx, Filter(init, p), init);
      assert s == init + [last];
      var f := Filter(init, p);
      if p(last) {
        assert Filter(s, p) == f + [last];
        EmbedSnocKeep(idx, f, init, last);
        assert IndexEmbedding(idx + [|init|], Filter(s, p), s);
      } else {
        assert Filter(s, p) == f;
        EmbedSnocSkip(idx, f, init, last);
        assert IndexEmbedding(idx, Filter(s, p), s);
      }
    }
  }

  /** An element kept at the end extends the embedding by its own index. */
  lemma EmbedSnocKeep<T>(idx: seq<nat>, a: seq<T>, b: seq<T>, x: T)
    requires IndexEmbedding(idx, a, b)
    ensures IndexEmbedding(idx + [|b|], a + [x], b + [x])
  {
  }

  /** An element skipped at the end leaves the embedding as it is. */
  lemma EmbedSnocSkip<T>(idx: seq<nat>, a: seq<T>, b: seq<T>, x: T)
    requires IndexEmbedding(idx, a, b)
    ensures IndexEmbedding(idx, a, b + [x])
  {
  }

  lemma SubsequenceTransitive<T>(a: seq<T>, b: seq<T>, c: seq<T>)
    requires IsSubsequence(a, b) && IsSubsequence(b, c)
    ensures IsSubsequence(a, c)
  {
    var i1: seq<nat> :| IndexEmbedding(i1, a, b);
    var i2: seq<nat> :| IndexEmbedding(i2, b, c);
    var i3: seq<nat> := seq(|a|, k requires 0 <= k < |a| => i2[i1[k]]);
    assert IndexEmbedding(i3, a, c);
  }

  lemma AppendAssoc<T>(a: seq<T>, b: seq<T>, c: seq<T>)
    ensures (a + b) + c == a + (b + c)
  {
  }

  /** Number of occurrences of `x` in `s`. */
  function Count<T(==)>(s: seq<T>, x: T): nat {
    if s == [] then 0 else Count(s[..|s| - 1], x) + (if s[|s| - 1] == x then 1 else 0)
  }

  lemma {:induction false} CountPositive<T>(s: seq<T>, x: T)
    ensures Count(s, x) > 0 <==> x in s
  {
    if s != [] {
      var init := s[..|s| - 1];
      assert s == init + [s[|s| - 1]];
      CountPositive(init, x);
    }
  }

  lemma {:induction false} CountAppend<T>(a: seq<T>, b: seq<T>, x: T)
    ensures Count(a + b, x) == Count(a, x) + Count(b, x)
    decreases |b|
  {
    if b == [] {
      assert a + b == a;
    } else {
      var bi := b[..|b| - 1];
      assert (a + b)[..|a + b| - 1] == a + bi;
      CountAppend(a, bi, x);
    }
  }

  /** `n` copies of `x`. */
  function Repeat<T>(x: T, n: nat): (r: seq<T>)
    ensures |r| == n && forall y :: y in r ==> y == x
  {
    seq(n, _ => x)
  }

  lemma {:induction false} CountRepeat<T>(y: T, n: nat, x: T)
    ensures Count(Repeat(y, n), x) == if y == x then n else 0
  {
    if n > 0 {
      assert Repeat(y, n)[..n - 1] == Repeat(y, n - 1);
      CountRepeat(y, n - 1, x);
    }
  }

  /** The index of the first occurrence of `x` in `s`. */
  function FirstIndex<T(==)>(s: seq<T>, x: T): (r: nat)
    requires x in s
    ensures r < |s| && s[r] == x && x !in s[..r]
  {
    if s[0] == x then 0
    else
      assert s == [s[0]] + s[1..];
      var k := FirstIndex(s[1..], x);
      assert s[..k + 1] == [s[0]] + s[1..][..k];
      k + 1
  }

  lemma FirstIndexPrefix<T>(s: seq<T>, y: T, x: T)
    requires x in s
    ensures x in s + [y] && FirstIndex(s + [y], x) == FirstIndex(s, x)
  {
    var k := FirstIndex(s, x);
    assert (s + [y])[..k] == s[..k];
    FirstIndexUnique(s + [y], x, k);
  }

  lemma FirstIndexUnique<T>(s: seq<T>, x: T, k: nat)
    requires k < |s| && s[k] == x && x !in s[..k]
    ensures FirstIndex(s, x) == k
  {
    var f := FirstIndex(s, x);
    assert s[f] == x && x !in s[..f];
  }

  /** Distinct lists the elements in the order of their first occurrences. */
  lemma {:induction false} DistinctFirstAppearance<T>(s: seq<T>, i: nat, j: nat)
    requires i < j < |Distinct(s)|
    ensures FirstIndex(s, Distinct(s)[i]) < FirstIndex(s, Distinct(s)[j])
  {
    var init, last := s[..|s| - 1], s[|s| - 1];
    assert s == init + [last];
    var d := Distinct(init);
    var x, y := Distinct(s)[i], Distinct(s)[j];
    assert x in init by {
      assert Distinct(s)[i] == d[i];
    }
    FirstIndexPrefix(init, last, x);
    if j < |d| {
      assert Distinct(s)[j] == d[j];
      DistinctFirstAppearance(init, i, j);
      FirstIndexPrefix(init, last, y);
    } else {
      assert last !in init && y == last;
      FirstIndexUnique(s, y, |s| - 1);
    }
  }

  /** Concatenation of a sequence of sequences. */
  function Flatten<T>(ss: seq<seq<T>>): seq<T> {
    if ss == [] then [] else Flatten(ss[..|ss| - 1]) + ss[|ss| - 1]
  }
}
