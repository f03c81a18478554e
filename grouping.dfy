/** Grouping an in-memory list by a key, the way the source fills a
    dictionary in a loop (`if (!groups[k]) groups[k] = []; groups[k].push(x)`)
    and then walks its entries in insertion order. The single-key form serves
    the dataset-name and category groupings; the many-key form, where an
    element is pushed once for every key it lists, serves the unit and
    scenario groupings. */
module Grouping {
  import opened Collections

  /** The distinct keys of `s` in first-appearance order: the entry order of
      the dictionary a grouping loop fills. */
  function Keys<T, K(==)>(s: seq<T>, key: T -> K): (r: seq<K>)
    ensures NoDup(r)
    ensures forall x :: x in s ==> key(x) in r
    ensures forall k :: k in r ==> exists x :: x in s && key(x) == k
  {
    if s == [] then []
    else
      var init, x := s[..|s| - 1], s[|s| - 1];
      assert s == init + [x];
      var ks := Keys(init, key);
      if key(x) in ks then ks else ks + [key(x)]
  }

  function HasKey<T, K(==)>(key: T -> K, k: K): T -> bool {
    x => key(x) == k
  }

  /** The group for key `k`: the elements with that key, in input order. */
  function Group<T, K(==)>(s: seq<T>, key: T -> K, k: K): seq<T> {
    Filter(s, HasKey(key, k))
  }

  lemma KeysSnoc<T, K>(s: seq<T>, x: T, key: T -> K)
    ensures Keys(s + [x], key)
         == if key(x) in Keys(s, key) then Keys(s, key) else Keys(s, key) + [key(x)]
  {
    assert (s + [x])[..|s + [x]| - 1] == s;
  }

  lemma GroupSnoc<T, K>(s: seq<T>, x: T, key: T -> K, k: K)
    ensures Group(s + [x], key, k) == Group(s, key, k) + (if key(x) == k then [x] else [])
  {
    FilterSnoc(s, x, HasKey(key, k));
  }

  /** Every element lands in the group of its own key and in no other. */
  lemma GroupMembers<T, K>(s: seq<T>, key: T -> K, k: K, x: T)
    ensures x in Group(s, key, k) <==> x in s && key(x) == k
  {
  }

  /** No group of a listed key is empty. */
  lemma GroupNonEmpty<T, K>(s: seq<T>, key: T -> K, k: K)
    requires k in Keys(s, key)
    ensures |Group(s, key, k)| > 0
  {
    var x :| x in s && key(x) == k;
    assert x in Group(s, key, k);
  }

  /** Every listed key has a non-empty group. */
  lemma GroupsNonEmpty<T, K>(s: seq<T>, key: T -> K)
    ensures forall k :: k in Keys(s, key) ==> |Group(s, key, k)| > 0
  {
    forall k | k in Keys(s, key) ensures |Group(s, key, k)| > 0 {
      GroupNonEmpty(s, key, k);
    }
  }

  /** A group keeps the input's relative order. */
  lemma GroupIsSubsequence<T, K>(s: seq<T>, key: T -> K, k: K)
    ensures IsSubsequence(Group(s, key, k), s)
  {
    FilterIsSubsequence(s, HasKey(key, k));
  }

  /** The combined size of the groups of the keys in `ks`. */
  function SizeSum<T, K(==)>(ks: seq<K>, s: seq<T>, key: T -> K): nat {
    if ks == [] then 0 else SizeSum(ks[..|ks| - 1], s, key) + |Group(s, key, ks[|ks| - 1])|
  }

  lemma {:induction false} SizeSumSnoc<T, K>(ks: seq<K>, s: seq<T>, x: T, key: T -> K)
    requires NoDup(ks)
    ensures SizeSum(ks, s + [x], key) == SizeSum(ks, s, key) + (if key(x) in ks then 1 else 0)
  {
    if ks != [] {
      var init, k := ks[..|ks| - 1], ks[|ks| - 1];
      assert ks == init + [k];
      assert NoDup(init);
      SizeSumSnoc(init, s, x, key);
      GroupSnoc(s, x, key, k);
      assert key(x) == k ==> key(x) !in init;
    }
  }

  /** A key no element carries has an empty group. */
  lemma GroupAbsent<T, K>(s: seq<T>, key: T -> K, k: K)
    requires forall x :: x in s ==> key(x) != k
    ensures Group(s, key, k) == []
  {
    FilterNone(s, HasKey(key, k));
  }

  /** The groups partition the input: their sizes add up to its length. */
  lemma {:induction false} GroupSizesSum<T, K>(s: seq<T>, key: T -> K)
    ensures SizeSum(Keys(s, key), s, key) == |s|
  {
    if s != [] {
      var init, x := s[..|s| - 1], s[|s| - 1];
      assert s == init + [x];
      GroupSizesSum(init, key);
      KeysSnoc(init, x, key);
      var ks := Keys(init, key);
      SizeSumSnoc(ks, init, x, key);
      if key(x) !in ks {
        var k := key(x);
        assert (ks + [k])[..|ks + [k]| - 1] == ks;
        GroupSnoc(init, x, key, k);
        GroupAbsent(init, key, k);
      }
    }
  }

  /** The dictionary-filling loop: `order` is the entry order and `groups` the
      dictionary. */
  method GroupBy<T, K(==)>(s: seq<T>, key: T -> K) returns (order: seq<K>, groups: map<K, seq<T>>)
    ensures order == Keys(s, key)
    ensures forall k :: k in groups ==> k in order
    ensures forall k :: k in order ==> k in groups && groups[k] == Group(s, key, k)
  {
    order, groups := [], map[];
    var i := 0;
    while i < |s|
      invariant 0 <= i <= |s|
      invariant order == Keys(s[..i], key) && groups == GroupMap(s[..i], key)
    {
      var x := s[i];
      var k := key(x);
      assert s[..i + 1] == s[..i] + [x];
      KeysSnoc(s[..i], x, key);
      GroupMapDomain(s[..i], key, k);
      var bucket := if k in groups then groups[k] else [];
      order := if k in groups then order else order + [k];
      groups := groups[k := bucket + [x]];
      i := i + 1;
    }
    assert s[..|s|] == s;
    GroupMapGrouped(s, key);
  }

  /** The dictionary after pushing every element of `s`. */
  function GroupMap<T, K(==)>(s: seq<T>, key: T -> K): map<K, seq<T>> {
    if s == [] then map[]
    else
      var m, k := GroupMap(s[..|s| - 1], key), key(s[|s| - 1]);
      m[k := (if k in m then m[k] else []) + [s[|s| - 1]]]
  }

  lemma {:induction false} GroupMapGrouped<T, K>(s: seq<T>, key: T -> K)
    ensures GroupedSoFar(s, key, Keys(s, key), GroupMap(s, key))
  {
    if s != [] {
      var init, x := s[..|s| - 1], s[|s| - 1];
      assert s == init + [x];
      GroupMapGrouped(init, key);
      GroupPush(init, x, s, key, Keys(init, key), GroupMap(init, key));
    }
  }

  lemma GroupMapDomain<T, K>(s: seq<T>, key: T -> K, k: K)
    ensures k in GroupMap(s, key) <==> k in Keys(s, key)
  {
    GroupMapGrouped(s, key);
  }

  /** The loop invariant of GroupBy after the elements of `done`. */
  ghost predicate GroupedSoFar<T, K>(done: seq<T>, key: T -> K, order: seq<K>, groups: map<K, seq<T>>) {
    && order == Keys(done, key)
    && (forall k :: k in groups ==> k in order)
    && (forall k :: k in order ==> k in groups && groups[k] == Group(done, key, k))
  }

  /** One push keeps the invariant. */
  lemma GroupPush<T, K>(done: seq<T>, x: T, next: seq<T>, key: T -> K, order: seq<K>, groups: map<K, seq<T>>)
    requires next == done + [x]
    requires GroupedSoFar(done, key, order, groups)
    ensures var k := key(x);
      var bucket := if k in groups then groups[k] else [];
      GroupedSoFar(next, key, if k in groups then order else order + [k], groups[k := bucket + [x]])
  {
    var k0 := key(x);
    var bucket := if k0 in groups then groups[k0] else [];
    var order' := if k0 in groups then order else order + [k0];
    var groups' := groups[k0 := bucket + [x]];
    KeysSnoc(done, x, key);
    assert k0 in groups <==> k0 in order;
    assert order' == Keys(done + [x], key);
    if k0 !in groups {
      GroupAbsent(done, key, k0);
    }
    assert bucket == Group(done, key, k0);
    forall k | k in order' ensures k in groups' && groups'[k] == Group(done + [x], key, k) {
      GroupSnoc(done, x, key, k);
      if k != k0 {
        assert k in order;
      }
    }
    forall k | k in groups' ensures k in order' {
      if k != k0 {
        assert k in groups;
      }
    }
    assert GroupedSoFar(done + [x], key, order', groups');
  }

  // ---- Many keys per element ----

  /** Every key occurrence of every element, in order. */
  function AllKeys<T, K>(s: seq<T>, keys: T -> seq<K>): seq<K> {
    if s == [] then [] else AllKeys(s[..|s| - 1], keys) + keys(s[|s| - 1])
  }

  /** The distinct keys in first-appearance order. */
  function ManyKeys<T, K(==)>(s: seq<T>, keys: T -> seq<K>): seq<K> {
    Distinct(AllKeys(s, keys))
  }

  /** The group for key `k`: every element once for each time it lists `k`. */
  function ManyGroup<T, K(==)>(s: seq<T>, keys: T -> seq<K>, k: K): seq<T> {
    if s == [] then []
    else ManyGroup(s[..|s| - 1], keys, k) + Repeat(s[|s| - 1], Count(keys(s[|s| - 1]), k))
  }

  lemma SnocInit<T>(s: seq<T>, x: T)
    ensures (s + [x])[..|s + [x]| - 1] == s && (s + [x])[|s + [x]| - 1] == x
  {
  }

  lemma AllKeysSnoc<T, K>(s: seq<T>, x: T, keys: T -> seq<K>)
    ensures AllKeys(s + [x], keys) == AllKeys(s, keys) + keys(x)
  {
    SnocInit(s, x);
  }

  lemma ManyGroupSnoc<T, K>(s: seq<T>, x: T, keys: T -> seq<K>, k: K)
    ensures ManyGroup(s + [x], keys, k) == ManyGroup(s, keys, k) + Repeat(x, Count(keys(x), k))
  {
    SnocInit(s, x);
  }

  lemma DistinctSnoc<T>(a: seq<T>, k: T)
    ensures Distinct(a + [k]) == if k in Distinct(a) then Distinct(a) else Distinct(a) + [k]
  {
    SnocInit(a, k);
  }

  lemma CountSnoc<T>(a: seq<T>, u: T, k: T)
    ensures Count(a + [u], k) == Count(a, k) + (if u == k then 1 else 0)
  {
    SnocInit(a, u);
  }

  lemma RepeatSnoc<T>(x: T, n: nat)
    ensures Repeat(x, n + 1) == Repeat(x, n) + [x]
  {
  }

  /** An element is in group `k` exactly when it is an input element that
      lists key `k`. */
  lemma {:induction false} ManyGroupMembers<T, K>(s: seq<T>, keys: T -> seq<K>, k: K, x: T)
    ensures x in ManyGroup(s, keys, k) <==> x in s && k in keys(x)
  {
    if s != [] {
      var init, y := s[..|s| - 1], s[|s| - 1];
      assert s == init + [y];
      ManyGroupMembers(init, keys, k, x);
      CountPositive(keys(y), k);
      var rep := Repeat(y, Count(keys(y), k));
      assert Count(keys(y), k) > 0 ==> rep[0] == y;
    }
  }

  /** An element occurs in group `k` once for every time it occurs in the
      input times the number of times it lists `k`. */
  lemma {:induction false} ManyGroupCount<T, K>(s: seq<T>, keys: T -> seq<K>, k: K, x: T)
    ensures Count(ManyGroup(s, keys, k), x) == Count(s, x) * Count(keys(x), k)
  {
    if s != [] {
      var init, y := s[..|s| - 1], s[|s| - 1];
      ManyGroupCount(init, keys, k, x);
      CountAppend(ManyGroup(init, keys, k), Repeat(y, Count(keys(y), k)), x);
      CountRepeat(y, Count(keys(y), k), x);
      var a, n := Count(init, x), Count(keys(x), k);
      assert Count(s, x) == a + (if y == x then 1 else 0);
      if y == x {
        MulSucc(a, n);
      }
    }
  }

  lemma MulSucc(a: nat, n: nat)
    ensures (a + 1) * n == a * n + n
  {
  }

  /** A key is listed exactly when some input element lists it. */
  lemma {:induction false} AllKeysMembers<T, K>(s: seq<T>, keys: T -> seq<K>, k: K)
    ensures k in AllKeys(s, keys) <==> exists x :: x in s && k in keys(x)
  {
    if s != [] {
      var init, y := s[..|s| - 1], s[|s| - 1];
      assert s == init + [y];
      AllKeysMembers(init, keys, k);
      if k in AllKeys(init, keys) {
        var x :| x in init && k in keys(x);
        assert x in s;
      }
      if exists x :: x in s && k in keys(x) {
        var x :| x in s && k in keys(x);
        if x != y { assert x in init; }
      }
    }
  }

  /** A key no element lists has an empty group. */
  lemma {:induction false} ManyGroupAbsent<T, K>(s: seq<T>, keys: T -> seq<K>, k: K)
    requires k !in AllKeys(s, keys)
    ensures ManyGroup(s, keys, k) == []
  {
    if s != [] {
      var init, y := s[..|s| - 1], s[|s| - 1];
      AllKeysSnoc(init, y, keys);
      assert s == init + [y];
      ManyGroupAbsent(init, keys, k);
      CountPositive(keys(y), k);
    }
  }

  /** No group of a listed key is empty. */
  lemma ManyGroupNonEmpty<T, K>(s: seq<T>, keys: T -> seq<K>, k: K)
    requires k in ManyKeys(s, keys)
    ensures |ManyGroup(s, keys, k)| > 0
  {
    AllKeysMembers(s, keys, k);
    var x :| x in s && k in keys(x);
    ManyGroupMembers(s, keys, k, x);
  }

  /** The group `groups` holds for `k`, or none yet. */
  function Prior<T, K>(groups: map<K, seq<T>>, k: K): seq<T> {
    if k in groups then groups[k] else []
  }

  lemma PriorPush<T, K>(groups: map<K, seq<T>>, u: K, x: T, k: K)
    ensures Prior(groups[u := Prior(groups, u) + [x]], k)
         == Prior(groups, k) + (if k == u then [x] else [])
  {
  }

  lemma RepeatStep<T, K>(x: T, a: seq<K>, u: K, k: K)
    ensures Repeat(x, Count(a + [u], k)) == Repeat(x, Count(a, k)) + (if u == k then [x] else [])
  {
    CountSnoc(a, u, k);
    RepeatSnoc(x, Count(a, k));
  }

  lemma PushStep<T, K>(base: map<K, seq<T>>, g0: map<K, seq<T>>, u: K, x: T, done: seq<K>)
    requires forall k :: Prior(g0, k) == Prior(base, k) + Repeat(x, Count(done, k))
    ensures forall k :: Prior(g0[u := Prior(g0, u) + [x]], k)
                     == Prior(base, k) + Repeat(x, Count(done + [u], k))
  {
    forall k ensures Prior(g0[u := Prior(g0, u) + [x]], k) == Prior(base, k) + Repeat(x, Count(done + [u], k)) {
      var e := if k == u then [x] else [];
      PriorPush(g0, u, x, k);
      RepeatStep(x, done, u, k);
      AppendAssoc(Prior(base, k), Repeat(x, Count(done, k)), e);
    }
  }

  /** One step of the inner loop keeps its three invariants. */
  lemma PushInvariant<T, K>(order: seq<K>, groups: map<K, seq<T>>, base: map<K, seq<T>>,
                            x: T, seen: seq<K>, done: seq<K>, u: K)
    requires order == Distinct(seen + done)
    requires forall k :: k in groups <==> k in seen + done
    requires forall k :: Prior(groups, k) == Prior(base, k) + Repeat(x, Count(done, k))
    ensures (if u in groups then order else order + [u]) == Distinct(seen + (done + [u]))
    ensures forall k :: k in groups[u := Prior(groups, u) + [x]] <==> k in seen + (done + [u])
    ensures forall k :: Prior(groups[u := Prior(groups, u) + [x]], k)
                     == Prior(base, k) + Repeat(x, Count(done + [u], k))
  {
    assert seen + (done + [u]) == (seen + done) + [u];
    DistinctSnoc(seen + done, u);
    PushStep(base, groups, u, x, done);
  }

  /** The inner loop of the many-key grouping: push `x` under each of its
      keys `ks`, creating a group on first sight. */
  method PushUnderKeys<T, K(==)>(order: seq<K>, groups: map<K, seq<T>>, x: T, ks: seq<K>, ghost seen: seq<K>)
    returns (order': seq<K>, groups': map<K, seq<T>>)
    requires order == Distinct(seen)
    requires forall k :: k in groups <==> k in seen
    ensures order' == Distinct(seen + ks)
    ensures forall k :: k in groups' <==> k in seen + ks
    ensures forall k :: Prior(groups', k) == Prior(groups, k) + Repeat(x, Count(ks, k))
  {
    order', groups' := order, groups;
    var j := 0;
    assert seen + ks[..0] == seen;
    while j < |ks|
      invariant 0 <= j <= |ks|
      invariant order' == Distinct(seen + ks[..j])
      invariant forall k :: k in groups' <==> k in seen + ks[..j]
      invariant forall k :: Prior(groups', k) == Prior(groups, k) + Repeat(x, Count(ks[..j], k))
    {
      var u := ks[j];
      assert ks[..j + 1] == ks[..j] + [u];
      PushInvariant(order', groups', groups, x, seen, ks[..j], u);
      if u !in groups' {
        order' := order' + [u];
      }
      groups' := groups'[u := Prior(groups', u) + [x]];
      j := j + 1;
    }
    assert ks[..|ks|] == ks;
  }

  /** One step of the outer loop keeps the group invariant. */
  lemma GroupStep<T, K>(g0: map<K, seq<T>>, g1: map<K, seq<T>>, pre: seq<T>, x: T, keys: T -> seq<K>)
    requires forall k :: Prior(g0, k) == ManyGroup(pre, keys, k)
    requires forall k :: Prior(g1, k) == Prior(g0, k) + Repeat(x, Count(keys(x), k))
    ensures forall k :: Prior(g1, k) == ManyGroup(pre + [x], keys, k)
  {
    forall k ensures Prior(g1, k) == ManyGroup(pre + [x], keys, k) {
      ManyGroupSnoc(pre, x, keys, k);
    }
  }

  /** The many-key grouping loop: for each element, for each key it lists,
      create the group on first sight and push the element. */
  method GroupByMany<T, K(==, !new)>(s: seq<T>, keys: T -> seq<K>)
    returns (order: seq<K>, groups: map<K, seq<T>>)
    ensures order == ManyKeys(s, keys)
    ensures forall k :: k in groups ==> k in order
    ensures forall k :: k in order ==> k in groups && groups[k] == ManyGroup(s, keys, k)
  {
    order, groups := [], map[];
    var i := 0;
    while i < |s|
      invariant 0 <= i <= |s|
      invariant order == Distinct(AllKeys(s[..i], keys))
      invariant forall k :: k in groups <==> k in AllKeys(s[..i], keys)
      invariant forall k :: Prior(groups, k) == ManyGroup(s[..i], keys, k)
    {
      var x := s[i];
      ghost var g0 := groups;
      order, groups := PushUnderKeys(order, groups, x, keys(x), AllKeys(s[..i], keys));
      assert s[..i + 1] == s[..i] + [x];
      AllKeysSnoc(s[..i], x, keys);
      GroupStep(g0, groups, s[..i], x, keys);
      i := i + 1;
    }
    assert s[..|s|] == s;
  }
}
