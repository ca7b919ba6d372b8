/**
 JavaScript's insertion-ordered collections: a Map, or the fields of an object, as a list with one element per key.
 Setting an existing key changes the element where it stands; a new key goes to the end.
 */
module Keyed {

  /** The key of a record's field. */
  function FieldKey<T>(field: (string, T)): string {
    field.0
  }

  function IndexOf<T, K(==)>(key: T -> K, xs: seq<T>, k: K): (i: nat)
    ensures i <= |xs| && (i < |xs| ==> key(xs[i]) == k)
    ensures forall j :: 0 <= j < i ==> key(xs[j]) != k
  {
    if xs == [] || key(xs[0]) == k then 0 else 1 + IndexOf(key, xs[1..], k)
  }

  predicate HasKey<T, K(==)>(key: T -> K, xs: seq<T>, k: K) {
    IndexOf(key, xs, k) < |xs|
  }

  function Upsert<T, K(==)>(key: T -> K, xs: seq<T>, x: T): seq<T> {
    var i := IndexOf(key, xs, key(x));
    if i < |xs| then xs[i := x] else xs + [x]
  }

  function UpsertAll<T, K(==)>(key: T -> K, xs: seq<T>, ys: seq<T>): seq<T> {
    if ys == [] then xs else Upsert(key, UpsertAll(key, xs, ys[..|ys| - 1]), ys[|ys| - 1])
  }

  /** new Map(...).values(), or Object.fromEntries. */
  function Collect<T, K(==)>(key: T -> K, ys: seq<T>): seq<T> {
    UpsertAll(key, [], ys)
  }

  ghost predicate DistinctKeys<T, K>(key: T -> K, xs: seq<T>) {
    forall i, j :: 0 <= i < j < |xs| ==> key(xs[i]) != key(xs[j])
  }

  lemma UpsertKeepsDistinct<T, K>(key: T -> K, xs: seq<T>, x: T)
    requires DistinctKeys(key, xs)
    ensures DistinctKeys(key, Upsert(key, xs, x))
  {
  }

  lemma {:induction false} UpsertAllKeepsDistinct<T, K>(key: T -> K, xs: seq<T>, ys: seq<T>)
    requires DistinctKeys(key, xs)
    ensures DistinctKeys(key, UpsertAll(key, xs, ys))
  {
    if ys != [] {
      UpsertAllKeepsDistinct(key, xs, ys[..|ys| - 1]);
      UpsertKeepsDistinct(key, UpsertAll(key, xs, ys[..|ys| - 1]), ys[|ys| - 1]);
    }
  }

  lemma {:induction false} UpsertAllConcat<T, K>(key: T -> K, xs: seq<T>, ys: seq<T>, zs: seq<T>)
    ensures UpsertAll(key, xs, ys + zs) == UpsertAll(key, UpsertAll(key, xs, ys), zs)
  {
    if zs == [] {
      assert ys + zs == ys;
    } else {
      UpsertAllConcat(key, xs, ys, zs[..|zs| - 1]);
      assert (ys + zs)[..|ys + zs| - 1] == ys + zs[..|zs| - 1];
    }
  }

  /** Collecting a list that already has one element per key gives it back. */
  lemma {:induction false} CollectDistinct<T, K>(key: T -> K, xs: seq<T>)
    requires DistinctKeys(key, xs)
    ensures Collect(key, xs) == xs
  {
    if xs != [] {
      CollectDistinct(key, xs[..|xs| - 1]);
      assert xs == xs[..|xs| - 1] + [xs[|xs| - 1]];
    }
  }

  /** Collecting in portions is collecting at once. */
  lemma CollectTwice<T, K>(key: T -> K, xs: seq<T>, ys: seq<T>)
    ensures Collect(key, Collect(key, xs) + ys) == Collect(key, xs + ys)
  {
    UpsertAllKeepsDistinct(key, [], xs);
    CollectDistinct(key, Collect(key, xs));
    UpsertAllConcat(key, [], Collect(key, xs), ys);
    UpsertAllConcat(key, [], xs, ys);
  }

  lemma {:induction false} OnceOnly<T, K>(key: T -> K, xs: seq<T>, x: T)
    requires DistinctKeys(key, xs)
    ensures multiset(xs)[x] <= 1
  {
    if xs != [] {
      assert xs == [xs[0]] + xs[1..];
      assert forall i :: 0 <= i < |xs[1..]| ==> key(xs[1..][i]) != key(xs[0]);
      OnceOnly(key, xs[1..], x);
    }
  }

  /** Reordering keeps keys distinct. */
  lemma PermutationKeepsDistinct<T, K>(key: T -> K, r: seq<T>, xs: seq<T>)
    requires multiset(r) == multiset(xs) && DistinctKeys(key, xs)
    ensures DistinctKeys(key, r)
  {
    forall i, j | 0 <= i < j < |r|
      ensures key(r[i]) != key(r[j])
    {
      assert r[i] in multiset(xs) && r[j] in multiset(xs);
      OnceOnly(key, xs, r[i]);
      assert r == r[..j] + r[j..] && r[i] in r[..j] && r[j] in r[j..];
      assert multiset(r) == multiset(r[..j]) + multiset(r[j..]);
    }
  }

  // ---------------------------------------------------------------- what a collection holds

  lemma {:induction false} CollectMembers<T, K>(key: T -> K, xs: seq<T>)
    ensures forall x :: x in Collect(key, xs) ==> x in xs
  {
    if xs != [] {
      CollectMembers(key, xs[..|xs| - 1]);
      assert xs == xs[..|xs| - 1] + [xs[|xs| - 1]];
    }
  }

  /** A collection that is as long as what it collects is that list itself: no two keys fell together. */
  lemma {:induction false} CollectKeepsAll<T, K>(key: T -> K, xs: seq<T>)
    ensures |Collect(key, xs)| <= |xs|
    ensures |Collect(key, xs)| == |xs| ==> Collect(key, xs) == xs
  {
    if xs != [] {
      CollectKeepsAll(key, xs[..|xs| - 1]);
      assert xs == xs[..|xs| - 1] + [xs[|xs| - 1]];
    }
  }

  /** The last element with key k. */
  function LastWith<T, K(==)>(key: T -> K, xs: seq<T>, k: K): (r: seq<T>)
    ensures |r| <= 1
  {
    if xs == [] then []
    else if key(xs[|xs| - 1]) == k then [xs[|xs| - 1]]
    else LastWith(key, xs[..|xs| - 1], k)
  }

  lemma {:induction false} IndexInPrefix<T, K>(key: T -> K, xs: seq<T>, x: T, k: K)
    ensures IndexOf(key, xs + [x], k) == if IndexOf(key, xs, k) < |xs| then IndexOf(key, xs, k)
                                         else if key(x) == k then |xs| else |xs| + 1
  {
    if xs == [] {
      assert (xs + [x])[1..] == [];
    } else {
      assert (xs + [x])[1..] == xs[1..] + [x];
      IndexInPrefix(key, xs[1..], x, k);
    }
  }

  lemma LastInPrefix<T, K>(key: T -> K, xs: seq<T>, x: T, k: K)
    ensures LastWith(key, xs + [x], k) == if key(x) == k then [x] else LastWith(key, xs, k)
  {
    assert (xs + [x])[..|xs|] == xs;
  }

  /** Every element is the last one with its key. */
  lemma {:induction false} CollectKeepsLast<T, K>(key: T -> K, xs: seq<T>, i: nat)
    requires i < |Collect(key, xs)|
    ensures LastWith(key, xs, key(Collect(key, xs)[i])) == [Collect(key, xs)[i]]
  {
    if xs != [] {
      var init, x := xs[..|xs| - 1], xs[|xs| - 1];
      assert xs == init + [x];
      LastInPrefix(key, init, x, key(Collect(key, xs)[i]));
      UpsertAllKeepsDistinct(key, [], init);
      if i < |Collect(key, init)| {
        CollectKeepsLast(key, init, i);
      }
    }
  }

  /** No key is lost, and each stands where it was first seen: position i holds the key that is i-th to appear. */
  lemma {:induction false} CollectKeepsOrder<T, K>(key: T -> K, xs: seq<T>)
    ensures forall i :: 0 <= i < |xs| ==> HasKey(key, Collect(key, xs), key(xs[i]))
    ensures forall i, j :: 0 <= i < j < |Collect(key, xs)| ==>
              IndexOf(key, xs, key(Collect(key, xs)[i])) < IndexOf(key, xs, key(Collect(key, xs)[j])) < |xs|
    ensures |Collect(key, xs)| == 1 ==> IndexOf(key, xs, key(Collect(key, xs)[0])) < |xs|
  {
    if xs != [] {
      var init, x := xs[..|xs| - 1], xs[|xs| - 1];
      assert xs == init + [x];
      CollectKeepsOrder(key, init);
      var before := Collect(key, init);
      SameKeys(key, before, x);
      forall i, j | 0 <= i < j < |Collect(key, xs)|
        ensures IndexOf(key, xs, key(Collect(key, xs)[i])) < IndexOf(key, xs, key(Collect(key, xs)[j])) < |xs|
      {
        UpsertOrder(key, init, before, x, i, j);
      }
      IndexInPrefix(key, init, x, key(Collect(key, xs)[0]));
      forall i | 0 <= i < |xs|
        ensures HasKey(key, Collect(key, xs), key(xs[i]))
      {
        assert i < |init| ==> HasKey(key, before, key(init[i]));
        assert HasKey(key, Upsert(key, before, x), key(xs[i]));
      }
    }
  }

  lemma SameKeys<T, K>(key: T -> K, xs: seq<T>, x: T)
    ensures forall i :: 0 <= i < |xs| ==> key(Upsert(key, xs, x)[i]) == key(xs[i])
    ensures forall k :: HasKey(key, Upsert(key, xs, x), k) <==> HasKey(key, xs, k) || k == key(x)
  {
    var r := Upsert(key, xs, x);
    forall k
      ensures HasKey(key, r, k) <==> HasKey(key, xs, k) || k == key(x)
    {
      if HasKey(key, xs, k) {
        assert key(r[IndexOf(key, xs, k)]) == k;
      }
      if k == key(x) {
        assert r[IndexOf(key, xs, k)] == x;
      }
    }
  }

  lemma UpsertOrder<T, K>(key: T -> K, init: seq<T>, before: seq<T>, x: T, i: nat, j: nat)
    requires i < j < |Upsert(key, before, x)|
    requires forall n :: 0 <= n < |init| ==> HasKey(key, before, key(init[n]))
    requires forall m, n :: 0 <= m < n < |before| ==>
               IndexOf(key, init, key(before[m])) < IndexOf(key, init, key(before[n])) < |init|
    requires |before| == 1 ==> IndexOf(key, init, key(before[0])) < |init|
    ensures var r := Upsert(key, before, x);
            IndexOf(key, init + [x], key(r[i])) < IndexOf(key, init + [x], key(r[j])) < |init| + 1
  {
    var r := Upsert(key, before, x);
    var first, second := key(r[i]), key(r[j]);
    SameKeys(key, before, x);
    assert first == key(before[i]);
    IndexInPrefix(key, init, x, first);
    IndexInPrefix(key, init, x, second);
    if j < |before| {
      assert second == key(before[j]);
    } else {
      assert second == key(x);
      SeenIsKept(key, init, before, second);
      assert IndexOf(key, init, first) < |init| by {
        assert i < |before| - 1 ==> IndexOf(key, init, first) < IndexOf(key, init, key(before[|before| - 1]));
        assert 0 < i ==> IndexOf(key, init, key(before[0])) < IndexOf(key, init, first);
      }
    }
  }

  lemma SeenIsKept<T, K>(key: T -> K, init: seq<T>, before: seq<T>, k: K)
    requires forall n :: 0 <= n < |init| ==> HasKey(key, before, key(init[n]))
    ensures IndexOf(key, init, k) < |init| ==> HasKey(key, before, k)
  {
    var n := IndexOf(key, init, k);
    assert n < |init| ==> HasKey(key, before, key(init[n]));
  }
}
