/**
 * The two insertion-ordered Java collections the configuration facade builds:
 * `LinkedHashSet` (a duplicate-free sequence in first-occurrence order) and
 * `LinkedHashMap` (a map plus the order in which its keys were first put).
 */
module Collections {
  import opened Wrappers

  predicate NoDuplicates<T(==)>(s: seq<T>) {
    forall i, j :: 0 <= i < j < |s| ==> s[i] != s[j]
  }

  /** The elements of `xs` as a `LinkedHashSet` holds them after adding `xs` left to right. */
  function Distinct<T(==)>(xs: seq<T>): (r: seq<T>)
    ensures NoDuplicates(r)
    ensures forall x :: x in xs ==> x in r
    ensures forall x :: x in r ==> x in xs
    ensures |r| <= |xs|
    decreases |xs|
  {
    if xs == [] then []
    else
      var d := Distinct(xs[..|xs| - 1]);
      assert xs == xs[..|xs| - 1] + [xs[|xs| - 1]];
      if xs[|xs| - 1] in d then d else d + [xs[|xs| - 1]]
  }

  /** Position of the first occurrence of `x` in `xs`. */
  function FirstIndex<T(==)>(xs: seq<T>, x: T): (i: nat)
    requires x in xs
    ensures i < |xs| && xs[i] == x && x !in xs[..i]
  {
    if xs[0] == x then 0
    else
      var k := FirstIndex(xs[1..], x);
      assert xs[..k + 1] == [xs[0]] + xs[1..][..k];
      1 + k
  }

  lemma FirstIndexUnique<T>(xs: seq<T>, x: T, i: nat)
    requires i < |xs| && xs[i] == x && x !in xs[..i]
    ensures FirstIndex(xs, x) == i
  {
  }

  lemma FirstIndexExtend<T>(xs: seq<T>, y: T, x: T)
    requires x in xs
    ensures FirstIndex(xs + [y], x) == FirstIndex(xs, x)
  {
    var k := FirstIndex(xs, x);
    assert (xs + [y])[..k] == xs[..k];
    FirstIndexUnique(xs + [y], x, k);
  }

  /** `Distinct` keeps the elements in the order of their first occurrence. */
  lemma {:induction false} DistinctKeepsFirstOccurrenceOrder<T>(xs: seq<T>, i: nat, j: nat)
    requires i < j < |Distinct(xs)|
    ensures FirstIndex(xs, Distinct(xs)[i]) < FirstIndex(xs, Distinct(xs)[j])
    decreases |xs|
  {
    var n := |xs|;
    var p := xs[..n - 1];
    var last := xs[n - 1];
    assert xs == p + [last];
    var d := Distinct(p);
    var r := Distinct(xs);
    assert r[i] in d && r[i] in p by {
      if last !in d { assert r == d + [last]; }
    }
    FirstIndexExtend(p, last, r[i]);
    if last in d {
      assert r == d;
      FirstIndexExtend(p, last, r[j]);
      DistinctKeepsFirstOccurrenceOrder(p, i, j);
    } else if j < |d| {
      assert r == d + [last];
      FirstIndexExtend(p, last, r[j]);
      DistinctKeepsFirstOccurrenceOrder(p, i, j);
    } else {
      assert r == d + [last] && r[j] == last;
      assert last !in xs[..n - 1];
      FirstIndexUnique(xs, last, n - 1);
    }
  }

  /**
   * A `LinkedHashMap`: `entries` is the mapping and `order` lists its keys in
   * the order they were first put.
   */
  datatype LinkedMap<K(==), V> = LinkedMap(order: seq<K>, entries: map<K, V>) {

    ghost predicate Valid() {
      && NoDuplicates(order)
      && (forall k :: k in entries ==> k in order)
      && (forall k :: k in order ==> k in entries)
    }

    function Get(k: K): Option<V> {
      if k in entries then Some(entries[k]) else None
    }

    /** `put`: a new key goes to the end; re-putting a key keeps its position. */
    function Put(k: K, v: V): (m: LinkedMap<K, V>)
      ensures Valid() ==> m.Valid()
      ensures m.Get(k) == Some(v)
      ensures forall j :: j in entries && j != k ==> m.Get(j) == Get(j)
      ensures m.entries.Keys == entries.Keys + {k}
    {
      if k in entries then LinkedMap(order, entries[k := v])
      else LinkedMap(order + [k], entries[k := v])
    }
  }

  function EmptyLinkedMap<K(==), V>(): (m: LinkedMap<K, V>)
    ensures m.Valid() && m.entries == map[]
  {
    LinkedMap([], map[])
  }

  /** Putting key `k` into a map whose key order is `Distinct(ks)` gives the order `Distinct(ks + [k])`. */
  lemma PutOrder<K, V>(m: LinkedMap<K, V>, ks: seq<K>, k: K, v: V)
    requires m.Valid() && m.order == Distinct(ks)
    ensures m.Put(k, v).order == Distinct(ks + [k])
  {
    assert (ks + [k])[..|ks|] == ks;
  }

  /** A sequence without duplicates is its own `Distinct`, so `PutOrder` applies to every valid map with `ks := m.order`. */
  lemma {:induction false} DistinctOfNoDuplicates<T>(xs: seq<T>)
    requires NoDuplicates(xs)
    ensures Distinct(xs) == xs
    decreases |xs|
  {
    if xs != [] {
      var p := xs[..|xs| - 1];
      DistinctOfNoDuplicates(p);
      assert xs[|xs| - 1] !in p;
      assert xs == p + [xs[|xs| - 1]];
    }
  }

  /** Putting the entries of `src` one by one, in its key order, into an empty map rebuilds `src`. */
  method CopyLinkedMap<K, V>(src: LinkedMap<K, V>) returns (dst: LinkedMap<K, V>)
    requires src.Valid()
    ensures dst == src
  {
    dst := EmptyLinkedMap();
    var i := 0;
    while i < |src.order|
      invariant i <= |src.order|
      invariant dst.order == src.order[..i]
      invariant dst.entries == map k | k in src.order[..i] :: src.entries[k]
    {
      var k := src.order[i];
      assert k !in src.order[..i];
      assert src.order[..i + 1] == src.order[..i] + [k];
      dst := dst.Put(k, src.entries[k]);
      i := i + 1;
    }
    assert src.order[..i] == src.order;
  }
}
