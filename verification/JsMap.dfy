/**
 A JavaScript Map: each key once, iterated in the order the keys were first inserted; setting a present key keeps its
 place.
 */
module JsMap {
  import opened Common

  ghost predicate Distinct<K>(keys: seq<K>) {
    forall i, j :: 0 <= i < j < |keys| ==> keys[i] != keys[j]
  }

  datatype OrderedMap<K(==), V> = OrderedMap(keys: seq<K>, vals: map<K, V>) {

    ghost predicate Valid() {
      Distinct(keys) && (forall k :: k in keys ==> k in vals) && (forall k :: k in vals ==> k in keys)
    }
  }

  type Map<K(==), V> = m: OrderedMap<K, V> | m.Valid() witness OrderedMap([], map[])

  function Empty<K(==), V>(): Map<K, V> {
    OrderedMap([], map[])
  }

  function Get<K(==), V>(m: Map<K, V>, k: K): Option<V> {
    if k in m.vals then Some(m.vals[k]) else None
  }

  function Set<K(==), V>(m: Map<K, V>, k: K, v: V): (r: Map<K, V>)
    ensures r.vals == m.vals[k := v]
    ensures r.keys == if k in m.vals then m.keys else m.keys + [k]
  {
    OrderedMap(if k in m.vals then m.keys else m.keys + [k], m.vals[k := v])
  }

  function Without<K(==)>(keys: seq<K>, k: K): (r: seq<K>)
    ensures forall i :: i in r ==> i in keys && i != k
    ensures forall i :: i in keys && i != k ==> i in r
    ensures Distinct(keys) ==> Distinct(r)
  {
    if keys == [] then []
    else
      var last := |keys| - 1;
      var rest := Without(keys[..last], k);
      assert keys == keys[..last] + [keys[last]];
      assert Distinct(keys) ==> Distinct(keys[..last]) && keys[last] !in keys[..last];
      if keys[last] == k then rest else rest + [keys[last]]
  }

  /** `m.delete(k)` */
  function Remove<K(==), V>(m: Map<K, V>, k: K): (r: Map<K, V>)
    ensures r.vals == m.vals - {k}
    ensures r.keys == Without(m.keys, k)
  {
    OrderedMap(Without(m.keys, k), m.vals - {k})
  }

  /** `[...new Set(xs)]` */
  function Unique<K(==)>(xs: seq<K>): (r: seq<K>)
    ensures Distinct(r)
    ensures forall x :: x in r ==> x in xs
    ensures forall x :: x in xs ==> x in r
  {
    if xs == [] then []
    else
      var last := |xs| - 1;
      var r := Unique(xs[..last]);
      assert xs == xs[..last] + [xs[last]];
      if xs[last] in r then r else r + [xs[last]]
  }

  /** `[...m.values()]` */
  function Values<K(==), V>(m: Map<K, V>): (r: seq<V>)
    ensures |r| == |m.keys|
    ensures forall i :: 0 <= i < |r| ==> r[i] == m.vals[m.keys[i]]
  {
    seq(|m.keys|, i requires 0 <= i < |m.keys| => assert m.keys[i] in m.keys; m.vals[m.keys[i]])
  }

  /** `[...m.entries()]` */
  function Entries<K(==), V>(m: Map<K, V>): (r: seq<(K, V)>)
    ensures |r| == |m.keys|
    ensures forall i :: 0 <= i < |r| ==> r[i] == (m.keys[i], m.vals[m.keys[i]])
  {
    seq(|m.keys|, i requires 0 <= i < |m.keys| => assert m.keys[i] in m.keys; (m.keys[i], m.vals[m.keys[i]]))
  }

  ghost predicate HasKey<K, V>(entries: seq<(K, V)>, k: K) {
    exists i :: 0 <= i < |entries| && entries[i].0 == k
  }

  ghost predicate DistinctKeys<K, V>(entries: seq<(K, V)>) {
    entries == [] || (var last := |entries| - 1; !HasKey(entries[..last], entries[last].0)
                                                 && DistinctKeys(entries[..last]))
  }

  /** The map read back from a list of entries with distinct keys. */
  function FromEntries<K(==), V>(entries: seq<(K, V)>): (r: Map<K, V>)
    requires DistinctKeys(entries)
    ensures |r.keys| == |entries|
    ensures forall i :: 0 <= i < |entries| ==> r.keys[i] == entries[i].0
  {
    if entries == [] then Empty()
    else
      var last := |entries| - 1;
      var rest := FromEntries(entries[..last]);
      assert forall i :: 0 <= i < last ==> rest.keys[i] == entries[i].0;
      Set(rest, entries[last].0, entries[last].1)
  }

  /** What is left after a removal stays in order. */
  lemma {:induction false} WithoutInOrder<K>(keys: seq<K>, k: K, i: nat, j: nat)
    requires i < j < |Without(keys, k)|
    ensures exists a: nat, b: nat :: a < b < |keys| && keys[a] == Without(keys, k)[i] && keys[b] == Without(keys, k)[j]
  {
    var last := |keys| - 1;
    var rest := Without(keys[..last], k);
    if j < |rest| {
      WithoutInOrder(keys[..last], k, i, j);
      var a: nat, b: nat :| a < b < last && keys[..last][a] == rest[i] && keys[..last][b] == rest[j];
      assert keys[a] == Without(keys, k)[i] && keys[b] == Without(keys, k)[j];
    } else {
      assert rest[i] in rest;
      var a: nat :| a < last && keys[..last][a] == rest[i];
      assert keys[a] == Without(keys, k)[i] && keys[last] == Without(keys, k)[j];
    }
  }

  /** This is where the value occurs first. */
  ghost predicate FirstAt<K>(xs: seq<K>, i: nat, x: K) {
    i < |xs| && xs[i] == x && x !in xs[..i]
  }

  /** Each value keeps the place of its first occurrence. */
  lemma {:induction false} UniqueInOrder<K>(xs: seq<K>, i: nat, j: nat)
    requires i < j < |Unique(xs)|
    ensures exists a: nat, b: nat :: a < b && FirstAt(xs, a, Unique(xs)[i]) && FirstAt(xs, b, Unique(xs)[j])
  {
    var last := |xs| - 1;
    var rest := Unique(xs[..last]);
    if j < |rest| {
      UniqueInOrder(xs[..last], i, j);
      var a: nat, b: nat :| a < b && FirstAt(xs[..last], a, rest[i]) && FirstAt(xs[..last], b, rest[j]);
      assert xs[..last][..a] == xs[..a] && xs[..last][..b] == xs[..b];
      assert FirstAt(xs, a, Unique(xs)[i]) && FirstAt(xs, b, Unique(xs)[j]);
    } else {
      assert rest[i] in rest;
      var a := FirstPlace(xs[..last], rest[i]);
      assert xs[..last][..a] == xs[..a];
      assert FirstAt(xs, a, Unique(xs)[i]) && FirstAt(xs, last, Unique(xs)[j]);
    }
  }

  lemma {:induction false} FirstPlace<K>(xs: seq<K>, x: K) returns (i: nat)
    requires x in xs
    ensures FirstAt(xs, i, x)
  {
    var last := |xs| - 1;
    if x in xs[..last] {
      i := FirstPlace(xs[..last], x);
      assert xs[..last][..i] == xs[..i];
    } else {
      i := last;
    }
  }

  lemma DistinctAt<K>(keys: seq<K>, i: nat)
    requires Distinct(keys) && i < |keys|
    ensures keys[i] !in keys[..i]
  {
  }

  lemma TailDistinct<K>(keys: seq<K>)
    requires Distinct(keys) && keys != []
    ensures Distinct(keys[1..]) && keys[0] !in keys[1..]
  {
  }

  lemma {:induction false} DistinctPrefix<K, V>(entries: seq<(K, V)>, i: nat)
    requires i <= |entries| && DistinctKeys(entries)
    ensures DistinctKeys(entries[..i])
  {
    if i == |entries| {
      assert entries[..i] == entries;
    } else {
      DistinctPrefix(entries[..|entries| - 1], i);
      assert entries[..|entries| - 1][..i] == entries[..i];
    }
  }

  /** Reading one entry more: the key must be new, and is set last. */
  lemma ReadOneMore<K, V>(entries: seq<(K, V)>, i: nat)
    requires i < |entries| && DistinctKeys(entries[..i])
    ensures DistinctKeys(entries[..i + 1]) <==> entries[i].0 !in FromEntries(entries[..i]).vals
    ensures DistinctKeys(entries[..i + 1]) ==>
              FromEntries(entries[..i + 1]) == Set(FromEntries(entries[..i]), entries[i].0, entries[i].1)
  {
    var before, upTo := entries[..i], entries[..i + 1];
    assert upTo[..i] == before && upTo[i] == entries[i];
    var r := FromEntries(before);
    if HasKey(before, entries[i].0) {
      var k :| 0 <= k < i && before[k].0 == entries[i].0;
      assert r.keys[k] in r.keys;
    }
  }

  lemma {:induction false} DistinctEntries<K, V>(keys: seq<K>, entries: seq<(K, V)>)
    requires Distinct(keys) && |entries| == |keys|
    requires forall i :: 0 <= i < |keys| ==> entries[i].0 == keys[i]
    ensures DistinctKeys(entries)
  {
    if keys != [] {
      var last := |keys| - 1;
      DistinctEntries(keys[..last], entries[..last]);
      forall i | 0 <= i < last
        ensures entries[..last][i].0 != entries[last].0
      {
        assert keys[..last][i] == keys[i];
      }
    }
  }

  lemma {:induction false} ReadAt<K, V>(entries: seq<(K, V)>, i: nat)
    requires DistinctKeys(entries) && i < |entries|
    ensures var r := FromEntries(entries); entries[i].0 in r.vals && r.vals[entries[i].0] == entries[i].1
  {
    var last := |entries| - 1;
    if i < last {
      ReadAt(entries[..last], i);
      assert entries[..last][i] == entries[i];
    }
  }

  lemma SameMap<K, V>(a: Map<K, V>, b: Map<K, V>)
    requires a.keys == b.keys
    requires forall i :: 0 <= i < |a.keys| ==> Get(a, a.keys[i]) == Get(b, a.keys[i])
    ensures a == b
  {
    assert a.vals.Keys == b.vals.Keys by {
      assert forall k :: k in a.vals ==> k in a.keys;
      assert forall k :: k in b.vals ==> k in b.keys;
    }
    forall k | k in a.vals
      ensures a.vals[k] == b.vals[k]
    {
      assert k in a.keys;
      var i :| 0 <= i < |a.keys| && a.keys[i] == k;
      assert Get(a, k) == Get(b, k);
    }
    assert a.vals == b.vals;
  }

  /** A map survives being listed and read back, order and all. */
  lemma EntriesRoundTrip<K, V>(m: Map<K, V>)
    ensures DistinctKeys(Entries(m)) && FromEntries(Entries(m)) == m
  {
    var entries := Entries(m);
    DistinctEntries(m.keys, entries);
    var r := FromEntries(entries);
    assert r.keys == m.keys;
    forall i | 0 <= i < |r.keys|
      ensures Get(r, r.keys[i]) == Get(m, r.keys[i])
    {
      ReadAt(entries, i);
      assert m.keys[i] in m.keys;
    }
    SameMap(r, m);
  }

  /** A list of distinct entries survives being read into a map and listed again. */
  lemma ListRoundTrip<K, V>(entries: seq<(K, V)>)
    requires DistinctKeys(entries)
    ensures Entries(FromEntries(entries)) == entries
  {
    var r := FromEntries(entries);
    forall i | 0 <= i < |entries|
      ensures Entries(r)[i] == entries[i]
    {
      ReadAt(entries, i);
    }
  }
}
