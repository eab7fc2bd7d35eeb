/** What a snapshot of the store brings back when it is restored. */
module StoreRecovery {
  import opened Common
  import opened PlatformStore
  import JsMap

  /* ----- tables ----- */

  ghost predicate ReadSoFar<V>(r: Option<JsMap.Map<string, V>>, m: JsMap.Map<string, V>, n: nat, ok: bool)
    requires n <= |m.keys|
  {
    if !ok then r == None
    else
      && r.Some? && r.value.keys == m.keys[..n]
      && forall i :: 0 <= i < n ==> JsMap.Get(r.value, m.keys[i]) == JsMap.Get(m, m.keys[i])
  }

  lemma ReadAll<V>(r: Option<JsMap.Map<string, V>>, m: JsMap.Map<string, V>)
    requires ReadSoFar(r, m, |m.keys|, true)
    ensures r == Some(m)
  {
    assert m.keys[..|m.keys|] == m.keys;
    JsMap.SameMap(r.value, m);
  }

  lemma ReadNext<V>(r: JsMap.Map<string, V>, m: JsMap.Map<string, V>, n: nat)
    requires n < |m.keys| && ReadSoFar(Some(r), m, n, true)
    ensures m.keys[n] in m.vals && m.keys[n] !in r.vals
    ensures ReadSoFar(Some(JsMap.Set(r, m.keys[n], m.vals[m.keys[n]])), m, n + 1, true)
  {
    var k := m.keys[n];
    assert k in m.keys;
    JsMap.DistinctAt(m.keys, n);
    assert k !in r.keys;
    var more := JsMap.Set(r, k, m.vals[k]);
    assert more.keys == m.keys[..n + 1];
    forall i | 0 <= i < n + 1
      ensures JsMap.Get(more, m.keys[i]) == JsMap.Get(m, m.keys[i])
    {
      if i < n {
        assert m.keys[i] == m.keys[..n][i];
      }
    }
  }

  lemma ReadTableStep<V>(m: JsMap.Map<string, V>, idOf: V -> string, n: nat)
    requires n < |m.keys| && forall k :: k in m.vals ==> idOf(m.vals[k]) == k
    ensures m.keys[n] in m.vals
    ensures ReadTable(JsMap.Values(m)[..n + 1], idOf) ==
              match ReadTable(JsMap.Values(m)[..n], idOf)
              case None => None
              case Some(r) =>
                if m.keys[n] == "" || m.keys[n] in r.vals then None
                else Some(JsMap.Set(r, m.keys[n], m.vals[m.keys[n]]))
  {
    hide JsMap.Distinct;
    var values := JsMap.Values(m);
    assert m.keys[n] in m.keys;
    assert values[..n + 1][..n] == values[..n] && values[..n + 1][n] == values[n];
  }

  lemma ReadTableMore<V>(m: JsMap.Map<string, V>, idOf: V -> string, n: nat)
    requires n < |m.keys| && forall k :: k in m.vals ==> idOf(m.vals[k]) == k
    requires ReadSoFar(ReadTable(JsMap.Values(m)[..n], idOf), m, n, "" !in m.keys[..n])
    ensures ReadSoFar(ReadTable(JsMap.Values(m)[..n + 1], idOf), m, n + 1, "" !in m.keys[..n + 1])
  {
    hide ReadTable, ReadSoFar, JsMap.Distinct, JsMap.OrderedMap.Valid;
    ReadTableStep(m, idOf, n);
    assert m.keys[..n + 1] == m.keys[..n] + [m.keys[n]];
    var r := ReadTable(JsMap.Values(m)[..n], idOf);
    ReadNothing(r, m, n);
    ReadNothing(ReadTable(JsMap.Values(m)[..n + 1], idOf), m, n + 1);
    if "" !in m.keys[..n] {
      ReadNext(r.value, m, n);
    }
  }

  lemma NothingReadYet<V>(m: JsMap.Map<string, V>, idOf: V -> string, test: V -> bool)
    ensures ReadSoFar(ReadTable(JsMap.Values(m)[..0], idOf), m, 0, "" !in m.keys[..0])
    ensures ReadSoFar(ReadPairs(JsMap.Entries(m)[..0], test), m, 0, true)
  {
    hide JsMap.Distinct;
    assert JsMap.Values(m)[..0] == [] && JsMap.Entries(m)[..0] == [] && m.keys[..0] == [];
  }

  lemma {:induction false} ReadTablePrefix<V>(m: JsMap.Map<string, V>, idOf: V -> string, n: nat)
    requires n <= |m.keys| && forall k :: k in m.vals ==> idOf(m.vals[k]) == k
    ensures ReadSoFar(ReadTable(JsMap.Values(m)[..n], idOf), m, n, "" !in m.keys[..n])
  {
    hide *;
    if n == 0 {
      NothingReadYet(m, idOf, v => true);
    } else {
      ReadTablePrefix(m, idOf, n - 1);
      ReadTableMore(m, idOf, n - 1);
    }
  }

  lemma ReadNothing<V>(r: Option<JsMap.Map<string, V>>, m: JsMap.Map<string, V>, n: nat)
    requires n <= |m.keys|
    ensures ReadSoFar(r, m, n, false) <==> r == None
    ensures ReadSoFar(r, m, n, true) ==> r.Some?
  {
  }

  /** A table whose values carry their own keys reads back, unless one of the keys is empty. */
  lemma ReadTableBack<V>(m: JsMap.Map<string, V>, idOf: V -> string)
    requires forall k :: k in m.vals ==> idOf(m.vals[k]) == k
    ensures ReadTable(JsMap.Values(m), idOf) == if "" in m.vals then None else Some(m)
  {
    var n := |m.keys|;
    assert m.keys[..n] == m.keys && JsMap.Values(m)[..n] == JsMap.Values(m);
    ReadTablePrefix(m, idOf, n);
    if "" !in m.vals {
      ReadAll(ReadTable(JsMap.Values(m), idOf), m);
    }
  }

  lemma KeyHeld<V>(m: JsMap.Map<string, V>, n: nat)
    requires n < |m.keys|
    ensures m.keys[n] in m.vals
  {
    assert m.keys[n] in m.keys;
  }

  lemma ReadPairsStep<V>(m: JsMap.Map<string, V>, test: V -> bool, n: nat)
    requires n < |m.keys| && forall k :: k in m.vals ==> test(m.vals[k])
    requires ReadPairs(JsMap.Entries(m)[..n], test).Some?
    ensures m.keys[n] in m.vals
    ensures ReadPairs(JsMap.Entries(m)[..n + 1], test) ==
              Some(JsMap.Set(ReadPairs(JsMap.Entries(m)[..n], test).value, m.keys[n], m.vals[m.keys[n]]))
  {
    hide JsMap.Distinct, JsMap.OrderedMap.Valid, JsMap.Entries, JsMap.Set;
    KeyHeld(m, n);
    var entries := JsMap.Entries(m);
    assert entries[..n + 1][..n] == entries[..n] && entries[..n + 1][n] == entries[n];
  }

  lemma ReadPairsMore<V>(m: JsMap.Map<string, V>, test: V -> bool, n: nat)
    requires n < |m.keys| && forall k :: k in m.vals ==> test(m.vals[k])
    requires ReadSoFar(ReadPairs(JsMap.Entries(m)[..n], test), m, n, true)
    ensures ReadSoFar(ReadPairs(JsMap.Entries(m)[..n + 1], test), m, n + 1, true)
  {
    hide ReadPairs, ReadSoFar, JsMap.Distinct, JsMap.OrderedMap.Valid;
    ReadNothing(ReadPairs(JsMap.Entries(m)[..n], test), m, n);
    ReadPairsStep(m, test, n);
    ReadNext(ReadPairs(JsMap.Entries(m)[..n], test).value, m, n);
  }

  lemma {:induction false} ReadPairsPrefix<V>(m: JsMap.Map<string, V>, test: V -> bool, n: nat)
    requires n <= |m.keys| && forall k :: k in m.vals ==> test(m.vals[k])
    ensures ReadSoFar(ReadPairs(JsMap.Entries(m)[..n], test), m, n, true)
  {
    hide *;
    if n == 0 {
      NothingReadYet(m, v => "", test);
    } else {
      ReadPairsPrefix(m, test, n - 1);
      ReadPairsMore(m, test, n - 1);
    }
  }

  lemma ReadPairsBack<V>(m: JsMap.Map<string, V>, test: V -> bool)
    requires forall k :: k in m.vals ==> test(m.vals[k])
    ensures ReadPairs(JsMap.Entries(m), test) == Some(m)
  {
    var n := |m.keys|;
    assert JsMap.Entries(m)[..n] == JsMap.Entries(m);
    ReadPairsPrefix(m, test, n);
    ReadAll(ReadPairs(JsMap.Entries(m), test), m);
  }

  /* ----- kept replies ----- */

  /** The keys that do, or do not, stand for replies with secrets, in order. */
  function OfKind(keys: seq<string>, secret: bool): (r: seq<string>)
    ensures forall k :: k in r <==> k in keys && SecretKey(k) == secret
  {
    if keys == [] then []
    else
      var last := |keys| - 1;
      assert keys == keys[..last] + [keys[last]];
      OfKind(keys[..last], secret) + if SecretKey(keys[last]) == secret then [keys[last]] else []
  }

  lemma {:induction false} OfKindDistinct(keys: seq<string>, secret: bool)
    requires JsMap.Distinct(keys)
    ensures JsMap.Distinct(OfKind(keys, secret))
  {
    if keys != [] {
      var last := |keys| - 1;
      var rest := OfKind(keys[..last], secret);
      OfKindDistinct(keys[..last], secret);
      assert (rest + [keys[last]])[..|rest|] == rest && rest + [] == rest;
    }
  }

  lemma DistinctConcat(a: seq<string>, b: seq<string>)
    requires JsMap.Distinct(a) && JsMap.Distinct(b) && forall k :: k in a ==> k !in b
    ensures JsMap.Distinct(a + b)
  {
    forall i, j | 0 <= i < j < |a + b|
      ensures (a + b)[i] != (a + b)[j]
    {
      if i < |a| <= j {
        assert (a + b)[i] in a && (a + b)[j] in b;
      }
    }
  }

  /** A key is either still answered or a tombstone, and only these have fingerprints. */
  ghost predicate ReplaysOk(s: State) {
    && (forall k :: k in s.idempotency.vals ==> k !in s.tombstones.vals)
    && (forall k :: k in s.fingerprints ==> k in s.idempotency.vals || k in s.tombstones.vals)
    && (forall k :: k in s.idempotency.vals && s.idempotency.vals[k].IssuedReply? ==> SecretKey(k))
  }

  ghost function Kept(m: JsMap.Map<string, Reply>): (r: JsMap.Map<string, Reply>)
    ensures r.keys == OfKind(m.keys, false)
    ensures forall k :: k in r.vals <==> k in m.vals && !SecretKey(k)
    ensures forall k :: k in r.vals ==> r.vals[k] == m.vals[k]
  {
    OfKindDistinct(m.keys, false);
    JsMap.OrderedMap(OfKind(m.keys, false), map k | k in m.vals && !SecretKey(k) :: m.vals[k])
  }

  ghost function SetOf(keys: seq<string>): (r: JsMap.Map<string, ()>)
    requires JsMap.Distinct(keys)
    ensures r.keys == keys && forall k :: k in r.vals <==> k in keys
  {
    JsMap.OrderedMap(keys, map k | k in keys :: ())
  }

  ghost predicate Disjoint(s: State) {
    forall k :: k in s.idempotency.keys ==> k !in s.tombstones.keys
  }

  lemma ReplaysDisjoint(s: State)
    requires ReplaysOk(s)
    ensures Disjoint(s)
  {
  }

  lemma BuriedDistinct(s: State)
    requires Disjoint(s)
    ensures JsMap.Distinct(OfKind(s.idempotency.keys, true) + s.tombstones.keys)
  {
    OfKindDistinct(s.idempotency.keys, true);
    DistinctConcat(OfKind(s.idempotency.keys, true), s.tombstones.keys);
  }

  ghost function Buried(s: State): (r: JsMap.Map<string, ()>)
    requires Disjoint(s)
    ensures r.keys == OfKind(s.idempotency.keys, true) + s.tombstones.keys
  {
    BuriedDistinct(s);
    SetOf(OfKind(s.idempotency.keys, true) + s.tombstones.keys)
  }

  /** The state a restored snapshot amounts to: replies that might hold secrets have become tombstones. */
  ghost function Recovered(s: State): State
    requires Disjoint(s)
  {
    s.(idempotency := Kept(s.idempotency), tombstones := Buried(s))
  }

  ghost predicate Fits(fingerprints: map<string, string>, keys: seq<string>) {
    forall k :: k in keys ==> FitsKey(k) && (k in fingerprints ==> FitsFingerprint(fingerprints[k]))
  }

  ghost predicate FingerprintsRead(r: map<string, string>, fingerprints: map<string, string>, keys: seq<string>) {
    && (forall k :: k in r <==> k in fingerprints && k in keys)
    && (forall k :: k in r ==> r[k] == fingerprints[k])
  }

  /** The replies read so far are those of the given keys that hold no secret. */
  ghost predicate RepliesRead(r: JsMap.Map<string, Reply>, m: JsMap.Map<string, Reply>, keys: seq<string>) {
    r.keys == OfKind(keys, false) && forall k :: k in r.vals ==> k in m.vals && r.vals[k] == m.vals[k]
  }

  /** What has been read of the replies after the first n live ones. */
  ghost predicate LiveRead(r: Replays, s: State, n: nat)
    requires n <= |s.idempotency.keys|
  {
    var keys := s.idempotency.keys[..n];
    && RepliesRead(r.idempotency, s.idempotency, keys)
    && r.tombstones.keys == OfKind(keys, true)
    && FingerprintsRead(r.fingerprints, s.fingerprints, keys)
  }

  ghost function Live(s: State): seq<IdempotencyEntry> {
    LiveEntries(s.fingerprints, JsMap.Entries(s.idempotency))
  }

  lemma FingerprintsNext(r: map<string, string>, fingerprints: map<string, string>, keys: seq<string>, k: string)
    requires FingerprintsRead(r, fingerprints, keys)
    ensures FingerprintsRead(if k in fingerprints then r[k := fingerprints[k]] else r, fingerprints, keys + [k])
  {
  }

  lemma OfKindNext(keys: seq<string>, n: nat, secret: bool)
    requires n < |keys|
    ensures OfKind(keys[..n + 1], secret) == OfKind(keys[..n], secret) + if SecretKey(keys[n]) ==
              secret then [keys[n]] else []
    ensures keys[..n + 1] == keys[..n] + [keys[n]]
  {
    assert keys[..n + 1][..n] == keys[..n];
  }

  lemma RepliesNext(r: JsMap.Map<string, Reply>, m: JsMap.Map<string, Reply>, n: nat)
    requires n < |m.keys| && RepliesRead(r, m, m.keys[..n])
    ensures var k := m.keys[n];
            && k in m.vals && RepliesRead(if SecretKey(k) then r else JsMap.Set(r, k, m.vals[k]), m, m.keys[..n + 1])
  {
    hide SecretKey;
    var k := m.keys[n];
    assert k in m.keys;
    JsMap.DistinctAt(m.keys, n);
    assert k !in r.keys;
    OfKindNext(m.keys, n, false);
  }

  lemma TombstonesNext(r: JsMap.Map<string, ()>, keys: seq<string>, n: nat)
    requires JsMap.Distinct(keys) && n < |keys| && r.keys == OfKind(keys[..n], true)
    ensures (if SecretKey(keys[n]) then JsMap.Set(r, keys[n], ()) else r).keys == OfKind(keys[..n + 1], true)
  {
    hide SecretKey;
    JsMap.DistinctAt(keys, n);
    assert keys[n] !in r.keys;
    OfKindNext(keys, n, true);
  }

  lemma LiveEntryAt(s: State, n: nat)
    requires n < |s.idempotency.keys|
    ensures s.idempotency.keys[n] in s.idempotency.vals
    ensures Live(s)[n] == LiveEntry(s.fingerprints, s.idempotency.keys[n], s.idempotency.vals[s.idempotency.keys[n]])
  {
    assert s.idempotency.keys[n] in s.idempotency.keys;
  }

  lemma LiveNext(r: Replays, s: State, n: nat)
    requires n < |s.idempotency.keys| && LiveRead(r, s, n)
    ensures Live(s)[n].tombstone || Live(s)[n].value.Some?
    ensures LiveRead(WithEntry(r, Live(s)[n]), s, n + 1)
  {
    hide SecretKey, FingerprintsRead, OfKind, Live, RepliesRead, JsMap.Distinct;
    var keys := s.idempotency.keys;
    LiveEntryAt(s, n);
    RepliesNext(r.idempotency, s.idempotency, n);
    KeysDistinct(s.idempotency);
    TombstonesNext(r.tombstones, keys, n);
    FingerprintsNext(r.fingerprints, s.fingerprints, keys[..n], keys[n]);
    assert keys[..n] + [keys[n]] == keys[..n + 1];
  }

  lemma KeysDistinct<V>(m: JsMap.Map<string, V>)
    ensures JsMap.Distinct(m.keys)
  {
  }

  lemma LiveValid(s: State, n: nat)
    requires n < |s.idempotency.keys|
    ensures Live(s)[n].cacheKey == s.idempotency.keys[n]
    ensures ValidEntry(Live(s)[n]) <==> Fits(s.fingerprints, [s.idempotency.keys[n]])
  {
    hide FitsKey, FitsFingerprint;
    var k := s.idempotency.keys[n];
    assert k in [k];
  }

  lemma FitsNext(fingerprints: map<string, string>, keys: seq<string>, k: string)
    ensures Fits(fingerprints, keys + [k]) <==> Fits(fingerprints, keys) && Fits(fingerprints, [k])
  {
    hide FitsKey, FitsFingerprint;
    assert forall i :: i in keys ==> i in keys + [k];
    assert k in [k] && k in keys + [k];
  }

  lemma {:induction false} ReadLive(s: State, n: nat)
    requires n <= |s.idempotency.keys|
    ensures var r := ReadReplays(Live(s)[..n]);
            if Fits(s.fingerprints, s.idempotency.keys[..n]) then r.Some? && LiveRead(r.value, s, n) else r == None
  {
    hide Fits, ValidEntry, WithEntry, LiveRead, Live;
    var live, keys := Live(s), s.idempotency.keys;
    LiveLength(s);
    if n == 0 {
      assert live[..0] == [] && keys[..0] == [];
      NothingRead(s);
    } else {
      assert live[..n][..n - 1] == live[..n - 1] && live[..n][n - 1] == live[n - 1];
      ReadLive(s, n - 1);
      assert keys[..n] == keys[..n - 1] + [keys[n - 1]];
      FitsNext(s.fingerprints, keys[..n - 1], keys[n - 1]);
      LiveValid(s, n - 1);
      var r := ReadReplays(live[..n - 1]);
      if r.Some? {
        LiveNext(r.value, s, n - 1);
      }
    }
  }

  lemma LiveLength(s: State)
    ensures |Live(s)| == |s.idempotency.keys|
  {
  }

  lemma NothingRead(s: State)
    ensures Fits(s.fingerprints, [])
    ensures LiveRead(Replays(JsMap.Empty(), map[], JsMap.Empty()), s, 0)
  {
    assert s.idempotency.keys[..0] == [];
  }

  /** What has been read after all live replies and the first n tombstones. */
  ghost predicate TombstonesRead(r: Replays, s: State, n: nat)
    requires n <= |s.tombstones.keys|
  {
    var keys := s.idempotency.keys;
    && RepliesRead(r.idempotency, s.idempotency, keys)
    && r.tombstones.keys == OfKind(keys, true) + s.tombstones.keys[..n]
    && FingerprintsRead(r.fingerprints, s.fingerprints, keys + s.tombstones.keys[..n])
  }

  lemma BuriedNext(r: JsMap.Map<string, ()>, first: seq<string>, buried: seq<string>, n: nat)
    requires JsMap.Distinct(buried) && n < |buried| && r.keys == first + buried[..n] && buried[n] !in first
    ensures JsMap.Set(r, buried[n], ()).keys == first + buried[..n + 1]
  {
    JsMap.DistinctAt(buried, n);
    assert buried[n] !in r.keys;
    assert first + buried[..n] + [buried[n]] == first + buried[..n + 1];
  }

  lemma TombstoneNext(r: Replays, s: State, n: nat)
    requires Disjoint(s) && n < |s.tombstones.keys| && TombstonesRead(r, s, n)
    ensures TombstonesRead(WithEntry(r, Tombstone(s.fingerprints, s.tombstones.keys[n])), s, n + 1)
  {
    hide SecretKey, FingerprintsRead, OfKind, RepliesRead, JsMap.Distinct, JsMap.OrderedMap.Valid;
    var keys, buried := s.idempotency.keys, s.tombstones.keys;
    assert buried[n] in buried;
    KeysDistinct(s.tombstones);
    BuriedNext(r.tombstones, OfKind(keys, true), buried, n);
    FingerprintsNext(r.fingerprints, s.fingerprints, keys + buried[..n], buried[n]);
    assert keys + buried[..n] + [buried[n]] == keys + buried[..n + 1];
  }

  lemma TombstoneValid(fingerprints: map<string, string>, k: string)
    ensures ValidEntry(Tombstone(fingerprints, k)) <==> Fits(fingerprints, [k])
  {
    hide FitsKey, FitsFingerprint;
    assert k in [k];
  }

  lemma {:induction false} ReadTombstones(s: State, n: nat)
    requires Disjoint(s) && n <= |s.tombstones.keys|
    ensures var r := ReadReplays(Live(s) + Tombstones(s.fingerprints, s.tombstones.keys)[..n]);
            if Fits(s.fingerprints, s.idempotency.keys + s.tombstones.keys[..n])
            then r.Some? && TombstonesRead(r.value, s, n) else r == None
  {
    hide Fits, ValidEntry, WithEntry, TombstonesRead, Disjoint, LiveRead, Live;
    var live, dead := Live(s), Tombstones(s.fingerprints, s.tombstones.keys);
    var keys, buried := s.idempotency.keys, s.tombstones.keys;
    if n == 0 {
      LiveLength(s);
      assert live + dead[..0] == live && live[..|live|] == live && keys + buried[..0] == keys && keys[..|keys|] == keys;
      ReadLive(s, |keys|);
      if Fits(s.fingerprints, keys) {
        AllLive(ReadReplays(live).value, s);
      }
    } else {
      var entries := live + dead[..n];
      assert entries[..|entries| - 1] == live + dead[..n - 1] && entries[|entries| - 1] == dead[n - 1];
      ReadTombstones(s, n - 1);
      assert keys + buried[..n] == keys + buried[..n - 1] + [buried[n - 1]];
      FitsNext(s.fingerprints, keys + buried[..n - 1], buried[n - 1]);
      TombstoneValid(s.fingerprints, buried[n - 1]);
      var r := ReadReplays(live + dead[..n - 1]);
      if r.Some? {
        TombstoneNext(r.value, s, n - 1);
      }
    }
  }

  lemma AllLive(r: Replays, s: State)
    requires LiveRead(r, s, |s.idempotency.keys|)
    ensures TombstonesRead(r, s, 0)
  {
    var keys := s.idempotency.keys;
    assert keys[..|keys|] == keys && s.tombstones.keys[..0] == [] && keys + [] == keys
           && OfKind(keys, true) + [] == OfKind(keys, true);
  }

  lemma SameReplies(a: JsMap.Map<string, Reply>, m: JsMap.Map<string, Reply>)
    requires RepliesRead(a, m, m.keys)
    ensures a == Kept(m)
  {
    var b := Kept(m);
    forall i | 0 <= i < |a.keys|
      ensures JsMap.Get(a, a.keys[i]) == JsMap.Get(b, a.keys[i])
    {
      assert a.keys[i] in a.keys && a.keys[i] in b.keys;
    }
    JsMap.SameMap(a, b);
  }

  lemma SameSet(a: JsMap.Map<string, ()>, b: JsMap.Map<string, ()>)
    requires a.keys == b.keys
    ensures a == b
  {
    forall i | 0 <= i < |a.keys|
      ensures JsMap.Get(a, a.keys[i]) == JsMap.Get(b, a.keys[i])
    {
      assert a.keys[i] in a.keys && a.keys[i] in b.keys;
      assert a.vals[a.keys[i]] == () && b.vals[a.keys[i]] == ();
    }
    JsMap.SameMap(a, b);
  }

  lemma SameFingerprints(r: map<string, string>, s: State)
    requires ReplaysOk(s) && FingerprintsRead(r, s.fingerprints, s.idempotency.keys + s.tombstones.keys)
    ensures r == s.fingerprints
  {
    assert forall k :: k in s.fingerprints ==> k in s.idempotency.keys + s.tombstones.keys;
    assert r.Keys == s.fingerprints.Keys;
  }

  lemma AllRead(r: Replays, s: State)
    requires ReplaysOk(s) && Disjoint(s) && TombstonesRead(r, s, |s.tombstones.keys|)
    ensures var t := Recovered(s); r == Replays(t.idempotency, t.fingerprints, t.tombstones)
  {
    hide ReplaysOk, Disjoint, OfKind, FingerprintsRead, RepliesRead;
    var buried := s.tombstones.keys;
    assert buried[..|buried|] == buried;
    SameReplies(r.idempotency, s.idempotency);
    SameSet(r.tombstones, Buried(s));
    SameFingerprints(r.fingerprints, s);
  }

  lemma ReplaysBack(s: State)
    requires ReplaysOk(s) && Disjoint(s)
    ensures var r, t := ReadReplays(TakeSnapshot(s).idempotency), Recovered(s);
            r == if Fits(s.fingerprints, s.idempotency.keys + s.tombstones.keys)
                 then Some(Replays(t.idempotency, t.fingerprints, t.tombstones)) else None
  {
    hide Fits, TombstonesRead, ReplaysOk, Recovered, Disjoint;
    var dead, buried := Tombstones(s.fingerprints, s.tombstones.keys), s.tombstones.keys;
    assert dead[..|dead|] == dead && buried[..|buried|] == buried;
    ReadTombstones(s, |buried|);
    if Fits(s.fingerprints, s.idempotency.keys + buried) {
      AllRead(ReadReplays(Live(s) + dead).value, s);
    }
  }
}
