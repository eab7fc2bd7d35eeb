/**
 Which snapshots the store accepts, for any snapshot whatever, and what a refused restore leaves: stated on the lists of
 the snapshot.
 */
module StoreAcceptance {
  import opened Common
  import opened Text
  import opened PlatformStore
  import JsMap
  import T = TokenQuota

  /* ----- lists that carry their own ids ----- */

  /** Every value has an id and no two have the same. */
  ghost predicate Named<V>(values: seq<V>, idOf: V -> string) {
    && (forall i :: 0 <= i < |values| ==> idOf(values[i]) != "")
    && (forall i, j :: 0 <= i < j < |values| ==> idOf(values[i]) != idOf(values[j]))
  }

  /** The table holds exactly these values, each under its id, in this order. */
  ghost predicate Holds<V>(m: JsMap.Map<string, V>, values: seq<V>, idOf: V -> string) {
    && |m.keys| == |values|
    && forall i :: 0 <= i < |values| ==>
         m.keys[i] == idOf(values[i]) && JsMap.Get(m, idOf(values[i])) == Some(values[i])
  }

  lemma HoldsMore<V>(m: JsMap.Map<string, V>, values: seq<V>, idOf: V -> string, v: V)
    requires Holds(m, values, idOf)
    ensures idOf(v) in m.vals <==> exists i :: 0 <= i < |values| && idOf(values[i]) == idOf(v)
    ensures idOf(v) !in m.vals ==> Holds(JsMap.Set(m, idOf(v), v), values + [v], idOf)
  {
    if idOf(v) in m.vals {
      assert idOf(v) in m.keys;
      var i :| 0 <= i < |m.keys| && m.keys[i] == idOf(v);
      assert idOf(values[i]) == idOf(v);
    }
    if i :| 0 <= i < |values| && idOf(values[i]) == idOf(v) {
      assert JsMap.Get(m, idOf(values[i])).Some?;
    }
  }

  lemma {:induction false} TableIff<V>(values: seq<V>, idOf: V -> string)
    ensures ReadTable(values, idOf).Some? <==> Named(values, idOf)
    ensures ReadTable(values, idOf).Some? ==> Holds(ReadTable(values, idOf).value, values, idOf)
  {
    hide JsMap.OrderedMap.Valid, JsMap.Distinct, Holds, Named;
    if values == [] {
      NothingNamed(idOf);
    } else {
      var before, last := values[..|values| - 1], values[|values| - 1];
      assert values == before + [last];
      TableIff(before, idOf);
      NamedMore(before, idOf, last);
      if ReadTable(before, idOf).Some? {
        HoldsMore(ReadTable(before, idOf).value, before, idOf, last);
      }
    }
  }

  lemma NothingNamed<V>(idOf: V -> string)
    ensures Named([], idOf) && Holds(JsMap.Empty(), [], idOf)
  {
  }

  lemma NamedMore<V>(values: seq<V>, idOf: V -> string, v: V)
    ensures Named(values + [v], idOf) <==>
              && Named(values, idOf) && idOf(v) != ""
              && !exists i :: 0 <= i < |values| && idOf(values[i]) == idOf(v)
  {
    var all := values + [v];
    assert forall i :: 0 <= i < |values| ==> all[i] == values[i] && values[i] in all;
    assert all[|values|] == v && v in all;
    if Named(all, idOf) {
      forall i | 0 <= i < |values|
        ensures idOf(values[i]) != idOf(v)
      {
        assert idOf(all[i]) != idOf(all[|values|]);
      }
      forall i, j | 0 <= i < j < |values|
        ensures idOf(values[i]) != idOf(values[j])
      {
        assert idOf(all[i]) != idOf(all[j]);
      }
    }
  }

  /** An id of the table is an id of the list. */
  lemma IdIff<V>(values: seq<V>, idOf: V -> string, k: string)
    requires Named(values, idOf)
    ensures ReadTable(values, idOf).Some?
    ensures k in ReadTable(values, idOf).value.vals <==> exists v :: v in values && idOf(v) == k
    ensures k in ReadTable(values, idOf).value.vals ==> ReadTable(values, idOf).value.vals[k] in values
                                                        && idOf(ReadTable(values, idOf).value.vals[k]) == k
    ensures forall v :: v in values ==> JsMap.Get(ReadTable(values, idOf).value, idOf(v)) == Some(v)
  {
    hide ReadTable, Named;
    TableIff(values, idOf);
    var m := ReadTable(values, idOf).value;
    if k in m.vals {
      assert k in m.keys;
      var i :| 0 <= i < |m.keys| && m.keys[i] == k;
      assert JsMap.Get(m, idOf(values[i])) == Some(values[i]);
    }
  }

  /* ----- lists of pairs ----- */

  /** The first n pairs pass, and either they are all or the next fails. */
  predicate PassesUpTo<V>(pairs: seq<(string, V)>, test: V -> bool, n: nat) {
    n <= |pairs| && (forall i :: 0 <= i < n ==> test(pairs[i].1)) && (n < |pairs| ==> !test(pairs[n].1))
  }

  lemma {:induction false} PairsIff<V>(pairs: seq<(string, V)>, test: V -> bool)
    ensures ReadPairs(pairs, test).Some? <==> forall i :: 0 <= i < |pairs| ==> test(pairs[i].1)
  {
    if pairs != [] {
      var before := pairs[..|pairs| - 1];
      PairsIff(before, test);
      assert forall i :: 0 <= i < |before| ==> before[i] == pairs[i];
    }
  }

  /** A key is read with the value of its last pair. */
  lemma {:induction false} LastPairWins<V>(pairs: seq<(string, V)>, test: V -> bool, i: nat)
    requires i < |pairs| && ReadPairs(pairs, test).Some?
    requires forall j :: i < j < |pairs| ==> pairs[j].0 != pairs[i].0
    ensures JsMap.Get(ReadPairs(pairs, test).value, pairs[i].0) == Some(pairs[i].1)
  {
    if i < |pairs| - 1 {
      var before := pairs[..|pairs| - 1];
      assert before[i] == pairs[i];
      LastPairWins(before, test, i);
    }
  }

  lemma {:induction false} OnlyPairs<V>(pairs: seq<(string, V)>, test: V -> bool, k: string)
    requires ReadPairs(pairs, test).Some?
    ensures k in ReadPairs(pairs, test).value.vals <==> exists i :: 0 <= i < |pairs| && pairs[i].0 == k
  {
    if pairs != [] {
      var before := pairs[..|pairs| - 1];
      OnlyPairs(before, test, k);
      assert forall i :: 0 <= i < |before| ==> before[i] == pairs[i];
    }
  }

  lemma NothingToRead<V>(test: V -> bool)
    ensures ReadPairs([], test) == Some(PairsUpTo([], test))
  {
  }

  lemma OneMorePair<V>(pairs: seq<(string, V)>, test: V -> bool)
    requires pairs != []
    ensures var before, (k, v) := pairs[..|pairs| - 1], pairs[|pairs| - 1];
            && (ReadPairs(before, test).Some? && test(v) ==>
                  && ReadPairs(pairs, test) == Some(JsMap.Set(ReadPairs(before, test).value, k, v))
                  && PairsUpTo(pairs, test) == JsMap.Set(PairsUpTo(before, test), k, v))
            && (!(ReadPairs(before, test).Some? && test(v)) ==> PairsUpTo(pairs, test) == PairsUpTo(before, test))
  {
    hide JsMap.OrderedMap.Valid, JsMap.Distinct;
  }

  /** What a refused list leaves is what the part before its first refused pair reads. */
  lemma {:induction false} PairsLeft<V>(pairs: seq<(string, V)>, test: V -> bool, n: nat)
    requires PassesUpTo(pairs, test, n)
    ensures ReadPairs(pairs, test).Some? <==> n == |pairs|
    ensures ReadPairs(pairs[..n], test) == Some(PairsUpTo(pairs, test))
    decreases |pairs|
  {
    hide ReadPairs, PairsUpTo, JsMap.OrderedMap.Valid, JsMap.Distinct;
    PairsIff(pairs, test);
    if pairs == [] {
      NothingToRead(test);
    } else {
      var last := |pairs| - 1;
      var before := pairs[..last];
      assert forall i :: 0 <= i < last ==> before[i] == pairs[i];
      PairsIff(before, test);
      OneMorePair(pairs, test);
      if n == |pairs| {
        PairsLeft(before, test, last);
        assert pairs[..n] == pairs && before[..last] == before;
      } else {
        PairsLeft(before, test, n);
        assert before[..n] == pairs[..n];
      }
    }
  }

  /* ----- the replies ----- */

  /** An entry as a snapshot may hold it. */
  predicate SoundEntry(e: IdempotencyEntry) {
    && 1 <= |e.cacheKey| <= 512 && (forall c :: c in e.cacheKey ==> c >= ' ' && c != '\U{7f}')
    && (e.fingerprint.Some? ==>
          |e.fingerprint.value| <= 2048 && forall c :: c in e.fingerprint.value ==> c >= ' ' && c != '\U{7f}')
    && !(e.value == None && !e.tombstone)
  }

  lemma ControlFreeIff(s: string)
    ensures ControlFree(s) <==> forall c :: c in s ==> c >= ' ' && c != '\U{7f}'
  {
    assert (forall c :: c in s ==> !IsControl(c)) <==> ControlFree(s);
  }

  lemma EntryIff(e: IdempotencyEntry)
    ensures ValidEntry(e) <==> SoundEntry(e)
  {
    hide ControlFree;
    ControlFreeIff(e.cacheKey);
    if e.fingerprint.Some? {
      ControlFreeIff(e.fingerprint.value);
    }
  }

  lemma {:induction false} RepliesIff(entries: seq<IdempotencyEntry>)
    ensures ReadReplays(entries).Some? <==> forall i :: 0 <= i < |entries| ==> SoundEntry(entries[i])
  {
    hide ValidEntry, SoundEntry, WithEntry;
    if entries != [] {
      var before := entries[..|entries| - 1];
      RepliesIff(before);
      EntryIff(entries[|entries| - 1]);
      assert forall i :: 0 <= i < |before| ==> before[i] == entries[i];
    }
  }

  predicate SoundUpTo(entries: seq<IdempotencyEntry>, n: nat) {
    n <= |entries| && (forall i :: 0 <= i < n ==> SoundEntry(entries[i]))
    && (n < |entries| ==> !SoundEntry(entries[n]))
  }

  lemma {:induction false} RepliesLeft(entries: seq<IdempotencyEntry>, n: nat)
    requires SoundUpTo(entries, n)
    ensures ReadReplays(entries[..n]) == Some(ReplaysUpTo(entries))
    decreases |entries|
  {
    hide ValidEntry, SoundEntry, WithEntry;
    RepliesIff(entries);
    if entries != [] {
      var last := |entries| - 1;
      var before := entries[..last];
      assert forall i :: 0 <= i < last ==> before[i] == entries[i];
      RepliesIff(before);
      EntryIff(entries[last]);
      if n == |entries| {
        RepliesLeft(before, last);
        assert entries[..n] == entries && before[..last] == before;
      } else {
        RepliesLeft(before, n);
        assert before[..n] == entries[..n];
      }
    }
  }

  /* ----- the values in the pairs ----- */

  /** 64 hexadecimal digits */
  predicate SoundHash(h: string) {
    |h| == 64 && forall c :: c in h ==> c in "0123456789abcdef"
  }

  /** A whole number JavaScript holds exactly. */
  predicate SafeCount(n: int) {
    0 <= n < 0x20_0000_0000_0000
  }

  predicate SoundGrace(g: Grace) {
    SoundHash(g.hash) && SafeCount(g.expiresAt)
  }

  predicate SoundWindow(w: T.Window) {
    SafeCount(w.startMs) && SafeCount(w.requests) && SafeCount(w.concurrent)
  }

  lemma HexIff(c: char)
    ensures Hex(c) <==> c in "0123456789abcdef"
  {
    var all := "0123456789abcdef";
    assert all[0] == '0' && all[1] == '1' && all[2] == '2' && all[3] == '3' && all[4] == '4' && all[5] == '5'
           && all[6] == '6' && all[7] == '7' && all[8] == '8' && all[9] == '9' && all[10] == 'a' && all[11] == 'b'
           && all[12] == 'c' && all[13] == 'd' && all[14] == 'e' && all[15] == 'f';
  }

  lemma HashIff(h: string)
    ensures IsHash(h) <==> SoundHash(h)
  {
    hide Hex;
    forall c: char
      ensures Hex(c) <==> c in "0123456789abcdef"
    {
      HexIff(c);
    }
    if SoundHash(h) {
      assert forall i :: 0 <= i < |h| ==> h[i] in h;
    }
  }

  lemma ValuesIff()
    ensures forall h :: IsHash(h) <==> SoundHash(h)
    ensures forall g :: ValidGrace(g) <==> SoundGrace(g)
    ensures forall w :: ValidWindow(w) <==> SoundWindow(w)
  {
    hide IsHash, SoundHash;
    forall h
      ensures IsHash(h) <==> SoundHash(h)
    {
      HashIff(h);
    }
  }

  /* ----- the whole snapshot ----- */

  /** Every list carries ids, each once. */
  ghost predicate AllNamed(p: Snapshot) {
    && Named(p.tenants, (t: Tenant) => t.tenantId) && Named(p.members, (m: Member) => m.memberId)
    && Named(p.projects, (x: Project) => x.projectId) && Named(p.environments, (e: Environment) => e.environmentId)
    && Named(p.quotas, (q: Quota) => q.quotaPolicyId) && Named(p.apiKeys, (k: ApiKey) => k.apiKeyId)
    && Named(p.usage, (u: Usage) => u.usageRecordId) && Named(p.audits, (a: Audit) => a.auditEventId)
    && Named(p.outbox, (e: Outgoing) => e.eventId)
  }

  predicate HasTenant(p: Snapshot, id: string) {
    exists t :: t in p.tenants && t.tenantId == id
  }

  predicate HasProject(p: Snapshot, id: string) {
    exists x :: x in p.projects && x.projectId == id
  }

  predicate HasEnvironment(p: Snapshot, id: string) {
    exists e :: e in p.environments && e.environmentId == id
  }

  predicate HasQuota(p: Snapshot, id: string) {
    exists q :: q in p.quotas && q.quotaPolicyId == id
  }

  /** Whatever a record refers to is in the snapshot. */
  predicate Linked(p: Snapshot) {
    && (forall x :: x in p.projects ==> HasTenant(p, x.tenantId))
    && (forall m :: m in p.members ==> HasTenant(p, m.tenantId))
    && (forall e :: e in p.environments ==>
          HasTenant(p, e.tenantId) && HasProject(p, e.projectId) && HasQuota(p, e.quotaPolicyId))
    && (forall k :: k in p.apiKeys ==>
          HasTenant(p, k.tenantId) && HasProject(p, k.projectId) && HasEnvironment(p, k.environmentId))
  }

  lemma NamedTables(p: Snapshot)
    ensures AllNamed(p) <==>
              && TenantsIn(p).Some? && MembersIn(p).Some? && ProjectsIn(p).Some? && EnvironmentsIn(p).Some?
              && QuotasIn(p).Some? && ApiKeysIn(p).Some? && LogsIn(p).Some?
  {
    hide ReadTable, Named, Holds;
    TableIff(p.tenants, (t: Tenant) => t.tenantId);
    TableIff(p.members, (m: Member) => m.memberId);
    TableIff(p.projects, (x: Project) => x.projectId);
    TableIff(p.environments, (e: Environment) => e.environmentId);
    TableIff(p.quotas, (q: Quota) => q.quotaPolicyId);
    TableIff(p.apiKeys, (k: ApiKey) => k.apiKeyId);
    TableIff(p.usage, (u: Usage) => u.usageRecordId);
    TableIff(p.audits, (a: Audit) => a.auditEventId);
    TableIff(p.outbox, (e: Outgoing) => e.eventId);
  }

  lemma TenantIff(p: Snapshot, id: string)
    requires TenantsIn(p).Some?
    ensures id in TenantsIn(p).value.vals <==> HasTenant(p, id)
  {
    hide ReadTable, Named, Holds, JsMap.OrderedMap.Valid, JsMap.Distinct;
    TableIff(p.tenants, (t: Tenant) => t.tenantId);
    IdIff(p.tenants, (t: Tenant) => t.tenantId, id);
  }

  lemma ProjectIff(p: Snapshot, id: string)
    requires ProjectsIn(p).Some?
    ensures id in ProjectsIn(p).value.vals <==> HasProject(p, id)
    ensures id in ProjectsIn(p).value.vals ==> ProjectsIn(p).value.vals[id] in p.projects
    ensures forall x :: x in p.projects ==> JsMap.Get(ProjectsIn(p).value, x.projectId) == Some(x)
  {
    hide ReadTable, Named, Holds, JsMap.OrderedMap.Valid, JsMap.Distinct;
    TableIff(p.projects, (x: Project) => x.projectId);
    IdIff(p.projects, (x: Project) => x.projectId, id);
  }

  lemma EnvironmentIff(p: Snapshot, id: string)
    requires EnvironmentsIn(p).Some?
    ensures id in EnvironmentsIn(p).value.vals <==> HasEnvironment(p, id)
    ensures id in EnvironmentsIn(p).value.vals ==> EnvironmentsIn(p).value.vals[id] in p.environments
    ensures forall e :: e in p.environments ==> JsMap.Get(EnvironmentsIn(p).value, e.environmentId) == Some(e)
  {
    hide ReadTable, Named, Holds, JsMap.OrderedMap.Valid, JsMap.Distinct;
    TableIff(p.environments, (e: Environment) => e.environmentId);
    IdIff(p.environments, (e: Environment) => e.environmentId, id);
  }

  lemma QuotaIff(p: Snapshot, id: string)
    requires QuotasIn(p).Some?
    ensures id in QuotasIn(p).value.vals <==> HasQuota(p, id)
  {
    hide ReadTable, Named, Holds, JsMap.OrderedMap.Valid, JsMap.Distinct;
    TableIff(p.quotas, (q: Quota) => q.quotaPolicyId);
    IdIff(p.quotas, (q: Quota) => q.quotaPolicyId, id);
  }

  lemma MembersAre(p: Snapshot, id: string)
    requires MembersIn(p).Some?
    ensures id in MembersIn(p).value.vals ==> MembersIn(p).value.vals[id] in p.members
    ensures forall m :: m in p.members ==> JsMap.Get(MembersIn(p).value, m.memberId) == Some(m)
  {
    hide ReadTable, Named, Holds, JsMap.OrderedMap.Valid, JsMap.Distinct;
    TableIff(p.members, (m: Member) => m.memberId);
    IdIff(p.members, (m: Member) => m.memberId, id);
  }

  lemma KeysAre(p: Snapshot, id: string)
    requires ApiKeysIn(p).Some?
    ensures id in ApiKeysIn(p).value.vals ==> ApiKeysIn(p).value.vals[id] in p.apiKeys
    ensures forall k :: k in p.apiKeys ==> JsMap.Get(ApiKeysIn(p).value, k.apiKeyId) == Some(k)
  {
    hide ReadTable, Named, Holds, JsMap.OrderedMap.Valid, JsMap.Distinct;
    TableIff(p.apiKeys, (k: ApiKey) => k.apiKeyId);
    IdIff(p.apiKeys, (k: ApiKey) => k.apiKeyId, id);
  }

  ghost predicate Refers(p: Snapshot)
    requires TenantsIn(p).Some? && MembersIn(p).Some? && ProjectsIn(p).Some? && EnvironmentsIn(p).Some?
    requires QuotasIn(p).Some? && ApiKeysIn(p).Some?
  {
    References(TenantsIn(p).value.vals, MembersIn(p).value.vals, ProjectsIn(p).value.vals,
               EnvironmentsIn(p).value.vals, QuotasIn(p).value.vals, ApiKeysIn(p).value.vals)
  }

  lemma ReferredIsLinked(p: Snapshot)
    requires TenantsIn(p).Some? && MembersIn(p).Some? && ProjectsIn(p).Some? && EnvironmentsIn(p).Some?
    requires QuotasIn(p).Some? && ApiKeysIn(p).Some? && Refers(p)
    ensures Linked(p)
  {
    hide TenantsIn, MembersIn, ProjectsIn, EnvironmentsIn, QuotasIn, ApiKeysIn, HasTenant, HasProject, HasEnvironment,
         HasQuota, JsMap.OrderedMap.Valid, JsMap.Distinct;
    forall x | x in p.projects
      ensures HasTenant(p, x.tenantId)
    {
      ProjectIff(p, x.projectId);
      TenantIff(p, x.tenantId);
    }
    forall m | m in p.members
      ensures HasTenant(p, m.tenantId)
    {
      MembersAre(p, m.memberId);
      TenantIff(p, m.tenantId);
    }
    forall e | e in p.environments
      ensures HasTenant(p, e.tenantId) && HasProject(p, e.projectId) && HasQuota(p, e.quotaPolicyId)
    {
      EnvironmentIff(p, e.environmentId);
      TenantIff(p, e.tenantId);
      ProjectIff(p, e.projectId);
      QuotaIff(p, e.quotaPolicyId);
    }
    forall k | k in p.apiKeys
      ensures HasTenant(p, k.tenantId) && HasProject(p, k.projectId) && HasEnvironment(p, k.environmentId)
    {
      KeysAre(p, k.apiKeyId);
      TenantIff(p, k.tenantId);
      ProjectIff(p, k.projectId);
      EnvironmentIff(p, k.environmentId);
    }
  }

  lemma LinkedIsReferred(p: Snapshot)
    requires TenantsIn(p).Some? && MembersIn(p).Some? && ProjectsIn(p).Some? && EnvironmentsIn(p).Some?
    requires QuotasIn(p).Some? && ApiKeysIn(p).Some? && Linked(p)
    ensures Refers(p)
  {
    hide TenantsIn, MembersIn, ProjectsIn, EnvironmentsIn, QuotasIn, ApiKeysIn, HasTenant, HasProject, HasEnvironment,
         HasQuota, JsMap.OrderedMap.Valid, JsMap.Distinct;
    var projects, environments := ProjectsIn(p).value.vals, EnvironmentsIn(p).value.vals;
    var members, apiKeys := MembersIn(p).value.vals, ApiKeysIn(p).value.vals;
    forall k | k in projects
      ensures projects[k].tenantId in TenantsIn(p).value.vals
    {
      ProjectIff(p, k);
      TenantIff(p, projects[k].tenantId);
    }
    forall k | k in members
      ensures members[k].tenantId in TenantsIn(p).value.vals
    {
      MembersAre(p, k);
      TenantIff(p, members[k].tenantId);
    }
    forall k | k in environments
      ensures environments[k].tenantId in TenantsIn(p).value.vals && environments[k].projectId in projects
      ensures environments[k].quotaPolicyId in QuotasIn(p).value.vals
    {
      EnvironmentIff(p, k);
      TenantIff(p, environments[k].tenantId);
      ProjectIff(p, environments[k].projectId);
      QuotaIff(p, environments[k].quotaPolicyId);
    }
    forall k | k in apiKeys
      ensures apiKeys[k].tenantId in TenantsIn(p).value.vals && apiKeys[k].projectId in projects
      ensures apiKeys[k].environmentId in environments
    {
      KeysAre(p, k);
      TenantIff(p, apiKeys[k].tenantId);
      ProjectIff(p, apiKeys[k].projectId);
      EnvironmentIff(p, apiKeys[k].environmentId);
    }
  }

  /** Main result: the tables of a snapshot are accepted exactly when every record has an id of its own and whatever it
      refers to is there. */
  lemma TablesIff(p: Snapshot)
    ensures TablesAccepted(p) <==> AllNamed(p) && Linked(p)
  {
    hide TenantsIn, MembersIn, ProjectsIn, EnvironmentsIn, QuotasIn, ApiKeysIn, LogsIn, References, AllNamed, Linked;
    NamedTables(p);
    if AllNamed(p) {
      if Linked(p) {
        LinkedIsReferred(p);
      } else if TablesAccepted(p) {
        ReferredIsLinked(p);
      }
    }
  }

  /** Main result: any snapshot whatever is restored exactly when its tables are accepted, its hashes are 64 hexadecimal
      digits, its times and counts are safe whole numbers, and its replies have keys and fingerprints that fit. */
  lemma RestoreIff(p: Snapshot)
    ensures Restore(p).Some? <==>
              && AllNamed(p) && Linked(p)
              && (forall i :: 0 <= i < |p.secretHashes| ==> SoundHash(p.secretHashes[i].1))
              && (forall i :: 0 <= i < |p.graceHashes| ==> SoundGrace(p.graceHashes[i].1))
              && (forall i :: 0 <= i < |p.tokenWindows| ==> SoundWindow(p.tokenWindows[i].1))
              && (forall i :: 0 <= i < |p.idempotency| ==> SoundEntry(p.idempotency[i]))
  {
    hide TablesAccepted, AllNamed, Linked, ReadPairs, ReadReplays, SoundHash, SoundGrace, SoundWindow, SoundEntry,
         IsHash, ValidGrace, ValidWindow, WithTables;
    TablesIff(p);
    ValuesIff();
    PairsIff(p.secretHashes, (h: string) => IsHash(h));
    PairsIff(p.graceHashes, (g: Grace) => ValidGrace(g));
    PairsIff(p.tokenWindows, (w: T.Window) => ValidWindow(w));
    RepliesIff(p.idempotency);
  }

  /** The places of the first refused pair or entry of each list, or their ends. */
  datatype Stops = Stops(secrets: nat, graces: nat, windows: nat, replies: nat)

  ghost predicate StopsAt(p: Snapshot, at: Stops) {
    && PassesUpTo(p.secretHashes, (h: string) => IsHash(h), at.secrets)
    && PassesUpTo(p.graceHashes, (g: Grace) => ValidGrace(g), at.graces)
    && PassesUpTo(p.tokenWindows, (w: T.Window) => ValidWindow(w), at.windows)
    && SoundUpTo(p.idempotency, at.replies)
  }

  lemma {:induction false} FirstStop<V>(pairs: seq<(string, V)>, test: V -> bool) returns (n: nat)
    ensures PassesUpTo(pairs, test, n)
  {
    n := 0;
    if pairs != [] && test(pairs[0].1) {
      n := FirstStop(pairs[1..], test);
      n := n + 1;
    }
  }

  lemma {:induction false} FirstUnsound(entries: seq<IdempotencyEntry>) returns (n: nat)
    ensures SoundUpTo(entries, n)
  {
    n := 0;
    if entries != [] && SoundEntry(entries[0]) {
      n := FirstUnsound(entries[1..]);
      n := n + 1;
    }
  }

  /** Every snapshot stops somewhere. */
  lemma SomeStops(p: Snapshot) returns (at: Stops)
    ensures StopsAt(p, at)
  {
    var secrets := FirstStop(p.secretHashes, (h: string) => IsHash(h));
    var graces := FirstStop(p.graceHashes, (g: Grace) => ValidGrace(g));
    var windows := FirstStop(p.tokenWindows, (w: T.Window) => ValidWindow(w));
    var replies := FirstUnsound(p.idempotency);
    at := Stops(secrets, graces, windows, replies);
  }

  /** The snapshot up to the first place where reading it in order is refused. */
  function CutAt(p: Snapshot, at: Stops): Snapshot
    requires at.secrets <= |p.secretHashes| && at.graces <= |p.graceHashes| && at.windows <= |p.tokenWindows|
    requires at.replies <= |p.idempotency|
  {
    var graces := if at.secrets < |p.secretHashes| then [] else p.graceHashes[..at.graces];
    var windows := if |graces| < |p.graceHashes| then [] else p.tokenWindows[..at.windows];
    p.(secretHashes := p.secretHashes[..at.secrets], graceHashes := graces,
       tokenWindows := if at.secrets < |p.secretHashes| then [] else windows,
       idempotency := if at.secrets < |p.secretHashes| || at.graces < |p.graceHashes| || at.windows < |p.tokenWindows|
                      then [] else p.idempotency[..at.replies])
  }

  lemma NoPairs()
    ensures ReadPairs([], (h: string) => IsHash(h)) == Some(JsMap.Empty())
    ensures ReadPairs([], (g: Grace) => ValidGrace(g)) == Some(JsMap.Empty())
    ensures ReadPairs([], (w: T.Window) => ValidWindow(w)) == Some(JsMap.Empty())
    ensures ReadReplays([]) == Some(Replays(JsMap.Empty(), map[], JsMap.Empty()))
  {
  }

  lemma CutTables(p: Snapshot, at: Stops)
    requires TablesAccepted(p) && StopsAt(p, at)
    ensures TablesAccepted(CutAt(p, at))
    ensures forall rest :: WithTables(CutAt(p, at), rest) == WithTables(p, rest)
  {
    hide ReadTable, References;
  }

  lemma NothingElse(p: Snapshot)
    requires TablesAccepted(p)
    ensures var t := WithTables(p, Initial());
            && t.secretHashes == JsMap.Empty() && t.graceHashes == JsMap.Empty() && t.tokenWindows == JsMap.Empty()
            && t.idempotency == JsMap.Empty() && t.fingerprints == map[] && t.tombstones == JsMap.Empty()
  {
    hide TenantsIn, MembersIn, ProjectsIn, EnvironmentsIn, QuotasIn, ApiKeysIn, LogsIn, References;
  }

  /** Main result: a restore that is refused after its tables were accepted leaves what restoring the part before the
      first refused entry would have left. */
  lemma LeftBehind(p: Snapshot, at: Stops)
    requires TablesAccepted(p) && StopsAt(p, at)
    ensures Restore(CutAt(p, at)) == Some(ReadUpTo(p))
  {
    hide TablesAccepted, ReadPairs, ReadReplays, PairsUpTo, ReplaysUpTo, IsHash, ValidGrace, ValidWindow, WithTables,
         SoundEntry, JsMap.OrderedMap.Valid, JsMap.Distinct;
    CutTables(p, at);
    NothingElse(p);
    NoPairs();
    PairsLeft(p.secretHashes, (h: string) => IsHash(h), at.secrets);
    PairsLeft(p.graceHashes, (g: Grace) => ValidGrace(g), at.graces);
    PairsLeft(p.tokenWindows, (w: T.Window) => ValidWindow(w), at.windows);
    RepliesLeft(p.idempotency, at.replies);
  }
}
