/** The store as the object its handlers share: maps updated in place, each method one step on the state they make up.
    */
module LiveStore {
  import opened Common
  import opened ColonKeys
  import opened S = PlatformStore
  import JsMap
  import T = TokenQuota

  lemma RejectedStays<V>(values: seq<V>, idOf: V -> string, n: nat)
    requires n <= |values| && ReadTable(values[..n], idOf).None?
    ensures ReadTable(values, idOf).None?
    decreases |values| - n
  {
    if n == |values| {
      assert values[..n] == values;
    } else {
      assert values[..n + 1][..n] == values[..n];
      RejectedStays(values, idOf, n + 1);
    }
  }

  /** The loop over one list of a snapshot. */
  method ReadList<V>(values: seq<V>, idOf: V -> string) returns (r: Option<JsMap.Map<string, V>>)
    ensures r == ReadTable(values, idOf)
  {
    var m := JsMap.Empty();
    for i := 0 to |values|
      invariant ReadTable(values[..i], idOf) == Some(m)
    {
      var id := idOf(values[i]);
      assert values[..i + 1][..i] == values[..i] && values[..i + 1][i] == values[i];
      if id == "" || id in m.vals {
        RejectedStays(values, idOf, i + 1);
        return None;
      }
      m := JsMap.Set(m, id, values[i]);
    }
    assert values[..|values|] == values;
    r := Some(m);
  }

  lemma RefusedStays<V>(pairs: seq<(string, V)>, test: V -> bool, n: nat)
    requires n <= |pairs| && ReadPairs(pairs[..n], test).None?
    ensures ReadPairs(pairs, test).None? && PairsUpTo(pairs, test) == PairsUpTo(pairs[..n], test)
    decreases |pairs| - n
  {
    if n == |pairs| {
      assert pairs[..n] == pairs;
    } else {
      assert pairs[..n + 1][..n] == pairs[..n];
      RefusedStays(pairs, test, n + 1);
    }
  }

  method ReadEntries<V>(pairs: seq<(string, V)>, test: V -> bool) returns (ok: bool, m: JsMap.Map<string, V>)
    ensures ok <==> ReadPairs(pairs, test).Some?
    ensures m == PairsUpTo(pairs, test)
  {
    m := JsMap.Empty();
    for i := 0 to |pairs|
      invariant ReadPairs(pairs[..i], test).Some? && m == PairsUpTo(pairs[..i], test)
    {
      assert pairs[..i + 1][..i] == pairs[..i] && pairs[..i + 1][i] == pairs[i];
      if !test(pairs[i].1) {
        RefusedStays(pairs, test, i + 1);
        return false, m;
      }
      m := JsMap.Set(m, pairs[i].0, pairs[i].1);
    }
    assert pairs[..|pairs|] == pairs;
    ok := true;
  }

  lemma InvalidStays(entries: seq<IdempotencyEntry>, n: nat)
    requires n <= |entries| && ReadReplays(entries[..n]).None?
    ensures ReadReplays(entries).None? && ReplaysUpTo(entries) == ReplaysUpTo(entries[..n])
    decreases |entries| - n
  {
    if n == |entries| {
      assert entries[..n] == entries;
    } else {
      assert entries[..n + 1][..n] == entries[..n];
      InvalidStays(entries, n + 1);
    }
  }

  lemma FirstStays(keys: seq<string>, vals: map<string, Usage>, dedupeKey: string, n: nat)
    requires n <= |keys| && FirstUsage(keys[..n], vals, dedupeKey).Some?
    ensures FirstUsage(keys, vals, dedupeKey) == FirstUsage(keys[..n], vals, dedupeKey)
    decreases |keys| - n
  {
    if n == |keys| {
      assert keys[..n] == keys;
    } else {
      assert keys[..n + 1][..n] == keys[..n];
      FirstStays(keys, vals, dedupeKey, n + 1);
    }
  }

  lemma HasHash(s: State, i: nat)
    requires i < |s.secretHashes.keys|
    ensures s.secretHashes.keys[i] in s.secretHashes.vals
  {
    assert s.secretHashes.keys[i] in s.secretHashes.keys;
  }

  lemma MatchStays(s: State, keys: seq<string>, supplied: string, now: int, n: nat)
    requires n <= |keys| && FirstMatch(s, keys[..n], supplied, now).Some?
    ensures FirstMatch(s, keys, supplied, now) == FirstMatch(s, keys[..n], supplied, now)
    decreases |keys| - n
  {
    if n == |keys| {
      assert keys[..n] == keys;
    } else {
      assert keys[..n + 1][..n] == keys[..n];
      MatchStays(s, keys, supplied, now, n + 1);
    }
  }

  lemma {:induction false} AllPairs<V>(pairs: seq<(string, V)>, test: V -> bool)
    requires ReadPairs(pairs, test).Some?
    ensures PairsUpTo(pairs, test) == ReadPairs(pairs, test).value
  {
    if pairs != [] {
      AllPairs(pairs[..|pairs| - 1], test);
    }
  }

  lemma {:induction false} AllReplays(entries: seq<IdempotencyEntry>)
    requires ReadReplays(entries).Some?
    ensures ReplaysUpTo(entries) == ReadReplays(entries).value
  {
    if entries != [] {
      AllReplays(entries[..|entries| - 1]);
    }
  }

  lemma ExtrasRead(snapshot: Snapshot)
    ensures SecretsIn(snapshot).Some? ==> SecretsUpTo(snapshot) == SecretsIn(snapshot).value
    ensures GracesIn(snapshot).Some? ==> GracesUpTo(snapshot) == GracesIn(snapshot).value
    ensures WindowsIn(snapshot).Some? ==> WindowsUpTo(snapshot) == WindowsIn(snapshot).value
  {
    hide IsHash, ValidGrace, ReadPairs, PairsUpTo;
    if SecretsIn(snapshot).Some? {
      AllPairs(snapshot.secretHashes, (h: string) => IsHash(h));
    }
    if GracesIn(snapshot).Some? {
      AllPairs(snapshot.graceHashes, (g: Grace) => ValidGrace(g));
    }
    if WindowsIn(snapshot).Some? {
      AllPairs(snapshot.tokenWindows, (w: T.Window) => ValidWindow(w));
    }
  }

  /** A snapshot that is accepted is read to its end. */
  lemma WholeRead(snapshot: Snapshot)
    requires Restore(snapshot).Some?
    ensures ReadUpTo(snapshot) == Restore(snapshot).value
  {
    hide SecretsIn, GracesIn, WindowsIn, SecretsUpTo, GracesUpTo, WindowsUpTo, ReadReplays, ReplaysUpTo,
         TablesAccepted, WithTables, JsMap.OrderedMap.Valid, JsMap.Distinct;
    ExtrasRead(snapshot);
    AllReplays(snapshot.idempotency);
  }

  method ReadLogs(snapshot: Snapshot) returns (r: Option<Logs>)
    ensures r == LogsIn(snapshot)
  {
    hide ReadTable;
    var us := ReadList(snapshot.usage, (u: Usage) => u.usageRecordId);
    var log := ReadList(snapshot.audits, (a: Audit) => a.auditEventId);
    var es := ReadList(snapshot.outbox, (e: Outgoing) => e.eventId);
    r := if us.Some? && log.Some? && es.Some? then Some(Logs(us.value, log.value, es.value)) else None;
  }

  class PlatformStore {
    var tenants: JsMap.Map<string, Tenant>
    var members: JsMap.Map<string, Member>
    var projects: JsMap.Map<string, Project>
    var environments: JsMap.Map<string, Environment>
    var quotas: JsMap.Map<string, Quota>
    var apiKeys: JsMap.Map<string, ApiKey>
    var secretHashes: JsMap.Map<string, string>
    var graceHashes: JsMap.Map<string, Grace>
    var tokenWindows: JsMap.Map<string, T.Window>
    var idempotency: JsMap.Map<string, Reply>
    var fingerprints: map<string, string>
    var tombstones: JsMap.Map<string, ()>
    var usage: JsMap.Map<string, Usage>
    var audits: JsMap.Map<string, Audit>
    var outbox: JsMap.Map<string, Outgoing>
    const graceMs: int

    ghost function View(): State
      reads this
    {
      State(tenants, members, projects, environments, quotas, apiKeys, secretHashes, graceHashes, tokenWindows,
            idempotency, fingerprints, tombstones, Logs(usage, audits, outbox))
    }

    constructor (graceMs: int)
      requires 0 <= graceMs <= 86400000
      ensures View() == Initial() && this.graceMs == graceMs
    {
      this.graceMs := graceMs;
      tenants, members, projects := JsMap.Empty(), JsMap.Empty(), JsMap.Empty();
      environments, quotas, apiKeys := JsMap.Empty(), JsMap.Empty(), JsMap.Empty();
      secretHashes, graceHashes, tokenWindows := JsMap.Empty(), JsMap.Empty(), JsMap.Empty();
      idempotency, fingerprints, tombstones := JsMap.Empty(), map[], JsMap.Empty();
      usage, audits, outbox := JsMap.Empty(), JsMap.Empty(), JsMap.Empty();
    }

    ghost predicate DoneAs(before: State, expected: Result<(State, Reply), Error>, r: Result<Reply, Error>)
      reads this
    {
      match expected
      case Ok((s, reply)) => View() == s && r == Ok(reply)
      case Err(e) => View() == before && r == Err(e)
    }

    method CachedReply(kind: string, key: Option<string>, fingerprint: Option<string>)
        returns (r: Result<Option<Reply>, Error>)
      ensures r == Cached(View(), kind, key, fingerprint)
    {
      if key == None {
        return Ok(None);
      }
      var cacheKey := CacheKey(kind, key.value);
      if cacheKey in tombstones.vals {
        return Err(Conflict);
      }
      var cached := JsMap.Get(idempotency, cacheKey);
      if cached != None && fingerprint != None && FingerprintOf(fingerprints, cacheKey) != fingerprint {
        return Err(Conflict);
      }
      r := Ok(cached);
    }

    method SaveIdempotency(kind: string, key: Option<string>, value: Reply, fingerprint: Option<string>)
      modifies this`tombstones, this`idempotency, this`fingerprints
      ensures View() == Saved(old(View()), kind, key, value, fingerprint)
    {
      hide JsMap.OrderedMap.Valid, JsMap.Distinct;
      if key != None {
        var cacheKey := CacheKey(kind, key.value);
        tombstones := JsMap.Remove(tombstones, cacheKey);
        idempotency := JsMap.Set(idempotency, cacheKey, value);
        if fingerprint != None {
          fingerprints := fingerprints[cacheKey := fingerprint.value];
        }
      }
    }

    method SetTenant(x: Tenant)
      modifies this`tenants
      ensures View() == PutTenant(old(View()), x)
    {
      hide JsMap.OrderedMap.Valid, JsMap.Distinct;
      tenants := JsMap.Set(tenants, x.tenantId, x);
    }

    method SetMember(x: Member)
      modifies this`members
      ensures View() == PutMember(old(View()), x)
    {
      hide JsMap.OrderedMap.Valid, JsMap.Distinct;
      members := JsMap.Set(members, x.memberId, x);
    }

    method SetProject(x: Project)
      modifies this`projects
      ensures View() == PutProject(old(View()), x)
    {
      hide JsMap.OrderedMap.Valid, JsMap.Distinct;
      projects := JsMap.Set(projects, x.projectId, x);
    }

    method SetEnvironment(x: Environment)
      modifies this`environments
      ensures View() == PutEnvironment(old(View()), x)
      ensures environments == JsMap.Set(old(environments), x.environmentId, x)
    {
      hide JsMap.OrderedMap.Valid, JsMap.Distinct;
      environments := JsMap.Set(environments, x.environmentId, x);
    }

    method SetQuota(x: Quota)
      modifies this`quotas
      ensures View() == PutQuota(old(View()), x)
    {
      hide JsMap.OrderedMap.Valid, JsMap.Distinct;
      quotas := JsMap.Set(quotas, x.quotaPolicyId, x);
    }

    method Seed(scope: T.Scope, endpoint: string, now: int) returns (r: Environment)
      modifies this
      ensures View() == S.Seed(old(View()), scope, endpoint, now)
      ensures scope.environmentId in environments.vals && r == environments.vals[scope.environmentId]
    {
      hide JsMap.OrderedMap.Valid, JsMap.Distinct;
      if scope.environmentId in environments.vals {
        return environments.vals[scope.environmentId];
      }
      hide PutTenant, PutMember, PutProject, PutQuota;
      r := SeedEnvironment(scope, endpoint, now);
      SetTenant(SeedTenant(scope, now));
      SetMember(SeedMember(scope, now));
      SetProject(SeedProject(scope, now));
      SetEnvironment(r);
      SetQuota(Quota(r.quotaPolicyId, DefaultPolicy, now));
    }

    method CreateTenant(q: TenantInput, key: Option<string>, fingerprint: string, id: string, now: int)
        returns (r: Result<Reply, Error>)
      modifies this
      ensures DoneAs(old(View()), S.CreateTenant(old(View()), q, key, fingerprint, id, now), r)
    {
      hide JsMap.OrderedMap.Valid, JsMap.Distinct, Cached, Saved, NewTenant;
      var cached := CachedReply("tenant", key, Some(fingerprint));
      if cached.Err? {
        return Err(cached.error);
      }
      if cached.value != None {
        return Ok(cached.value.value);
      }
      var tenant := NewTenant(q, id, now);
      tenants := JsMap.Set(tenants, tenant.tenantId, tenant);
      SaveIdempotency("tenant", key, TenantReply(tenant), Some(fingerprint));
      r := Ok(TenantReply(tenant));
    }

    method CreateProject(q: ProjectInput, key: Option<string>, fingerprint: string, id: string, now: int)
        returns (r: Result<Reply, Error>)
      modifies this
      ensures DoneAs(old(View()), S.CreateProject(old(View()), q, key, fingerprint, id, now), r)
    {
      hide JsMap.OrderedMap.Valid, JsMap.Distinct, Cached, Saved, Scoped, NewProject;
      if q.tenantId !in tenants.vals {
        return Err(NotFound);
      }
      if tenants.vals[q.tenantId].status != Subscribed && tenants.vals[q.tenantId].status != Trial {
        return Err(AuthorizationFailed);
      }
      var scoped := Scoped(key, q.tenantId);
      var cached := CachedReply("project", scoped, Some(fingerprint));
      if cached.Err? {
        return Err(cached.error);
      }
      if cached.value != None {
        return Ok(cached.value.value);
      }
      if exists k :: k in projects.vals && projects.vals[k].tenantId == q.tenantId && projects.vals[k].slug == q.slug {
        return Err(Conflict);
      }
      var project := NewProject(q, id, now);
      projects := JsMap.Set(projects, project.projectId, project);
      SaveIdempotency("project", scoped, ProjectReply(project), Some(fingerprint));
      r := Ok(ProjectReply(project));
    }

    method CreateEnvironment(
      q: EnvironmentInput, key: Option<string>, fingerprint: string, id: string, quotaId: string, now: int)
        returns (r: Result<Reply, Error>)
      modifies this
      ensures DoneAs(old(View()), S.CreateEnvironment(old(View()), q, key, fingerprint, id, quotaId, now), r)
    {
      hide JsMap.OrderedMap.Valid, JsMap.Distinct, Cached, Saved, Scoped, Join, NewEnvironment;
      if q.projectId !in projects.vals || projects.vals[q.projectId].tenantId != q.tenantId {
        return Err(NotFound);
      }
      var scoped := Scoped(key, Join(q.tenantId, q.projectId));
      var cached := CachedReply("environment", scoped, Some(fingerprint));
      if cached.Err? {
        return Err(cached.error);
      }
      if cached.value != None {
        return Ok(cached.value.value);
      }
      var environment := NewEnvironment(q, projects.vals[q.projectId], id, quotaId, now);
      environments := JsMap.Set(environments, environment.environmentId, environment);
      quotas := JsMap.Set(quotas, environment.quotaPolicyId, Quota(environment.quotaPolicyId, DefaultPolicy, now));
      SaveIdempotency("environment", scoped, EnvironmentReply(environment), Some(fingerprint));
      r := Ok(EnvironmentReply(environment));
    }

    method CreateApiKey(
      scope: T.Scope, q: KeyInput, key: Option<string>, fingerprint: string, id: string, secret: Secret, now: int)
        returns (r: Result<Reply, Error>)
      modifies this
      ensures DoneAs(old(View()), S.CreateApiKey(old(View()), scope, q, key, fingerprint, id, secret, now), r)
    {
      hide JsMap.OrderedMap.Valid, JsMap.Distinct, Cached, Saved, Scoped, ScopeText, NewApiKey;
      if scope.environmentId !in environments.vals
         || environments.vals[scope.environmentId].projectId != scope.projectId
         || environments.vals[scope.environmentId].tenantId != scope.tenantId {
        return Err(NotFound);
      }
      var scoped := Scoped(key, ScopeText(scope));
      var cached := CachedReply("api-key", scoped, Some(fingerprint));
      if cached.Err? {
        return Err(cached.error);
      }
      if cached.value != None {
        return Ok(cached.value.value);
      }
      var metadata := NewApiKey(scope, q, id, secret, now);
      apiKeys := JsMap.Set(apiKeys, metadata.apiKeyId, metadata);
      secretHashes := JsMap.Set(secretHashes, metadata.apiKeyId, secret.hash);
      SaveIdempotency("api-key", scoped, IssuedReply(metadata, secret.text), Some(fingerprint));
      r := Ok(IssuedReply(metadata, secret.text));
    }

    method RotateApiKey(apiKeyId: string, key: Option<string>, secret: Secret, now: int)
        returns (r: Result<Reply, Error>)
      modifies this
      ensures DoneAs(old(View()), S.RotateApiKey(old(View()), apiKeyId, key, secret, graceMs, now), r)
    {
      hide JsMap.OrderedMap.Valid, JsMap.Distinct, Cached, Saved, Scoped;
      var scoped := Scoped(key, apiKeyId);
      var cached := CachedReply("api-key-rotate", scoped, None);
      if cached.Err? {
        return Err(cached.error);
      }
      if cached.value != None {
        return Ok(cached.value.value);
      }
      if apiKeyId !in apiKeys.vals {
        return Err(NotFound);
      }
      if apiKeys.vals[apiKeyId].status != KeyActive {
        return Err(Conflict);
      }
      var metadata := apiKeys.vals[apiKeyId];
      metadata := metadata.(keyPrefix := Prefix(secret.text), version := metadata.version + 1, createdAt := now);
      if apiKeyId in secretHashes.vals && graceMs > 0 {
        graceHashes := JsMap.Set(graceHashes, apiKeyId, Grace(secretHashes.vals[apiKeyId], now + graceMs));
      }
      apiKeys := JsMap.Set(apiKeys, metadata.apiKeyId, metadata);
      secretHashes := JsMap.Set(secretHashes, metadata.apiKeyId, secret.hash);
      SaveIdempotency("api-key-rotate", scoped, IssuedReply(metadata, secret.text), None);
      r := Ok(IssuedReply(metadata, secret.text));
    }

    method RevokeApiKey(apiKeyId: string, key: Option<string>, now: int) returns (r: Result<Reply, Error>)
      modifies this
      ensures DoneAs(old(View()), S.RevokeApiKey(old(View()), apiKeyId, key, now), r)
    {
      hide JsMap.OrderedMap.Valid, JsMap.Distinct, Cached, Saved, Scoped;
      var scoped := Scoped(key, apiKeyId);
      var cached := CachedReply("api-key-revoke", scoped, None);
      if cached.Err? {
        return Err(cached.error);
      }
      if cached.value != None {
        return Ok(cached.value.value);
      }
      if apiKeyId !in apiKeys.vals {
        return Err(NotFound);
      }
      var current := apiKeys.vals[apiKeyId];
      var metadata := current.(status := Revoked, revokedAt := Some(now), version := current.version + 1);
      apiKeys := JsMap.Set(apiKeys, metadata.apiKeyId, metadata);
      secretHashes := JsMap.Remove(secretHashes, apiKeyId);
      graceHashes := JsMap.Remove(graceHashes, apiKeyId);
      SaveIdempotency("api-key-revoke", scoped, RevokedReply(metadata), None);
      r := Ok(RevokedReply(metadata));
    }

    /** The loop stops at the first key whose hash matches, whatever comes of it. */
    method ResolveApiKeyCredential(supplied: string, now: int) returns (r: Option<Credential>)
      modifies this
      ensures (View(), r) == S.Resolve(old(View()), supplied, now)
    {
      hide JsMap.OrderedMap.Valid, JsMap.Distinct, Usable;
      for i := 0 to |secretHashes.keys|
        invariant View() == old(View())
        invariant FirstMatch(View(), secretHashes.keys[..i], supplied, now) == None
      {
        var id := secretHashes.keys[i];
        HasHash(View(), i);
        assert secretHashes.keys[..i + 1][..i] == secretHashes.keys[..i];
        var grace := JsMap.Get(graceHashes, id);
        var graceMatches := grace.Some? && grace.value.expiresAt > now && grace.value.hash == supplied;
        assert (secretHashes.vals[id] == supplied || graceMatches) == S.Matches(View(), id, supplied, now);
        if secretHashes.vals[id] == supplied || graceMatches {
          MatchStays(View(), secretHashes.keys, supplied, now, i + 1);
          if id !in apiKeys.vals || !Usable(apiKeys.vals[id], now) {
            return None;
          }
          var k := apiKeys.vals[id];
          apiKeys := JsMap.Set(apiKeys, id, k.(lastUsedAt := Some(now)));
          return Some(Credential(T.Scope(k.tenantId, k.projectId, k.environmentId), k.scopes));
        }
      }
      assert secretHashes.keys[..|secretHashes.keys|] == secretHashes.keys;
      r := None;
    }

    method CreateMember(
        tenantId: string, q: MemberInput, key: Option<string>, fingerprint: string, id: string, now: int)
        returns (r: Result<Reply, Error>)
      modifies this
      ensures DoneAs(old(View()), S.CreateMember(old(View()), tenantId, q, key, fingerprint, id, now), r)
    {
      hide JsMap.OrderedMap.Valid, JsMap.Distinct, Cached, Saved, Scoped, NewMember;
      if tenantId !in tenants.vals {
        return Err(NotFound);
      }
      var scoped := Scoped(key, tenantId);
      var cached := CachedReply("member", scoped, Some(fingerprint));
      if cached.Err? {
        return Err(cached.error);
      }
      if cached.value != None {
        return Ok(cached.value.value);
      }
      if exists k :: k in members.vals && members.vals[k].tenantId == tenantId && members.vals[k].subject == q.subject
                     && members.vals[k].status != Removed {
        return Err(Conflict);
      }
      var member := NewMember(tenantId, q, id, now);
      members := JsMap.Set(members, member.memberId, member);
      SaveIdempotency("member", scoped, MemberReply(member), Some(fingerprint));
      r := Ok(MemberReply(member));
    }

    method UpdateMember(memberId: string, q: MemberPatch, now: int) returns (r: Result<Reply, Error>)
      modifies this
      ensures DoneAs(old(View()), S.UpdateMember(old(View()), memberId, q, now), r)
    {
      hide JsMap.OrderedMap.Valid, JsMap.Distinct;
      if memberId !in members.vals {
        return Err(NotFound);
      }
      var updated := members.vals[memberId];
      if q.roles.Some? {
        updated := updated.(roles := JsMap.Unique(q.roles.value));
      }
      if q.status.Some? {
        updated := updated.(status := q.status.value);
      }
      updated := updated.(updatedAt := now, version := updated.version + 1);
      members := JsMap.Set(members, updated.memberId, updated);
      r := Ok(MemberReply(updated));
    }

    method UpdateEnvironment(environmentId: string, q: EnvironmentPatch, now: int) returns (r: Result<Reply, Error>)
      modifies this
      ensures DoneAs(old(View()), S.UpdateEnvironment(old(View()), environmentId, q, now), r)
    {
      hide JsMap.OrderedMap.Valid, JsMap.Distinct, Patched;
      if environmentId !in environments.vals {
        return Err(NotFound);
      }
      var current := environments.vals[environmentId];
      if current.version != q.version {
        return Err(Conflict);
      }
      if current.status == Retired {
        return Err(AuthorizationFailed);
      }
      var updated := Patched(current, q, now);
      environments := JsMap.Set(environments, updated.environmentId, updated);
      r := Ok(EnvironmentReply(updated));
    }

    /** recordUsage: the loop looks for the dedupe key among all records. */
    method RecordUsage(dedupeKey: string, body: string, id: string) returns (r: Usage)
      modifies this`usage
      ensures (Logs(usage, audits, outbox), r) == S.RecordUsage(old(View()).logs, dedupeKey, body, id)
    {
      for i := 0 to |usage.keys|
        invariant FirstUsage(usage.keys[..i], usage.vals, dedupeKey) == None
      {
        assert usage.keys[i] in usage.keys;
        assert usage.keys[..i + 1][..i] == usage.keys[..i];
        if usage.vals[usage.keys[i]].dedupeKey == dedupeKey {
          FirstStays(usage.keys, usage.vals, dedupeKey, i + 1);
          return usage.vals[usage.keys[i]];
        }
      }
      assert usage.keys[..|usage.keys|] == usage.keys;
      r := Usage(id, dedupeKey, body);
      usage := JsMap.Set(usage, id, r);
    }

    method AppendAudit(a: Audit, eventId: string)
      modifies this`audits, this`outbox
      ensures Logs(usage, audits, outbox) == S.AppendAudit(old(View()).logs, a, eventId)
    {
      audits := JsMap.Set(audits, a.auditEventId, a);
      outbox := JsMap.Set(outbox, eventId, OutgoingFor(a, eventId));
    }

    /** restore.  A snapshot whose tables are refused changes nothing; one refused later leaves what was read before the
        first entry that is refused. */
    method Restore(snapshot: Snapshot) returns (ok: bool)
      modifies this
      ensures ok <==> S.Restore(snapshot).Some?
      ensures View() == if TablesAccepted(snapshot) then ReadUpTo(snapshot) else old(View())
      ensures ok ==> View() == S.Restore(snapshot).value
    {
      hide JsMap.OrderedMap.Valid, JsMap.Distinct, TablesAccepted, TenantsIn, MembersIn, ProjectsIn, EnvironmentsIn,
           QuotasIn, ApiKeysIn, LogsIn, SecretsIn, GracesIn, WindowsIn, ReadReplays, SecretsUpTo, GracesUpTo,
           WindowsUpTo, ReplaysUpTo;
      if S.Restore(snapshot).Some? {
        WholeRead(snapshot);
      }
      ok := RestoreTables(snapshot);
      if ok {
        ok := RestoreExtras(snapshot);
      }
      if ok {
        ok := RestoreReplays(snapshot.idempotency);
      }
    }

    method Clear()
      modifies this
      ensures View() == Initial()
    {
      hide JsMap.OrderedMap.Valid, JsMap.Distinct;
      tenants, members, projects := JsMap.Empty(), JsMap.Empty(), JsMap.Empty();
      environments, quotas, apiKeys := JsMap.Empty(), JsMap.Empty(), JsMap.Empty();
      secretHashes, graceHashes, tokenWindows := JsMap.Empty(), JsMap.Empty(), JsMap.Empty();
      idempotency, fingerprints, tombstones := JsMap.Empty(), map[], JsMap.Empty();
      usage, audits, outbox := JsMap.Empty(), JsMap.Empty(), JsMap.Empty();
    }

    method TakeScopes(ts: JsMap.Map<string, Tenant>, ms: JsMap.Map<string, Member>, ps: JsMap.Map<string, Project>)
      modifies this`tenants, this`members, this`projects
      ensures View() == old(View()).(tenants := ts, members := ms, projects := ps)
    {
      hide JsMap.OrderedMap.Valid, JsMap.Distinct;
      tenants, members, projects := ts, ms, ps;
    }

    method TakeEnvironments(
        es: JsMap.Map<string, Environment>, qs: JsMap.Map<string, Quota>, ks: JsMap.Map<string, ApiKey>)
      modifies this`environments, this`quotas, this`apiKeys
      ensures View() == old(View()).(environments := es, quotas := qs, apiKeys := ks)
    {
      hide JsMap.OrderedMap.Valid, JsMap.Distinct;
      environments, quotas, apiKeys := es, qs, ks;
    }

    method TakeLogs(ls: Logs)
      modifies this`usage, this`audits, this`outbox
      ensures View() == old(View()).(logs := ls)
    {
      hide JsMap.OrderedMap.Valid, JsMap.Distinct;
      usage, audits, outbox := ls.usage, ls.audits, ls.outbox;
    }

    method RestoreTables(snapshot: Snapshot) returns (ok: bool)
      modifies this
      ensures ok <==> TablesAccepted(snapshot)
      ensures View() == if ok then WithTables(snapshot, Initial()) else old(View())
    {
      hide JsMap.OrderedMap.Valid, JsMap.Distinct, ReadTable, References, LogsIn;
      var ts := ReadList(snapshot.tenants, (t: Tenant) => t.tenantId);
      var ms := ReadList(snapshot.members, (m: Member) => m.memberId);
      var ps := ReadList(snapshot.projects, (p: Project) => p.projectId);
      var es := ReadList(snapshot.environments, (e: Environment) => e.environmentId);
      var qs := ReadList(snapshot.quotas, (q: Quota) => q.quotaPolicyId);
      var ks := ReadList(snapshot.apiKeys, (k: ApiKey) => k.apiKeyId);
      var ls := ReadLogs(snapshot);
      assert ts == TenantsIn(snapshot) && ms == MembersIn(snapshot) && ps == ProjectsIn(snapshot);
      assert es == EnvironmentsIn(snapshot) && qs == QuotasIn(snapshot) && ks == ApiKeysIn(snapshot);
      hide TenantsIn, MembersIn, ProjectsIn, EnvironmentsIn, QuotasIn, ApiKeysIn;
      ok := ts.Some? && ms.Some? && ps.Some? && es.Some? && qs.Some? && ks.Some? && ls.Some?
            && References(ts.value.vals, ms.value.vals, ps.value.vals, es.value.vals, qs.value.vals, ks.value.vals);
      if ok {
        Clear();
        TakeScopes(ts.value, ms.value, ps.value);
        TakeEnvironments(es.value, qs.value, ks.value);
        TakeLogs(ls.value);
      }
    }

    method RestoreExtras(snapshot: Snapshot) returns (ok: bool)
      requires secretHashes == JsMap.Empty() && graceHashes == JsMap.Empty() && tokenWindows == JsMap.Empty()
      modifies this`secretHashes, this`graceHashes, this`tokenWindows
      ensures ok <==> SecretsIn(snapshot).Some? && GracesIn(snapshot).Some? && WindowsIn(snapshot).Some?
      ensures secretHashes == SecretsUpTo(snapshot)
      ensures graceHashes == if SecretsIn(snapshot).None? then JsMap.Empty() else GracesUpTo(snapshot)
      ensures tokenWindows == if SecretsIn(snapshot).None? || GracesIn(snapshot).None? then JsMap.Empty()
                              else WindowsUpTo(snapshot)
    {
      hide JsMap.OrderedMap.Valid, JsMap.Distinct, ReadPairs, PairsUpTo;
      ok, secretHashes := ReadEntries(snapshot.secretHashes, (h: string) => IsHash(h));
      if !ok {
        return;
      }
      ok, graceHashes := ReadEntries(snapshot.graceHashes, (g: Grace) => ValidGrace(g));
      if !ok {
        return;
      }
      ok, tokenWindows := ReadEntries(snapshot.tokenWindows, (w: T.Window) => ValidWindow(w));
    }

    method RestoreReplays(entries: seq<IdempotencyEntry>) returns (ok: bool)
      requires idempotency == JsMap.Empty() && fingerprints == map[] && tombstones == JsMap.Empty()
      modifies this`idempotency, this`fingerprints, this`tombstones
      ensures ok <==> ReadReplays(entries).Some?
      ensures Replays(idempotency, fingerprints, tombstones) == ReplaysUpTo(entries)
    {
      hide FitsKey, FitsFingerprint, JsMap.OrderedMap.Valid, JsMap.Distinct;
      for i := 0 to |entries|
        invariant ReadReplays(entries[..i]).Some?
        invariant Replays(idempotency, fingerprints, tombstones) == ReplaysUpTo(entries[..i])
      {
        var entry := entries[i];
        assert entries[..i + 1][..i] == entries[..i] && entries[..i + 1][i] == entry;
        if !FitsKey(entry.cacheKey) || (entry.fingerprint.Some? && !FitsFingerprint(entry.fingerprint.value))
           || (!entry.tombstone && entry.value.None?) {
          InvalidStays(entries, i + 1);
          return false;
        }
        if entry.tombstone {
          tombstones := JsMap.Set(tombstones, entry.cacheKey, ());
        } else {
          idempotency := JsMap.Set(idempotency, entry.cacheKey, entry.value.value);
        }
        if entry.fingerprint.Some? {
          fingerprints := fingerprints[entry.cacheKey := entry.fingerprint.value];
        }
      }
      assert entries[..|entries|] == entries;
      ok := true;
    }
  }
}
