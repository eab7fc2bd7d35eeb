/** What every run of the store keeps, restarts from its own snapshot included. */
module StoreProofs {
  import opened Common
  import opened ColonKeys
  import opened PlatformStore
  import opened StoreRecovery
  import JsMap
  import T = TokenQuota
  import TokenProofs

  /* ----- runs ----- */

  datatype Event =
    | Seeded(scope: T.Scope, endpoint: string)
    | TenantCreated(tenant: TenantInput, key: Option<string>, fingerprint: string, id: string)
    | ProjectCreated(project: ProjectInput, key: Option<string>, fingerprint: string, id: string)
    | EnvironmentCreated(environment: EnvironmentInput, key: Option<string>, fingerprint: string, id: string,
                         quotaId: string)
    | ApiKeyCreated(scope: T.Scope, apiKey: KeyInput, key: Option<string>, fingerprint: string, id: string,
                    secret: Secret)
    | ApiKeyRotated(apiKeyId: string, key: Option<string>, secret: Secret, graceMs: int)
    | ApiKeyRevoked(apiKeyId: string, key: Option<string>)
    | SecretUsed(supplied: string)
    | MemberCreated(tenantId: string, member: MemberInput, key: Option<string>, fingerprint: string, id: string)
    | MemberUpdated(memberId: string, memberPatch: MemberPatch)
    | EnvironmentUpdated(environmentId: string, patch: EnvironmentPatch)
    | UsageRecorded(dedupeKey: string, body: string, id: string)
    | AuditAppended(audit: Audit, eventId: string)
    | TokenCounted(scope: T.Scope)
    | TokenReleased(environmentId: string)
    | Restarted

  datatype Step = Step(event: Event, now: int)

  const MaxTime := 8640000000000000

  /** Clocks show times a Date can hold; hashes are SHA-256 in hex; the grace period is in its configured range. */
  predicate Enabled(step: Step) {
    && 0 <= step.now <= MaxTime
    && (step.event.ApiKeyCreated? || step.event.ApiKeyRotated? ==> IsHash(step.event.secret.hash))
    && (step.event.ApiKeyRotated? ==> 0 <= step.event.graceMs <= 86400000)
  }

  function StateOf(s: State, r: Result<(State, Reply), Error>): State {
    match r
    case Ok(pair) => pair.0
    case Err(_) => s
  }

  function Next(s: State, step: Step): State {
    var now := step.now;
    match step.event
    case Seeded(scope, endpoint) => Seed(s, scope, endpoint, now)
    case TenantCreated(q, key, fingerprint, id) => StateOf(s, CreateTenant(s, q, key, fingerprint, id, now))
    case ProjectCreated(q, key, fingerprint, id) => StateOf(s, CreateProject(s, q, key, fingerprint, id, now))
    case EnvironmentCreated(q, key, fingerprint, id, quotaId) =>
      StateOf(s, CreateEnvironment(s, q, key, fingerprint, id, quotaId, now))
    case ApiKeyCreated(scope, q, key, fingerprint, id, secret) =>
      StateOf(s, CreateApiKey(s, scope, q, key, fingerprint, id, secret, now))
    case ApiKeyRotated(apiKeyId, key, secret, graceMs) =>
      StateOf(s, RotateApiKey(s, apiKeyId, key, secret, graceMs, now))
    case ApiKeyRevoked(apiKeyId, key) => StateOf(s, RevokeApiKey(s, apiKeyId, key, now))
    case SecretUsed(supplied) => Resolve(s, supplied, now).0
    case MemberCreated(tenantId, q, key, fingerprint, id) =>
      StateOf(s, CreateMember(s, tenantId, q, key, fingerprint, id, now))
    case MemberUpdated(memberId, q) => StateOf(s, UpdateMember(s, memberId, q, now))
    case EnvironmentUpdated(environmentId, q) => StateOf(s, UpdateEnvironment(s, environmentId, q, now))
    case UsageRecorded(dedupeKey, body, id) => s.(logs := RecordUsage(s.logs, dedupeKey, body, id).0)
    case AuditAppended(audit, eventId) => s.(logs := AppendAudit(s.logs, audit, eventId))
    case TokenCounted(scope) => (match CountToken(s, scope, now) case Ok(t) => t case Err(_) => s)
    case TokenReleased(environmentId) => ReleaseToken(s, environmentId)
    case Restarted => (match Restore(TakeSnapshot(s)) case Some(t) => t case None => s)
  }

  ghost predicate Reaches(s: State, steps: seq<Step>, t: State)
    decreases |steps|
  {
    if steps == [] then t == s else Enabled(steps[0]) && Reaches(Next(s, steps[0]), steps[1..], t)
  }

  /* ----- the invariant ----- */

  ghost predicate Ids(s: State) {
    && (forall k :: k in s.tenants.vals ==> s.tenants.vals[k].tenantId == k)
    && (forall k :: k in s.members.vals ==> s.members.vals[k].memberId == k)
    && (forall k :: k in s.projects.vals ==> s.projects.vals[k].projectId == k)
    && (forall k :: k in s.environments.vals ==> s.environments.vals[k].environmentId == k)
    && (forall k :: k in s.quotas.vals ==> s.quotas.vals[k].quotaPolicyId == k
                                           && s.quotas.vals[k].policy == DefaultPolicy)
    && (forall k :: k in s.apiKeys.vals ==> s.apiKeys.vals[k].apiKeyId == k)
  }

  ghost predicate LogIds(l: Logs) {
    && (forall k :: k in l.usage.vals ==> l.usage.vals[k].usageRecordId == k)
    && (forall k :: k in l.audits.vals ==> l.audits.vals[k].auditEventId == k)
    && (forall k :: k in l.outbox.vals ==> l.outbox.vals[k].eventId == k)
  }

  /** Every reference but an environment's to its quota policy. */
  ghost predicate Refs(s: State) {
    && (forall k :: k in s.projects.vals ==> s.projects.vals[k].tenantId in s.tenants.vals)
    && (forall k :: k in s.environments.vals ==> s.environments.vals[k].tenantId in s.tenants.vals
                                                 && s.environments.vals[k].projectId in s.projects.vals)
    && (forall k :: k in s.members.vals ==> s.members.vals[k].tenantId in s.tenants.vals)
    && (forall k :: k in s.apiKeys.vals ==>
          s.apiKeys.vals[k].tenantId in s.tenants.vals && s.apiKeys.vals[k].projectId in s.projects.vals
          && s.apiKeys.vals[k].environmentId in s.environments.vals)
  }

  predicate WindowOk(w: T.Window) {
    0 <= w.startMs <= MaxTime && w.requests <= DefaultPolicy.maxRequests && w.concurrent <= DefaultPolicy.maxConcurrent
  }

  ghost predicate Extras(s: State) {
    && (forall k :: k in s.secretHashes.vals ==> IsHash(s.secretHashes.vals[k]))
    && (forall k :: k in s.graceHashes.vals ==> ValidGrace(s.graceHashes.vals[k]))
    && (forall k :: k in s.tokenWindows.vals ==> WindowOk(s.tokenWindows.vals[k]))
    && LogIds(s.logs)
  }

  ghost predicate Inv(s: State) {
    Ids(s) && Refs(s) && Extras(s) && ReplaysOk(s)
  }

  /* ----- restoring a snapshot ----- */

  predicate NoEmptyId(s: State) {
    && "" !in s.tenants.vals && "" !in s.members.vals && "" !in s.projects.vals && "" !in s.environments.vals
    && "" !in s.quotas.vals && "" !in s.apiKeys.vals
    && "" !in s.logs.usage.vals && "" !in s.logs.audits.vals && "" !in s.logs.outbox.vals
  }

  predicate NoDanglingQuota(s: State) {
    forall k :: k in s.environments.vals ==> s.environments.vals[k].quotaPolicyId in s.quotas.vals
  }

  /** What has to hold of a store for its snapshot to be accepted. */
  ghost predicate Restorable(s: State) {
    NoEmptyId(s) && NoDanglingQuota(s) && Fits(s.fingerprints, s.idempotency.keys + s.tombstones.keys)
  }

  lemma TablesBack(s: State)
    requires Ids(s)
    ensures var snapshot := TakeSnapshot(s);
            && TenantsIn(snapshot) == (if "" in s.tenants.vals then None else Some(s.tenants))
            && MembersIn(snapshot) == (if "" in s.members.vals then None else Some(s.members))
            && ProjectsIn(snapshot) == (if "" in s.projects.vals then None else Some(s.projects))
            && EnvironmentsIn(snapshot) == (if "" in s.environments.vals then None else Some(s.environments))
            && QuotasIn(snapshot) == (if "" in s.quotas.vals then None else Some(s.quotas))
            && ApiKeysIn(snapshot) == (if "" in s.apiKeys.vals then None else Some(s.apiKeys))
  {
    hide ReadTable, LiveEntries, Tombstones;
    ReadTableBack(s.tenants, (t: Tenant) => t.tenantId);
    ReadTableBack(s.members, (m: Member) => m.memberId);
    ReadTableBack(s.projects, (p: Project) => p.projectId);
    ReadTableBack(s.environments, (e: Environment) => e.environmentId);
    ReadTableBack(s.quotas, (q: Quota) => q.quotaPolicyId);
    ReadTableBack(s.apiKeys, (k: ApiKey) => k.apiKeyId);
  }

  lemma ExtrasBack(s: State)
    requires Extras(s)
    ensures var snapshot := TakeSnapshot(s);
            SecretsIn(snapshot) == Some(s.secretHashes) && GracesIn(snapshot) == Some(s.graceHashes)
            && WindowsIn(snapshot) == Some(s.tokenWindows)
  {
    hide ReadPairs, LiveEntries, Tombstones, IsHash, ValidGrace;
    ReadPairsBack(s.secretHashes, (h: string) => IsHash(h));
    ReadPairsBack(s.graceHashes, (g: Grace) => ValidGrace(g));
    ReadPairsBack(s.tokenWindows, (w: T.Window) => ValidWindow(w));
  }

  lemma LogsBack(s: State)
    requires LogIds(s.logs)
    ensures LogsIn(TakeSnapshot(s)) ==
              if "" in s.logs.usage.vals || "" in s.logs.audits.vals || "" in s.logs.outbox.vals then None
              else Some(s.logs)
  {
    hide ReadTable, LiveEntries, Tombstones;
    ReadTableBack(s.logs.usage, (u: Usage) => u.usageRecordId);
    ReadTableBack(s.logs.audits, (a: Audit) => a.auditEventId);
    ReadTableBack(s.logs.outbox, (e: Outgoing) => e.eventId);
  }

  lemma ReferencesIff(s: State)
    requires Refs(s)
    ensures NoDanglingQuota(s) <==>
              References(s.tenants.vals, s.members.vals, s.projects.vals, s.environments.vals, s.quotas.vals,
                         s.apiKeys.vals)
  {
  }

  /** Restoring a store's own snapshot gives the recovered state exactly when the store is restorable. */
  lemma SnapshotRestores(s: State)
    requires Inv(s)
    ensures Disjoint(s)
    ensures Restore(TakeSnapshot(s)) == if Restorable(s) then Some(Recovered(s)) else None
  {
    hide TenantsIn, MembersIn, ProjectsIn, EnvironmentsIn, QuotasIn, ApiKeysIn, LogsIn, SecretsIn, GracesIn, WindowsIn,
         ReadReplays, TakeSnapshot, References, LogIds, Ids, Refs, Extras, ReplaysOk, Fits, NoDanglingQuota, Disjoint;
    ReplaysDisjoint(s);
    TablesBack(s);
    LogIdsOf(s);
    LogsBack(s);
    ExtrasBack(s);
    ReferencesIff(s);
    ReplaysBack(s);
  }

  /* ----- what every step keeps ----- */

  /** A cache key that has been answered under, whether or not the answer is still there. */
  predicate Used(s: State, k: string) {
    k in s.idempotency.vals || k in s.tombstones.vals
  }

  ghost predicate RemembersKey(s: State, t: State, k: string) {
    Used(s, k) ==>
      && Used(t, k)
      && (k in s.tombstones.vals ==> k in t.tombstones.vals)
      && (k in s.idempotency.vals && !SecretKey(k) ==>
            k in t.idempotency.vals && t.idempotency.vals[k] == s.idempotency.vals[k])
      && FingerprintOf(t.fingerprints, k) == FingerprintOf(s.fingerprints, k)
  }

  /** Answers without secrets stay as they are; a key once used stays used, and a tombstone stays one. */
  ghost predicate Remembers(s: State, t: State) {
    forall k :: RemembersKey(s, t, k)
  }

  ghost predicate Tables(s: State) {
    Ids(s) && Refs(s)
  }

  ghost predicate SameReplays(s: State, t: State) {
    t.idempotency == s.idempotency && t.fingerprints == s.fingerprints && t.tombstones == s.tombstones
  }

  ghost predicate SameTables(s: State, t: State) {
    && t.tenants == s.tenants && t.members == s.members && t.projects == s.projects && t.environments == s.environments
    && t.quotas == s.quotas && t.apiKeys == s.apiKeys
  }

  ghost predicate SameExtras(s: State, t: State) {
    && t.secretHashes == s.secretHashes && t.graceHashes == s.graceHashes && t.tokenWindows == s.tokenWindows
    && t.logs == s.logs
  }

  lemma PutTenantKeeps(s: State, x: Tenant)
    requires Tables(s)
    ensures Tables(PutTenant(s, x)) && SameExtras(s, PutTenant(s, x)) && SameReplays(s, PutTenant(s, x))
  {
  }

  lemma PutMemberKeeps(s: State, x: Member)
    requires Tables(s) && x.tenantId in s.tenants.vals
    ensures Tables(PutMember(s, x)) && SameExtras(s, PutMember(s, x)) && SameReplays(s, PutMember(s, x))
  {
  }

  lemma PutProjectKeeps(s: State, x: Project)
    requires Tables(s) && x.tenantId in s.tenants.vals
    ensures Tables(PutProject(s, x)) && SameExtras(s, PutProject(s, x)) && SameReplays(s, PutProject(s, x))
  {
  }

  lemma PutEnvironmentKeeps(s: State, x: Environment)
    requires Tables(s) && x.tenantId in s.tenants.vals && x.projectId in s.projects.vals
    ensures Tables(PutEnvironment(s, x)) && SameExtras(s, PutEnvironment(s, x)) && SameReplays(s, PutEnvironment(s, x))
  {
  }

  lemma PutQuotaKeeps(s: State, x: Quota)
    requires Tables(s) && x.policy == DefaultPolicy
    ensures Tables(PutQuota(s, x)) && SameExtras(s, PutQuota(s, x)) && SameReplays(s, PutQuota(s, x))
  {
  }

  lemma PutApiKeyKeeps(s: State, x: ApiKey)
    requires Tables(s) && x.tenantId in s.tenants.vals && x.projectId in s.projects.vals
    requires x.environmentId in s.environments.vals
    ensures Tables(PutApiKey(s, x)) && SameExtras(s, PutApiKey(s, x)) && SameReplays(s, PutApiKey(s, x))
  {
  }

  lemma BothSame(s: State, m: State, t: State)
    requires SameExtras(s, m) && SameReplays(s, m) && SameExtras(m, t) && SameReplays(m, t)
    ensures SameExtras(s, t) && SameReplays(s, t)
  {
  }

  lemma ReplaysBoth(s: State, m: State, t: State)
    requires SameReplays(s, m) && SameReplays(m, t)
    ensures SameReplays(s, t)
  {
  }

  lemma TablesSame(s: State, t: State)
    requires Tables(s) && SameTables(s, t)
    ensures Tables(t)
  {
  }

  lemma ExtrasSame(s: State, t: State)
    requires Extras(s) && SameExtras(s, t)
    ensures Extras(t)
  {
  }

  lemma ReplaysSame(s: State, t: State)
    requires ReplaysOk(s) && SameReplays(s, t)
    ensures ReplaysOk(t) && Remembers(s, t)
  {
  }

  lemma OneMoreReply(s: State, t: State, k: string, reply: Reply)
    requires ReplaysOk(s) && !Used(s, k) && (reply.IssuedReply? ==> SecretKey(k))
    requires t.idempotency.vals == s.idempotency.vals[k := reply] && t.tombstones.vals == s.tombstones.vals
    requires forall i :: i in t.fingerprints ==> i == k || i in s.fingerprints
    requires forall i :: i in s.fingerprints && i != k ==> i in t.fingerprints && t.fingerprints[i] == s.fingerprints[i]
    ensures ReplaysOk(t) && Remembers(s, t)
  {
    hide SecretKey;
  }

  lemma SavedShape(s: State, kind: string, key: string, reply: Reply, fingerprint: Option<string>)
    requires CacheKey(kind, key) !in s.tombstones.vals
    ensures var k, t := CacheKey(kind, key), Saved(s, kind, Some(key), reply, fingerprint);
            && SameTables(s, t) && SameExtras(s, t)
            && t.idempotency.vals == s.idempotency.vals[k := reply] && t.tombstones.vals == s.tombstones.vals
            && t.fingerprints == if fingerprint.Some? then s.fingerprints[k := fingerprint.value] else s.fingerprints
  {
    hide CacheKey;
    Unmarked(s, CacheKey(kind, key));
  }

  lemma NothingChanged(s: State)
    ensures SameTables(s, s) && SameExtras(s, s)
  {
  }

  /** A reply is kept only under a key not used before, and a secret only under a key for secrets. */
  lemma SavedKeeps(s: State, kind: string, key: Option<string>, reply: Reply, fingerprint: Option<string>)
    requires ReplaysOk(s) && (key.Some? ==> !Used(s, CacheKey(kind, key.value)))
    requires reply.IssuedReply? ==> kind == "api-key" || kind == "api-key-rotate"
    ensures var t := Saved(s, kind, key, reply, fingerprint);
            ReplaysOk(t) && Remembers(s, t) && SameTables(s, t) && SameExtras(s, t)
  {
    hide ReplaysOk, Remembers, SecretKey, CacheKey, SameTables, SameExtras;
    if key.Some? {
      hide Saved;
      if reply.IssuedReply? {
        SecretKinds(kind, key.value);
      }
      SavedShape(s, kind, key.value, reply, fingerprint);
      OneMoreReply(s, Saved(s, kind, key, reply, fingerprint), CacheKey(kind, key.value), reply);
    } else {
      Unchanged(s);
      NothingChanged(s);
    }
  }

  lemma Unmarked(s: State, k: string)
    requires k !in s.tombstones.vals
    ensures JsMap.Remove(s.tombstones, k).vals == s.tombstones.vals
  {
  }

  lemma SecretKinds(kind: string, key: string)
    requires kind == "api-key" || kind == "api-key-rotate"
    ensures SecretKey(CacheKey(kind, key))
  {
    assert "api-key-rotate"[..7] == "api-key";
    assert CacheKey(kind, key)[..7] == kind[..7];
  }

  lemma CachedMeans(s: State, kind: string, key: Option<string>, fingerprint: Option<string>)
    requires Cached(s, kind, key, fingerprint) == Ok(None)
    ensures key.Some? ==> !Used(s, CacheKey(kind, key.value))
  {
  }

  /** A request carried out on the tables, then remembered. */
  lemma DoneAndSaved(
      s: State, m: State, kind: string, key: Option<string>, reply: Reply, fingerprint: Option<string>,
      given: Option<string>)
    requires Inv(s) && Tables(m) && Extras(m) && SameReplays(s, m)
    requires Cached(s, kind, key, given) == Ok(None)
    requires reply.IssuedReply? ==> kind == "api-key" || kind == "api-key-rotate"
    ensures var t := Saved(m, kind, key, reply, fingerprint); Inv(t) && Remembers(s, t)
  {
    hide Tables, Extras, ReplaysOk, SameReplays, SameTables, SameExtras, Remembers, Cached, Saved;
    var t := Saved(m, kind, key, reply, fingerprint);
    ReplaysSame(s, m);
    CachedMeans(s, kind, key, given);
    UsedSame(s, m);
    SavedKeeps(m, kind, key, reply, fingerprint);
    TablesSame(m, t);
    ExtrasSame(m, t);
    RemembersTransitive(s, m, t);
    InvParts(t);
  }

  lemma UsedSame(s: State, m: State)
    requires SameReplays(s, m)
    ensures forall k :: Used(s, k) <==> Used(m, k)
  {
  }

  lemma InvParts(s: State)
    ensures Inv(s) <==> Tables(s) && Extras(s) && ReplaysOk(s)
  {
  }

  lemma RemembersTransitive(s: State, m: State, t: State)
    requires Remembers(s, m) && Remembers(m, t)
    ensures Remembers(s, t)
  {
    forall k
      ensures RemembersKey(s, t, k)
    {
      assert RemembersKey(s, m, k) && RemembersKey(m, t, k);
    }
  }

  lemma Unchanged(s: State)
    ensures Remembers(s, s)
  {
  }

  /** A step on the tables alone. */
  lemma OnlyTables(s: State, t: State)
    requires Inv(s) && Tables(t) && Extras(t) && SameReplays(s, t)
    ensures Inv(t) && Remembers(s, t)
  {
    hide Tables, Extras, ReplaysOk, SameReplays, Remembers;
    ReplaysSame(s, t);
    InvParts(t);
  }

  /* ----- the operations ----- */

  lemma ProjectRefs(s: State, k: string)
    requires Tables(s) && k in s.projects.vals
    ensures s.projects.vals[k].tenantId in s.tenants.vals
  {
  }

  lemma EnvironmentRefs(s: State, k: string)
    requires Tables(s) && k in s.environments.vals
    ensures s.environments.vals[k].tenantId in s.tenants.vals && s.environments.vals[k].projectId in s.projects.vals
    ensures s.environments.vals[k].environmentId == k
  {
  }

  lemma ApiKeyRefs(s: State, k: string)
    requires Tables(s) && k in s.apiKeys.vals
    ensures var x := s.apiKeys.vals[k];
            x.tenantId in s.tenants.vals && x.projectId in s.projects.vals && x.environmentId in s.environments.vals
            && x.apiKeyId == k
  {
  }

  lemma MemberRefs(s: State, k: string)
    requires Tables(s) && k in s.members.vals
    ensures s.members.vals[k].tenantId in s.tenants.vals && s.members.vals[k].memberId == k
  {
  }

  lemma SeedKeeps(s: State, scope: T.Scope, endpoint: string, now: int)
    requires Inv(s)
    ensures Inv(Seed(s, scope, endpoint, now)) && Remembers(s, Seed(s, scope, endpoint, now))
  {
    if scope.environmentId in s.environments.vals {
      Unchanged(s);
    } else {
      hide Tables, Extras, ReplaysOk, Remembers, Ids, Refs;
      InvParts(s);
      var s1 := PutTenant(s, SeedTenant(scope, now));
      PutTenantKeeps(s, SeedTenant(scope, now));
      var s2 := PutMember(s1, SeedMember(scope, now));
      PutMemberKeeps(s1, SeedMember(scope, now));
      var s3 := PutProject(s2, SeedProject(scope, now));
      PutProjectKeeps(s2, SeedProject(scope, now));
      var s4 := PutEnvironment(s3, SeedEnvironment(scope, endpoint, now));
      PutEnvironmentKeeps(s3, SeedEnvironment(scope, endpoint, now));
      PutQuotaKeeps(s4, Quota("quota-" + scope.environmentId, DefaultPolicy, now));
      ExtrasSame(s, Seed(s, scope, endpoint, now));
      OnlyTables(s, Seed(s, scope, endpoint, now));
    }
  }

  lemma CreateTenantKeeps(s: State, q: TenantInput, key: Option<string>, fingerprint: string, id: string, now: int)
    requires Inv(s)
    ensures var t := StateOf(s, CreateTenant(s, q, key, fingerprint, id, now)); Inv(t) && Remembers(s, t)
  {
    hide Tables, Extras, Ids, Refs, ReplaysOk, Remembers, Cached, Saved;
    Unchanged(s);
    InvParts(s);
    var tenant := NewTenant(q, id, now);
    if Cached(s, "tenant", key, Some(fingerprint)) == Ok(None) {
      PutTenantKeeps(s, tenant);
      ExtrasSame(s, PutTenant(s, tenant));
      DoneAndSaved(s, PutTenant(s, tenant), "tenant", key, TenantReply(tenant), Some(fingerprint), Some(fingerprint));
    }
  }

  lemma CreateProjectKeeps(s: State, q: ProjectInput, key: Option<string>, fingerprint: string, id: string, now: int)
    requires Inv(s)
    ensures var t := StateOf(s, CreateProject(s, q, key, fingerprint, id, now)); Inv(t) && Remembers(s, t)
  {
    hide Tables, Extras, Ids, Refs, ReplaysOk, Remembers, Cached, Saved, SlugTaken;
    Unchanged(s);
    InvParts(s);
    var project, scoped := NewProject(q, id, now), Scoped(key, q.tenantId);
    if q.tenantId in s.tenants.vals && Cached(s, "project", scoped, Some(fingerprint)) == Ok(None) {
      PutProjectKeeps(s, project);
      ExtrasSame(s, PutProject(s, project));
      DoneAndSaved(s, PutProject(s, project), "project", scoped, ProjectReply(project), Some(fingerprint),
                   Some(fingerprint));
    }
  }

  lemma CreateEnvironmentKeeps(
    s: State, q: EnvironmentInput, key: Option<string>, fingerprint: string, id: string, quotaId: string, now: int)
    requires Inv(s)
    ensures var t := StateOf(s, CreateEnvironment(s, q, key, fingerprint, id, quotaId, now)); Inv(t) && Remembers(s, t)
  {
    hide Tables, Extras, ReplaysOk, Remembers, Cached, Saved, Ids, Refs, PutEnvironment, PutQuota, SameReplays,
         SameExtras;
    Unchanged(s);
    InvParts(s);
    var scoped := Scoped(key, Join(q.tenantId, q.projectId));
    if q.projectId in s.projects.vals && s.projects.vals[q.projectId].tenantId == q.tenantId
       && Cached(s, "environment", scoped, Some(fingerprint)) == Ok(None) {
      ProjectRefs(s, q.projectId);
      var environment := NewEnvironment(q, s.projects.vals[q.projectId], id, quotaId, now);
      var m, quota := PutEnvironment(s, environment), Quota(environment.quotaPolicyId, DefaultPolicy, now);
      PutEnvironmentKeeps(s, environment);
      PutQuotaKeeps(m, quota);
      BothSame(s, m, PutQuota(m, quota));
      ExtrasSame(s, PutQuota(m, quota));
      var reply := EnvironmentReply(environment);
      DoneAndSaved(s, PutQuota(m, quota), "environment", scoped, reply, Some(fingerprint), Some(fingerprint));
    }
  }

  lemma CreateMemberKeeps(
    s: State, tenantId: string, q: MemberInput, key: Option<string>, fingerprint: string, id: string, now: int)
    requires Inv(s)
    ensures var t := StateOf(s, CreateMember(s, tenantId, q, key, fingerprint, id, now)); Inv(t) && Remembers(s, t)
  {
    hide Tables, Extras, Ids, Refs, ReplaysOk, Remembers, Cached, Saved, MemberTaken;
    Unchanged(s);
    InvParts(s);
    var member, scoped := NewMember(tenantId, q, id, now), Scoped(key, tenantId);
    if tenantId in s.tenants.vals && Cached(s, "member", scoped, Some(fingerprint)) == Ok(None) {
      PutMemberKeeps(s, member);
      ExtrasSame(s, PutMember(s, member));
      DoneAndSaved(s, PutMember(s, member), "member", scoped, MemberReply(member), Some(fingerprint),
                   Some(fingerprint));
    }
  }

  lemma OneMoreHash(s: State, apiKeyId: string, hash: string)
    requires Extras(s) && IsHash(hash)
    ensures var t := s.(secretHashes := JsMap.Set(s.secretHashes, apiKeyId, hash));
            Extras(t) && SameTables(s, t) && SameReplays(s, t)
  {
    hide IsHash, ValidGrace, JsMap.OrderedMap.Valid, JsMap.Distinct;
  }

  lemma InstallKeeps(s: State, x: ApiKey, hash: string)
    requires Tables(s) && Extras(s) && IsHash(hash)
    requires x.tenantId in s.tenants.vals && x.projectId in s.projects.vals && x.environmentId in s.environments.vals
    ensures Tables(Install(s, x, hash)) && Extras(Install(s, x, hash)) && SameReplays(s, Install(s, x, hash))
  {
    hide Tables, Extras, IsHash, PutApiKey, SameReplays, SameExtras, SameTables;
    var m, t := PutApiKey(s, x), Install(s, x, hash);
    PutApiKeyKeeps(s, x);
    ExtrasSame(s, m);
    PutApiKeyHashes(s, x);
    OneMoreHash(m, x.apiKeyId, hash);
    TablesSame(m, t);
    ReplaysBoth(s, m, t);
  }

  lemma PutApiKeyHashes(s: State, x: ApiKey)
    ensures PutApiKey(s, x).secretHashes == s.secretHashes
  {
  }

  lemma CreateApiKeyKeeps(
    s: State, scope: T.Scope, q: KeyInput, key: Option<string>, fingerprint: string, id: string, secret: Secret,
    now: int)
    requires Inv(s) && IsHash(secret.hash)
    ensures var t := StateOf(s, CreateApiKey(s, scope, q, key, fingerprint, id, secret, now)); Inv(t) && Remembers(s, t)
  {
    hide Tables, Extras, Ids, Refs, ReplaysOk, Remembers, Cached, Saved, IsHash, Install;
    Unchanged(s);
    InvParts(s);
    var issued := IssuedReply(NewApiKey(scope, q, id, secret, now), secret.text);
    var scoped := Scoped(key, ScopeText(scope));
    if InScope(s, scope) && Cached(s, "api-key", scoped, Some(fingerprint)) == Ok(None) {
      EnvironmentRefs(s, scope.environmentId);
      InstallKeeps(s, issued.metadata, secret.hash);
      var m := Install(s, issued.metadata, secret.hash);
      DoneAndSaved(s, m, "api-key", scoped, issued, Some(fingerprint), Some(fingerprint));
    }
  }

  lemma OneMoreGrace(s: State, apiKeyId: string, grace: Grace)
    requires Extras(s) && ValidGrace(grace)
    ensures Extras(s.(graceHashes := JsMap.Set(s.graceHashes, apiKeyId, grace)))
  {
    hide IsHash, ValidGrace;
  }

  lemma OldHash(s: State, apiKeyId: string)
    requires Extras(s) && apiKeyId in s.secretHashes.vals
    ensures IsHash(s.secretHashes.vals[apiKeyId])
  {
  }

  lemma GracedKeeps(s: State, apiKeyId: string, graceMs: int, now: int)
    requires Tables(s) && Extras(s) && 0 <= now <= MaxTime && 0 <= graceMs <= 86400000
    ensures var t := Graced(s, apiKeyId, graceMs, now); Tables(t) && Extras(t) && SameReplays(s, t) && SameTables(s, t)
  {
    hide Tables, IsHash, Extras;
    TablesSame(s, Graced(s, apiKeyId, graceMs, now));
    if apiKeyId in s.secretHashes.vals {
      OldHash(s, apiKeyId);
      OneMoreGrace(s, apiKeyId, Grace(s.secretHashes.vals[apiKeyId], now + graceMs));
    }
  }

  lemma RotateKeeps(s: State, apiKeyId: string, key: Option<string>, secret: Secret, graceMs: int, now: int)
    requires Inv(s) && IsHash(secret.hash) && 0 <= now <= MaxTime && 0 <= graceMs <= 86400000
    ensures var t := StateOf(s, RotateApiKey(s, apiKeyId, key, secret, graceMs, now)); Inv(t) && Remembers(s, t)
  {
    hide Tables, Extras, Ids, Refs, ReplaysOk, Remembers, Cached, Saved, IsHash, Install, Graced, SameReplays;
    Unchanged(s);
    InvParts(s);
    var scoped := Scoped(key, apiKeyId);
    if apiKeyId in s.apiKeys.vals && Cached(s, "api-key-rotate", scoped, None) == Ok(None) {
      var issued := IssuedReply(Rotated(s.apiKeys.vals[apiKeyId], secret.text, now), secret.text);
      ApiKeyRefs(s, apiKeyId);
      var m := Graced(s, apiKeyId, graceMs, now);
      GracedKeeps(s, apiKeyId, graceMs, now);
      InstallKeeps(m, issued.metadata, secret.hash);
      ReplaysBoth(s, m, Install(m, issued.metadata, secret.hash));
      DoneAndSaved(s, Install(m, issued.metadata, secret.hash), "api-key-rotate", scoped, issued, None, None);
    }
  }

  lemma WithoutSecretsKeeps(s: State, apiKeyId: string)
    requires Tables(s) && Extras(s)
    ensures var t := WithoutSecrets(s, apiKeyId); Tables(t) && Extras(t) && SameReplays(s, t)
  {
    hide Tables, IsHash, ValidGrace;
    TablesSame(s, WithoutSecrets(s, apiKeyId));
  }

  lemma RevokedKeeps(s: State, x: ApiKey)
    requires Tables(s) && Extras(s) && x.tenantId in s.tenants.vals && x.projectId in s.projects.vals
    requires x.environmentId in s.environments.vals
    ensures var t := WithoutSecrets(PutApiKey(s, x), x.apiKeyId); Tables(t) && Extras(t) && SameReplays(s, t)
  {
    hide Tables, Extras, WithoutSecrets, PutApiKey, SameReplays, SameExtras;
    PutApiKeyKeeps(s, x);
    ExtrasSame(s, PutApiKey(s, x));
    WithoutSecretsKeeps(PutApiKey(s, x), x.apiKeyId);
    ReplaysBoth(s, PutApiKey(s, x), WithoutSecrets(PutApiKey(s, x), x.apiKeyId));
  }

  lemma RevokeKeeps(s: State, apiKeyId: string, key: Option<string>, now: int)
    requires Inv(s)
    ensures var t := StateOf(s, RevokeApiKey(s, apiKeyId, key, now)); Inv(t) && Remembers(s, t)
  {
    hide Tables, Extras, Ids, Refs, ReplaysOk, Remembers, Cached, Saved, WithoutSecrets, PutApiKey, SameReplays;
    Unchanged(s);
    InvParts(s);
    var scoped := Scoped(key, apiKeyId);
    if apiKeyId in s.apiKeys.vals && Cached(s, "api-key-revoke", scoped, None) == Ok(None) {
      ApiKeyRefs(s, apiKeyId);
      var metadata := RevokedKey(s.apiKeys.vals[apiKeyId], now);
      RevokedKeeps(s, metadata);
      var m := WithoutSecrets(PutApiKey(s, metadata), apiKeyId);
      DoneAndSaved(s, m, "api-key-revoke", scoped, RevokedReply(metadata), None, None);
    }
  }

  lemma ResolveKeeps(s: State, supplied: string, now: int)
    requires Inv(s)
    ensures Inv(Resolve(s, supplied, now).0) && Remembers(s, Resolve(s, supplied, now).0)
  {
    hide Tables, Extras, Ids, Refs, ReplaysOk, Remembers, FirstMatch, Usable, PutApiKey;
    Unchanged(s);
    InvParts(s);
    var t := Resolve(s, supplied, now).0;
    var found := FirstMatch(s, s.secretHashes.keys, supplied, now);
    if found.Some? && found.value in s.apiKeys.vals && Usable(s.apiKeys.vals[found.value], now) {
      ApiKeyRefs(s, found.value);
      var x := s.apiKeys.vals[found.value].(lastUsedAt := Some(now));
      PutApiKeyKeeps(s, x);
      UsedIsPut(s, x);
      ExtrasSame(s, t);
      OnlyTables(s, t);
    }
  }

  lemma UsedIsPut(s: State, x: ApiKey)
    ensures PutApiKey(s, x) == s.(apiKeys := JsMap.Set(s.apiKeys, x.apiKeyId, x))
  {
  }

  lemma UpdateMemberKeeps(s: State, memberId: string, q: MemberPatch, now: int)
    requires Inv(s)
    ensures var t := StateOf(s, UpdateMember(s, memberId, q, now)); Inv(t) && Remembers(s, t)
  {
    hide Tables, Extras, Ids, Refs, ReplaysOk, Remembers, PutMember, SameReplays, SameExtras;
    Unchanged(s);
    InvParts(s);
    if memberId in s.members.vals {
      var x := UpdateMember(s, memberId, q, now).value.1.member;
      MemberRefs(s, memberId);
      PutMemberKeeps(s, x);
      ExtrasSame(s, PutMember(s, x));
      OnlyTables(s, PutMember(s, x));
    }
  }

  lemma UpdateEnvironmentKeeps(s: State, environmentId: string, q: EnvironmentPatch, now: int)
    requires Inv(s)
    ensures var t := StateOf(s, UpdateEnvironment(s, environmentId, q, now)); Inv(t) && Remembers(s, t)
  {
    hide Tables, Extras, Ids, Refs, ReplaysOk, Remembers, PutEnvironment, SameReplays, SameExtras;
    Unchanged(s);
    InvParts(s);
    if UpdateEnvironment(s, environmentId, q, now).Ok? {
      var x := Patched(s.environments.vals[environmentId], q, now);
      EnvironmentRefs(s, environmentId);
      PutEnvironmentKeeps(s, x);
      ExtrasSame(s, PutEnvironment(s, x));
      OnlyTables(s, PutEnvironment(s, x));
    }
  }

  lemma LogIdsKept(l: Logs, dedupeKey: string, body: string, id: string, audit: Audit, eventId: string)
    requires LogIds(l)
    ensures LogIds(RecordUsage(l, dedupeKey, body, id).0) && LogIds(AppendAudit(l, audit, eventId))
  {
  }

  lemma LogKeeps(s: State, l: Logs)
    requires Inv(s) && LogIds(l)
    ensures Inv(s.(logs := l)) && Remembers(s, s.(logs := l))
  {
    hide Tables, ReplaysOk, Remembers, Ids, Refs, IsHash, ValidGrace, LogIds;
    InvParts(s);
    TablesSame(s, s.(logs := l));
    OnlyTables(s, s.(logs := l));
  }

  lemma LogStepKeeps(s: State, step: Step)
    requires Inv(s) && (step.event.UsageRecorded? || step.event.AuditAppended?)
    ensures Inv(Next(s, step)) && Remembers(s, Next(s, step))
  {
    hide Inv, Remembers, LogIds, RecordUsage, AppendAudit;
    LogIdsOf(s);
    match step.event
    case UsageRecorded(dedupeKey, body, id) =>
      LogIdsKept(s.logs, dedupeKey, body, id, Audit("", "", ""), "");
      LogKeeps(s, RecordUsage(s.logs, dedupeKey, body, id).0);
    case AuditAppended(audit, eventId) =>
      LogIdsKept(s.logs, "", "", "", audit, eventId);
      LogKeeps(s, AppendAudit(s.logs, audit, eventId));
  }

  lemma LogIdsOf(s: State)
    requires Inv(s)
    ensures LogIds(s.logs)
  {
  }

  lemma OneMoreWindow(s: State, environmentId: string, w: T.Window)
    requires Inv(s) && WindowOk(w)
    ensures var t := s.(tokenWindows := JsMap.Set(s.tokenWindows, environmentId, w)); Inv(t) && Remembers(s, t)
  {
    hide Tables, ReplaysOk, Remembers, Ids, Refs, IsHash, ValidGrace;
    var t := s.(tokenWindows := JsMap.Set(s.tokenWindows, environmentId, w));
    InvParts(s);
    TablesSame(s, t);
    OnlyTables(s, t);
  }

  lemma CurrentWindow(s: State, environmentId: string)
    requires Inv(s) && environmentId in s.tokenWindows.vals
    ensures WindowOk(s.tokenWindows.vals[environmentId])
  {
  }

  lemma PolicyIsDefault(s: State, quotaPolicyId: string)
    requires Inv(s) && quotaPolicyId in s.quotas.vals
    ensures s.quotas.vals[quotaPolicyId].policy == DefaultPolicy
  {
  }

  lemma CountTokenKeeps(s: State, scope: T.Scope, now: int)
    requires Inv(s) && 0 <= now <= MaxTime
    ensures var t := (match CountToken(s, scope, now) case Ok(t) => t case Err(_) => s); Inv(t) && Remembers(s, t)
  {
    hide Inv, Remembers;
    Unchanged(s);
    var r := CountToken(s, scope, now);
    if r.Ok? {
      PolicyIsDefault(s, s.environments.vals[scope.environmentId].quotaPolicyId);
      if scope.environmentId in s.tokenWindows.vals {
        CurrentWindow(s, scope.environmentId);
      }
      OneMoreWindow(s, scope.environmentId, r.value.tokenWindows.vals[scope.environmentId]);
    }
  }

  lemma ReleaseTokenKeeps(s: State, environmentId: string)
    requires Inv(s)
    ensures Inv(ReleaseToken(s, environmentId)) && Remembers(s, ReleaseToken(s, environmentId))
  {
    hide Inv, Remembers;
    Unchanged(s);
    if environmentId in s.tokenWindows.vals {
      CurrentWindow(s, environmentId);
      OneMoreWindow(s, environmentId, ReleaseToken(s, environmentId).tokenWindows.vals[environmentId]);
    }
  }

  /* ----- restarts ----- */

  lemma RecoveredKeeps(s: State)
    requires Inv(s) && Disjoint(s)
    ensures Inv(Recovered(s)) && Remembers(s, Recovered(s))
  {
    hide Tables, Extras, SecretKey, Ids, Refs;
    var t := Recovered(s);
    InvParts(s);
    TablesSame(s, t);
    ExtrasSame(s, t);
    BuriedKeys(s);
    InvParts(t);
  }

  lemma BuriedKeys(s: State)
    requires Disjoint(s)
    ensures forall k :: k in Buried(s).vals <==> k in s.tombstones.vals || (k in s.idempotency.vals && SecretKey(k))
  {
    forall k
      ensures k in Buried(s).vals <==> k in Buried(s).keys
    {
    }
  }

  lemma InvStep(s: State, step: Step)
    requires Inv(s) && Enabled(step)
    ensures Inv(Next(s, step)) && Remembers(s, Next(s, step))
  {
    hide Inv, Remembers, Seed, CreateTenant, CreateProject, CreateEnvironment, CreateApiKey, RotateApiKey,
         RevokeApiKey, Resolve, CreateMember, UpdateMember, UpdateEnvironment, RecordUsage, AppendAudit, CountToken,
         ReleaseToken, Restore, TakeSnapshot, IsHash, Restorable, Disjoint, Recovered, StateOf;
    var now := step.now;
    match step.event
    case Seeded(scope, endpoint) => SeedKeeps(s, scope, endpoint, now);
    case TenantCreated(q, key, fingerprint, id) => CreateTenantKeeps(s, q, key, fingerprint, id, now);
    case ProjectCreated(q, key, fingerprint, id) => CreateProjectKeeps(s, q, key, fingerprint, id, now);
    case EnvironmentCreated(q, key, fingerprint, id, quotaId) =>
      CreateEnvironmentKeeps(s, q, key, fingerprint, id, quotaId, now);
    case ApiKeyCreated(scope, q, key, fingerprint, id, secret) =>
      CreateApiKeyKeeps(s, scope, q, key, fingerprint, id, secret, now);
    case ApiKeyRotated(apiKeyId, key, secret, graceMs) => RotateKeeps(s, apiKeyId, key, secret, graceMs, now);
    case ApiKeyRevoked(apiKeyId, key) => RevokeKeeps(s, apiKeyId, key, now);
    case SecretUsed(supplied) => ResolveKeeps(s, supplied, now);
    case MemberCreated(tenantId, q, key, fingerprint, id) =>
      CreateMemberKeeps(s, tenantId, q, key, fingerprint, id, now);
    case MemberUpdated(memberId, q) => UpdateMemberKeeps(s, memberId, q, now);
    case EnvironmentUpdated(environmentId, q) => UpdateEnvironmentKeeps(s, environmentId, q, now);
    case UsageRecorded(_, _, _) => LogStepKeeps(s, step);
    case AuditAppended(_, _) => LogStepKeeps(s, step);
    case TokenCounted(scope) => CountTokenKeeps(s, scope, now);
    case TokenReleased(environmentId) => ReleaseTokenKeeps(s, environmentId);
    case Restarted =>
      SnapshotRestores(s);
      Unchanged(s);
      RecoveredKeeps(s);
  }

  lemma {:induction false} Run(s: State, steps: seq<Step>, t: State)
    requires Inv(s) && Reaches(s, steps, t)
    ensures Inv(t) && Remembers(s, t)
    decreases |steps|
  {
    hide Inv, Remembers, Next, Enabled;
    if steps == [] {
      Unchanged(s);
    } else {
      InvStep(s, steps[0]);
      Run(Next(s, steps[0]), steps[1..], t);
      RemembersTransitive(s, Next(s, steps[0]), t);
    }
  }

  lemma StartsOk()
    ensures Inv(Initial())
  {
  }

  /* ----- the main results ----- */

  /** Of any store a run can reach, restarts included: its snapshot is accepted exactly when no id is empty, no
      environment names a missing quota policy, and all cache keys and fingerprints are within their limits; and what
      comes back is the same store, except that replies which may hold secrets are tombstones. */
  lemma SnapshotAccepted(steps: seq<Step>, s: State)
    requires Reaches(Initial(), steps, s)
    ensures Disjoint(s)
    ensures Restore(TakeSnapshot(s)).Some? <==> Restorable(s)
    ensures Restorable(s) ==> Restore(TakeSnapshot(s)) == Some(Recovered(s))
  {
    hide Inv, Restorable, Restore, Recovered, Disjoint;
    StartsOk();
    Run(Initial(), steps, s);
    SnapshotRestores(s);
  }

  lemma OfKindMore(keys: seq<string>, k: string, secret: bool)
    ensures OfKind(keys + [k], secret) == OfKind(keys, secret) + if SecretKey(k) == secret then [k] else []
  {
    hide SecretKey;
    assert (keys + [k])[..|keys|] == keys;
  }

  lemma {:induction false} OfKindAgain(keys: seq<string>, secret: bool)
    requires forall k :: k in keys ==> SecretKey(k) == secret
    ensures OfKind(keys, secret) == keys && OfKind(keys, !secret) == []
  {
    hide SecretKey;
    if keys != [] {
      hide OfKind;
      var before, k := keys[..|keys| - 1], keys[|keys| - 1];
      assert keys == before + [k] && k in keys;
      OfKindAgain(before, secret);
      OfKindMore(before, k, secret);
      OfKindMore(before, k, !secret);
    }
  }

  /** Once is enough: the recovered store is restorable too, and restarting it again changes nothing. */
  lemma RecoveryIsStable(s: State)
    requires Inv(s) && Disjoint(s) && Restorable(s)
    ensures Restorable(Recovered(s)) && Restore(TakeSnapshot(Recovered(s))) == Some(Recovered(s))
  {
    hide Fits, Tables, Extras, Ids, Refs, FitsKey, FitsFingerprint, Restore;
    var t := Recovered(s);
    RecoveredKeeps(s);
    var keys := s.idempotency.keys;
    OfKindAgain(OfKind(keys, false), false);
    FewerFit(s.fingerprints, keys + s.tombstones.keys, t.idempotency.keys + t.tombstones.keys);
    SnapshotRestores(t);
    assert Recovered(t).idempotency.keys == t.idempotency.keys;
    RecoveredTwice(s);
  }

  lemma FewerFit(fingerprints: map<string, string>, keys: seq<string>, some: seq<string>)
    requires Fits(fingerprints, keys) && forall k :: k in some ==> k in keys
    ensures Fits(fingerprints, some)
  {
  }

  lemma RecoveredTwice(s: State)
    requires Disjoint(s) && Disjoint(Recovered(s))
    ensures Recovered(Recovered(s)) == Recovered(s)
  {
    var t := Recovered(s);
    OfKindAgain(OfKind(s.idempotency.keys, false), false);
    assert [] + t.tombstones.keys == t.tombstones.keys;
    SameSet(Buried(t), t.tombstones);
    SameReplies(t.idempotency, t.idempotency);
  }

  /** The snapshot entries of some of the live keys. */
  ghost function EntriesFor(s: State, keys: seq<string>): (r: seq<IdempotencyEntry>)
    requires forall k :: k in keys ==> k in s.idempotency.vals
    ensures |r| == |keys| && forall i :: 0 <= i < |r| ==>
              keys[i] in keys && r[i] == LiveEntry(s.fingerprints, keys[i], s.idempotency.vals[keys[i]])
  {
    seq(|keys|, i requires 0 <= i < |keys| =>
      assert keys[i] in keys; LiveEntry(s.fingerprints, keys[i], s.idempotency.vals[keys[i]]))
  }

  lemma EntriesMore(s: State, keys: seq<string>, k: string)
    requires (forall i :: i in keys ==> i in s.idempotency.vals) && k in s.idempotency.vals
    ensures EntriesFor(s, keys + [k]) == EntriesFor(s, keys) + [LiveEntry(s.fingerprints, k, s.idempotency.vals[k])]
  {
    hide LiveEntry;
  }

  lemma TombstonesMore(fingerprints: map<string, string>, keys: seq<string>, k: string)
    ensures Tombstones(fingerprints, keys + [k]) == Tombstones(fingerprints, keys) + [Tombstone(fingerprints, k)]
  {
    hide Tombstone;
  }

  lemma LiveEntryOf(s: State, k: string)
    requires k in s.idempotency.vals
    ensures SecretKey(k) ==> LiveEntry(s.fingerprints, k, s.idempotency.vals[k]) == Tombstone(s.fingerprints, k)
  {
  }

  ghost function Parted(s: State, keys: seq<string>): multiset<IdempotencyEntry>
    requires forall k :: k in keys ==> k in s.idempotency.vals
  {
    multiset(EntriesFor(s, OfKind(keys, false))) + multiset(Tombstones(s.fingerprints, OfKind(keys, true)))
  }

  lemma PartedMore(s: State, keys: seq<string>, k: string)
    requires (forall i :: i in keys ==> i in s.idempotency.vals) && k in s.idempotency.vals
    ensures forall i :: i in keys + [k] ==> i in s.idempotency.vals
    ensures Parted(s, keys + [k]) == Parted(s, keys) + multiset{LiveEntry(s.fingerprints, k, s.idempotency.vals[k])}
  {
    hide EntriesFor, Tombstones, Tombstone, LiveEntry, OfKind, SecretKey, JsMap.OrderedMap.Valid, JsMap.Distinct;
    OfKindMore(keys, k, false);
    OfKindMore(keys, k, true);
    LiveEntryOf(s, k);
    if SecretKey(k) {
      assert OfKind(keys + [k], false) == OfKind(keys, false);
      TombstonesMore(s.fingerprints, OfKind(keys, true), k);
    } else {
      assert OfKind(keys + [k], true) == OfKind(keys, true);
      EntriesMore(s, OfKind(keys, false), k);
    }
  }

  lemma NoneParted(s: State)
    ensures multiset(EntriesFor(s, [])) == Parted(s, [])
  {
    assert EntriesFor(s, []) == [] && OfKind([], false) == [] && OfKind([], true) == [];
    assert EntriesFor(s, OfKind([], false)) == [] && Tombstones(s.fingerprints, OfKind([], true)) == [];
  }

  lemma {:induction false} Partition(s: State, keys: seq<string>)
    requires forall k :: k in keys ==> k in s.idempotency.vals
    ensures multiset(EntriesFor(s, keys)) == Parted(s, keys)
  {
    hide EntriesFor, Parted, JsMap.OrderedMap.Valid, JsMap.Distinct;
    if keys == [] {
      NoneParted(s);
    } else {
      var before, k := keys[..|keys| - 1], keys[|keys| - 1];
      assert keys == before + [k] && k in keys;
      Partition(s, before);
      EntriesMore(s, before, k);
      PartedMore(s, before, k);
    }
  }

  lemma LiveIsEntries(s: State)
    ensures forall k :: k in s.idempotency.keys ==> k in s.idempotency.vals
    ensures Live(s) == EntriesFor(s, s.idempotency.keys)
  {
    hide LiveEntry;
  }

  lemma RecoveredEntries(s: State)
    requires Disjoint(s)
    ensures Live(Recovered(s)) == EntriesFor(s, OfKind(s.idempotency.keys, false))
  {
    hide LiveEntry, Buried, Disjoint, OfKind, SecretKey;
    var t := Recovered(s);
    LiveIsEntries(t);
    forall i | 0 <= i < |t.idempotency.keys|
      ensures EntriesFor(t, t.idempotency.keys)[i] == EntriesFor(s, t.idempotency.keys)[i]
    {
      assert t.idempotency.keys[i] in t.idempotency.keys;
    }
  }

  lemma TombstonesSplit(fingerprints: map<string, string>, a: seq<string>, b: seq<string>)
    ensures Tombstones(fingerprints, a + b) == Tombstones(fingerprints, a) + Tombstones(fingerprints, b)
  {
    hide Tombstone;
  }

  /** A snapshot taken after a restart has the same content as the one restarted from; only the order of the replies
      may differ. */
  lemma SecondSnapshotSame(s: State)
    requires Disjoint(s)
    ensures var a, b := TakeSnapshot(s), TakeSnapshot(Recovered(s));
            b == a.(idempotency := b.idempotency) && multiset(b.idempotency) == multiset(a.idempotency)
  {
    hide Disjoint, OfKind, EntriesFor, Tombstones, LiveEntries, Kept;
    var keys := s.idempotency.keys;
    LiveIsEntries(s);
    Partition(s, keys);
    RecoveredEntries(s);
    TombstonesSplit(s.fingerprints, OfKind(keys, true), s.tombstones.keys);
  }

  lemma LiveHoldsNoSecret(s: State, i: nat)
    requires ReplaysOk(s) && i < |s.idempotency.keys|
    ensures |Live(s)| == |s.idempotency.keys|
    ensures Live(s)[i].value.Some? ==> !Live(s)[i].value.value.IssuedReply?
  {
    hide SecretKey;
    assert s.idempotency.keys[i] in s.idempotency.keys;
  }

  /** No snapshot holds a secret: every reply in it is one without. */
  lemma SnapshotHoldsNoSecret(steps: seq<Step>, s: State, i: nat)
    requires Reaches(Initial(), steps, s) && i < |TakeSnapshot(s).idempotency|
    ensures var e := TakeSnapshot(s).idempotency[i]; e.value.Some? ==> !e.value.value.IssuedReply?
  {
    hide Reaches, Tables, Extras, Ids, Refs, ReplaysOk, Remembers;
    StartsOk();
    Run(Initial(), steps, s);
    if i < |s.idempotency.keys| {
      LiveHoldsNoSecret(s, i);
    }
  }

  /** The cache key an event would keep its reply under. */
  function KeyOf(e: Event): Option<string> {
    match e
    case ApiKeyCreated(scope, _, key, _, _, _) => if key.None? then None
                                                  else Some(CacheKey("api-key", Scoped(key, ScopeText(scope)).value))
    case ApiKeyRotated(apiKeyId, key, _, _) => if key.None? then None
                                               else Some(CacheKey("api-key-rotate", Scoped(key, apiKeyId).value))
    case _ => None
  }

  /** The step issues a new secret under this cache key. */
  predicate Mints(s: State, step: Step, k: string) {
    Enabled(step) && KeyOf(step.event) == Some(k) && Next(s, step) != s
  }

  lemma SavedUses(s: State, m: State, kind: string, key: string, reply: Reply, fingerprint: Option<string>)
    ensures Used(Saved(m, kind, Some(key), reply, fingerprint), CacheKey(kind, key))
  {
    hide CacheKey;
  }

  lemma CreationUses(
    s: State, scope: T.Scope, q: KeyInput, key: Option<string>, fingerprint: string, id: string, secret: Secret,
    now: int)
    requires key.Some? && StateOf(s, CreateApiKey(s, scope, q, key, fingerprint, id, secret, now)) != s
    ensures var k := CacheKey("api-key", Scoped(key, ScopeText(scope)).value);
            !Used(s, k) && Used(StateOf(s, CreateApiKey(s, scope, q, key, fingerprint, id, secret, now)), k)
  {
    hide CacheKey, Install, InScope, Cached, Saved, Used, Join, NewApiKey, ScopeText;
    var scoped := Scoped(key, ScopeText(scope)).value;
    CachedMeans(s, "api-key", Some(scoped), Some(fingerprint));
    var issued := IssuedReply(NewApiKey(scope, q, id, secret, now), secret.text);
    SavedUses(s, Install(s, issued.metadata, secret.hash), "api-key", scoped, issued, Some(fingerprint));
  }

  lemma RotationUses(s: State, apiKeyId: string, key: Option<string>, secret: Secret, graceMs: int, now: int)
    requires key.Some? && StateOf(s, RotateApiKey(s, apiKeyId, key, secret, graceMs, now)) != s
    ensures var k := CacheKey("api-key-rotate", Scoped(key, apiKeyId).value);
            !Used(s, k) && Used(StateOf(s, RotateApiKey(s, apiKeyId, key, secret, graceMs, now)), k)
  {
    hide CacheKey, Install, Graced, Prefix, Cached, Saved, Used, Join, Rotated;
    var scoped := Scoped(key, apiKeyId).value;
    CachedMeans(s, "api-key-rotate", Some(scoped), None);
    var issued := IssuedReply(Rotated(s.apiKeys.vals[apiKeyId], secret.text, now), secret.text);
    SavedUses(s, Install(Graced(s, apiKeyId, graceMs, now), issued.metadata, secret.hash), "api-key-rotate", scoped,
              issued, None);
  }

  lemma MintingUses(s: State, step: Step, k: string)
    requires Mints(s, step, k)
    ensures !Used(s, k) && Used(Next(s, step), k)
  {
    hide CacheKey, ScopeText, IsHash, CreateApiKey, RotateApiKey, Used, Join, StateOf;
    match step.event
    case ApiKeyCreated(scope, q, key, fingerprint, id, secret) =>
      CreationUses(s, scope, q, key, fingerprint, id, secret, step.now);
    case ApiKeyRotated(apiKeyId, key, secret, graceMs) =>
      RotationUses(s, apiKeyId, key, secret, graceMs, step.now);
  }

  /** Main result: under one idempotency key at most one secret is ever issued, however often the request is repeated
      and however often the store is restarted from its snapshot in between. */
  lemma MintedOnce(steps: seq<Step>, s: State, step: Step, later: seq<Step>, t: State, again: Step, k: string)
    requires Reaches(Initial(), steps, s) && Mints(s, step, k) && Reaches(Next(s, step), later, t)
    ensures !Mints(t, again, k)
  {
    hide Inv, Remembers, Mints, Next;
    StartsOk();
    Run(Initial(), steps, s);
    MintEnabled(s, step, k);
    InvStep(s, step);
    Run(Next(s, step), later, t);
    MintingUses(s, step, k);
    RememberedUse(Next(s, step), t, k);
    if Mints(t, again, k) {
      MintingUses(t, again, k);
    }
  }

  lemma MintEnabled(s: State, step: Step, k: string)
    requires Mints(s, step, k)
    ensures Enabled(step)
  {
  }

  lemma RememberedUse(s: State, t: State, k: string)
    requires Remembers(s, t)
    ensures RemembersKey(s, t, k)
    ensures Used(s, k) ==> Used(t, k)
  {
  }

  /** Main result: a reply that cannot hold a secret is replayed unchanged for as long as the store lives, through any
      operations and restarts, to the same request, and any other request under its key is refused. */
  lemma RepliesSurvive(
      steps: seq<Step>, s: State, later: seq<Step>, t: State, kind: string, key: string, fingerprint: string)
    requires Reaches(Initial(), steps, s) && Reaches(s, later, t)
    requires var k := CacheKey(kind, key); k in s.idempotency.vals && !SecretKey(k) && k in s.fingerprints
    ensures Cached(t, kind, Some(key), Some(fingerprint)) ==
              if fingerprint == s.fingerprints[CacheKey(kind, key)]
              then Ok(Some(s.idempotency.vals[CacheKey(kind, key)])) else Err(Conflict)
  {
    hide Remembers, Next, SecretKey, Tables, Extras;
    StartsOk();
    Run(Initial(), steps, s);
    Run(s, later, t);
    RememberedUse(s, t, CacheKey(kind, key));
  }

  /** Main result: after a restart the request that issued a secret is refused, under any later state, rather than
      answered again. */
  lemma TombstonesConflict(
      steps: seq<Step>, s: State, later: seq<Step>, t: State, kind: string, key: string, fingerprint: Option<string>)
    requires Reaches(Initial(), steps, s) && Disjoint(s) && Reaches(Recovered(s), later, t)
    requires CacheKey(kind, key) in s.idempotency.vals && SecretKey(CacheKey(kind, key))
    ensures Cached(t, kind, Some(key), fingerprint) == Err(Conflict)
  {
    hide Remembers, Next, SecretKey, Inv, CacheKey, Disjoint, Kept, Buried;
    StartsOk();
    Run(Initial(), steps, s);
    RecoveredKeeps(s);
    BuriedKeys(s);
    Run(Recovered(s), later, t);
    RememberedUse(Recovered(s), t, CacheKey(kind, key));
  }

  /* ----- the window values here and the window objects of TokenQuota ----- */

  /** The store's table shows each environment the values of its current window object. */
  ghost predicate ShowsWindows(s: State, v: T.State) {
    && T.WellFormed(v) && s.tokenWindows.vals.Keys == v.current.Keys
    && forall env :: env in v.current ==> s.tokenWindows.vals[env] == v.windows[v.current[env]]
  }

  /** Counting a token on the values is reserving one on the objects: same verdict, same values afterwards. */
  lemma CountingIsReserving(s: State, v: T.State, scope: T.Scope, now: int)
    requires ShowsWindows(s, v) && TokenProofs.Inv(v) && InScope(s, scope)
    requires s.environments.vals[scope.environmentId].status.EnvironmentActive?
    requires s.environments.vals[scope.environmentId].quotaPolicyId in s.quotas.vals
    ensures var policy := s.quotas.vals[s.environments.vals[scope.environmentId].quotaPolicyId].policy;
            var a, b := CountToken(s, scope, now), T.Reserve(v, scope.environmentId, policy, now);
            (a.Ok? <==> b.Ok?) && (a.Ok? ==> ShowsWindows(a.value, b.value))
  {
    hide TokenProofs.WindowOk, JsMap.OrderedMap.Valid, JsMap.Distinct;
  }

  /** A release shows in the store exactly when its window is still the one some environment uses. */
  lemma ReleasingShows(s: State, v: T.State, h: nat, environmentId: string)
    requires ShowsWindows(s, v) && TokenProofs.Inv(v) && h < |v.handles| && !v.handles[h].released
    ensures environmentId in v.current && v.current[environmentId] == v.handles[h].window ==>
              ShowsWindows(ReleaseToken(s, environmentId), T.Release(v, h))
    ensures (forall env :: env in v.current ==> v.current[env] != v.handles[h].window) ==>
              ShowsWindows(s, T.Release(v, h))
  {
    hide TokenProofs.WindowOk, JsMap.OrderedMap.Valid, JsMap.Distinct;
  }
}
