/**
 The platform's store (platform-store.ts): tenants and what belongs to them, API keys with their secrets' hashes,
 replies kept for idempotent replay, and the snapshot that persists it all except the secrets. Random ids, secrets,
 hashes and the clock are arguments; `fingerprint` is the JSON text of a request.
 */
module PlatformStore {
  import opened Common
  import opened Text
  import opened ColonKeys
  import JsMap
  import T = TokenQuota

  datatype Error = NotFound | Conflict | QuotaExceeded | AuthorizationFailed

  datatype TenantStatus = Trial | Subscribed | TenantSuspended | Closing | Closed

  datatype Tenant = Tenant(
    tenantId: string, displayName: string, status: TenantStatus, dataResidencyPolicy: string, planId: string,
    createdAt: int, updatedAt: int, version: int)

  datatype MemberStatus = MemberActive | MemberSuspended | Removed

  datatype Member = Member(
    memberId: string, tenantId: string, subject: string, roles: seq<string>, status: MemberStatus,
    createdAt: int, updatedAt: int, version: int)

  datatype ProjectStatus = ProjectActive | ProjectSuspended | ProjectClosed

  datatype Project = Project(
    projectId: string, tenantId: string, name: string, slug: string, status: ProjectStatus,
    defaultRegionPolicyId: string,
    createdAt: int, updatedAt: int, version: int)

  datatype EnvironmentType = Dev | TestType | Staging | Prod

  datatype EnvironmentStatus = EnvironmentActive | EnvironmentSuspended | Retiring | Retired

  datatype Environment = Environment(
    environmentId: string, projectId: string, tenantId: string, name: string, environmentType: EnvironmentType,
    status: EnvironmentStatus, endpoint: string, regionPolicyId: string, quotaPolicyId: string,
    retentionPolicyId: string,
    createdAt: int, updatedAt: int, version: int)

  /** The limits on token requests; the policy's other limits are not looked at here. */
  datatype Quota = Quota(quotaPolicyId: string, policy: T.Policy, updatedAt: int)

  datatype KeyStatus = KeyActive | Revoked | Expired

  datatype ApiKey = ApiKey(
    apiKeyId: string, tenantId: string, projectId: string, environmentId: string, keyPrefix: string,
    scopes: seq<string>,
    status: KeyStatus, expiresAt: Option<DateText>, createdAt: int, revokedAt: Option<int>, version: int,
    lastUsedAt: Option<int>)

  /** `body` stands for the fields nothing here looks at. */
  datatype Usage = Usage(usageRecordId: string, dedupeKey: string, body: string)

  datatype Audit = Audit(auditEventId: string, occurredAt: string, body: string)

  datatype Outgoing = Outgoing(
      eventId: string, aggregateId: string, payload: Audit, dedupeKey: string, attemptCount: nat)

  datatype Grace = Grace(hash: string, expiresAt: int)

  /** What an operation answers, and what is kept for a replay. */
  datatype Reply =
    | TenantReply(tenant: Tenant)
    | ProjectReply(project: Project)
    | EnvironmentReply(environment: Environment)
    | MemberReply(member: Member)
    | IssuedReply(metadata: ApiKey, secret: string)
    | RevokedReply(metadata: ApiKey)

  /** What the store only ever adds to. */
  datatype Logs = Logs(
      usage: JsMap.Map<string, Usage>, audits: JsMap.Map<string, Audit>, outbox: JsMap.Map<string, Outgoing>)

  datatype State = State(
    tenants: JsMap.Map<string, Tenant>,
    members: JsMap.Map<string, Member>,
    projects: JsMap.Map<string, Project>,
    environments: JsMap.Map<string, Environment>,
    quotas: JsMap.Map<string, Quota>,
    apiKeys: JsMap.Map<string, ApiKey>,
    secretHashes: JsMap.Map<string, string>,
    graceHashes: JsMap.Map<string, Grace>,
    tokenWindows: JsMap.Map<string, T.Window>,
    idempotency: JsMap.Map<string, Reply>,
    fingerprints: map<string, string>,
    tombstones: JsMap.Map<string, ()>,
    logs: Logs)

  function Initial(): State {
    State(JsMap.Empty(), JsMap.Empty(), JsMap.Empty(), JsMap.Empty(), JsMap.Empty(), JsMap.Empty(),
          JsMap.Empty(), JsMap.Empty(), JsMap.Empty(), JsMap.Empty(), map[], JsMap.Empty(),
          Logs(JsMap.Empty(), JsMap.Empty(), JsMap.Empty()))
  }

  const DefaultPolicy := T.Policy(600, 50)

  /* ----- replay of earlier replies ----- */

  function CacheKey(kind: string, key: string): string {
    Join(kind, key)
  }

  function Scoped(key: Option<string>, scope: string): Option<string> {
    if key.None? then None else Some(Join(scope, key.value))
  }

  /** Some(reply) for a replay, None for a request to carry out. */
  function Cached(s: State, kind: string, key: Option<string>, fingerprint: Option<string>)
    : Result<Option<Reply>, Error>
  {
    if key.None? then Ok(None)
    else
      var k := CacheKey(kind, key.value);
      if k in s.tombstones.vals then Err(Conflict)
      else if k in s.idempotency.vals && fingerprint.Some? && FingerprintOf(s.fingerprints, k) != fingerprint
      then Err(Conflict)
      else Ok(JsMap.Get(s.idempotency, k))
  }

  function FingerprintOf(fingerprints: map<string, string>, k: string): Option<string> {
    if k in fingerprints then Some(fingerprints[k]) else None
  }

  function Saved(s: State, kind: string, key: Option<string>, reply: Reply, fingerprint: Option<string>): State {
    if key.None? then s
    else
      var k := CacheKey(kind, key.value);
      s.(tombstones := JsMap.Remove(s.tombstones, k), idempotency := JsMap.Set(s.idempotency, k, reply),
         fingerprints := if fingerprint.Some? then s.fingerprints[k := fingerprint.value] else s.fingerprints)
  }

  /* ----- operations ----- */

  function PutTenant(s: State, t: Tenant): State {
    s.(tenants := JsMap.Set(s.tenants, t.tenantId, t))
  }

  function PutMember(s: State, m: Member): State {
    s.(members := JsMap.Set(s.members, m.memberId, m))
  }

  function PutProject(s: State, p: Project): State {
    s.(projects := JsMap.Set(s.projects, p.projectId, p))
  }

  function PutEnvironment(s: State, e: Environment): State {
    s.(environments := JsMap.Set(s.environments, e.environmentId, e))
  }

  function PutQuota(s: State, q: Quota): State {
    s.(quotas := JsMap.Set(s.quotas, q.quotaPolicyId, q))
  }

  function PutApiKey(s: State, k: ApiKey): State {
    s.(apiKeys := JsMap.Set(s.apiKeys, k.apiKeyId, k))
  }

  /** A request either replays a reply, is refused, or is carried out and its reply kept. */
  function Replayed(s: State, cached: Result<Option<Reply>, Error>, done: Result<(State, Reply), Error>)
    : Result<(State, Reply), Error>
  {
    match cached
    case Err(e) => Err(e)
    case Ok(Some(reply)) => Ok((s, reply))
    case Ok(None) => done
  }

  function OrDefault(a: Option<string>, d: string): string {
    if a.Some? then a.value else d
  }

  const Region := "region-cn-mainland"
  const Retention := "retention-default"

  function SeedTenant(scope: T.Scope, now: int): Tenant {
    Tenant(scope.tenantId, scope.tenantId, Subscribed, "cn-mainland", "plan-preview", now, now, 1)
  }

  function SeedMember(scope: T.Scope, now: int): Member {
    Member("member-" + scope.tenantId, scope.tenantId, "bootstrap", ["tenant_owner"], MemberActive, now, now, 1)
  }

  function SeedProject(scope: T.Scope, now: int): Project {
    Project(scope.projectId, scope.tenantId, scope.projectId, scope.projectId, ProjectActive, Region, now, now, 1)
  }

  function SeedEnvironment(scope: T.Scope, endpoint: string, now: int): Environment {
    Environment(scope.environmentId, scope.projectId, scope.tenantId, scope.environmentId, Dev, EnvironmentActive,
                endpoint,
                Region, "quota-" + scope.environmentId, Retention, now, now, 1)
  }

  function Seed(s: State, scope: T.Scope, endpoint: string, now: int): State {
    if scope.environmentId in s.environments.vals then s
    else
      PutQuota(PutEnvironment(PutProject(PutMember(PutTenant(s,
        SeedTenant(scope, now)), SeedMember(scope, now)), SeedProject(scope, now)),
        SeedEnvironment(scope, endpoint, now)),
        Quota("quota-" + scope.environmentId, DefaultPolicy, now))
  }

  datatype TenantInput = TenantInput(displayName: string, dataResidencyPolicy: Option<string>, planId: Option<string>)

  function NewTenant(q: TenantInput, id: string, now: int): Tenant {
    Tenant(id, q.displayName, Trial, OrDefault(q.dataResidencyPolicy, "cn-mainland"), OrDefault(q.planId, "plan-trial"),
           now, now, 1)
  }

  function CreateTenant(s: State, q: TenantInput, key: Option<string>, fingerprint: string, id: string, now: int)
    : Result<(State, Reply), Error>
  {
    var tenant := NewTenant(q, id, now);
    Replayed(s, Cached(s, "tenant", key, Some(fingerprint)),
             Ok((Saved(PutTenant(s, tenant), "tenant", key, TenantReply(tenant), Some(fingerprint)),
                 TenantReply(tenant))))
  }

  predicate SlugTaken(s: State, tenantId: string, slug: string) {
    exists k :: k in s.projects.vals && s.projects.vals[k].tenantId == tenantId && s.projects.vals[k].slug == slug
  }

  datatype ProjectInput = ProjectInput(
      tenantId: string, name: string, slug: string, defaultRegionPolicyId: Option<string>)

  function NewProject(q: ProjectInput, id: string, now: int): Project {
    Project(id, q.tenantId, q.name, q.slug, ProjectActive, OrDefault(q.defaultRegionPolicyId, Region), now, now, 1)
  }

  function CreateProject(s: State, q: ProjectInput, key: Option<string>, fingerprint: string, id: string, now: int)
    : Result<(State, Reply), Error>
  {
    if q.tenantId !in s.tenants.vals then Err(NotFound)
    else if !s.tenants.vals[q.tenantId].status.Subscribed? && !s.tenants.vals[q.tenantId].status.Trial?
    then Err(AuthorizationFailed)
    else
      var scoped := Scoped(key, q.tenantId);
      var project := NewProject(q, id, now);
      Replayed(s, Cached(s, "project", scoped, Some(fingerprint)),
               if SlugTaken(s, q.tenantId, q.slug) then Err(Conflict)
               else Ok((Saved(PutProject(s, project), "project", scoped, ProjectReply(project), Some(fingerprint)),
                        ProjectReply(project))))
  }

  datatype EnvironmentInput = EnvironmentInput(
    tenantId: string, projectId: string, name: string, environmentType: EnvironmentType, endpoint: string,
    regionPolicyId: Option<string>, quotaPolicyId: Option<string>, retentionPolicyId: Option<string>)

  /** `quotaId` is the new id a policy gets when the request names none. */
  function NewEnvironment(q: EnvironmentInput, project: Project, id: string, quotaId: string, now: int): Environment {
    Environment(id, q.projectId, q.tenantId, q.name, q.environmentType, EnvironmentActive, q.endpoint,
                OrDefault(q.regionPolicyId, project.defaultRegionPolicyId), OrDefault(q.quotaPolicyId, quotaId),
                OrDefault(q.retentionPolicyId, Retention), now, now, 1)
  }

  function CreateEnvironment(
    s: State, q: EnvironmentInput, key: Option<string>, fingerprint: string, id: string, quotaId: string, now: int)
    : Result<(State, Reply), Error>
  {
    if q.projectId !in s.projects.vals || s.projects.vals[q.projectId].tenantId != q.tenantId then Err(NotFound)
    else
      var scoped := Scoped(key, Join(q.tenantId, q.projectId));
      var environment := NewEnvironment(q, s.projects.vals[q.projectId], id, quotaId, now);
      Replayed(s, Cached(s, "environment", scoped, Some(fingerprint)),
               Ok((Saved(PutQuota(PutEnvironment(s, environment), Quota(environment.quotaPolicyId, DefaultPolicy, now)),
                         "environment", scoped, EnvironmentReply(environment), Some(fingerprint)),
                   EnvironmentReply(environment))))
  }

  predicate InScope(s: State, scope: T.Scope) {
    && scope.environmentId in s.environments.vals
    && s.environments.vals[scope.environmentId].projectId == scope.projectId
    && s.environments.vals[scope.environmentId].tenantId == scope.tenantId
  }

  function ScopeText(scope: T.Scope): string {
    Join(Join(scope.tenantId, scope.projectId), scope.environmentId)
  }

  function Prefix(secret: string): string {
    if |secret| <= 12 then secret else secret[..12]
  }

  /** A random secret and its hash. */
  datatype Secret = Secret(text: string, hash: string)

  /** The record of a key and the hash of its secret. */
  function Install(s: State, metadata: ApiKey, hash: string): State {
    PutApiKey(s, metadata).(secretHashes := JsMap.Set(s.secretHashes, metadata.apiKeyId, hash))
  }

  datatype KeyInput = KeyInput(scopes: seq<string>, expiresAt: Option<DateText>)

  function NewApiKey(scope: T.Scope, q: KeyInput, id: string, secret: Secret, now: int): ApiKey {
    ApiKey(id, scope.tenantId, scope.projectId, scope.environmentId, Prefix(secret.text), JsMap.Unique(q.scopes),
           KeyActive, q.expiresAt, now, None, 1, None)
  }

  function CreateApiKey(
    s: State, scope: T.Scope, q: KeyInput, key: Option<string>, fingerprint: string, id: string, secret: Secret,
    now: int)
    : Result<(State, Reply), Error>
  {
    if !InScope(s, scope) then Err(NotFound)
    else
      var scoped := Scoped(key, ScopeText(scope));
      var issued := IssuedReply(NewApiKey(scope, q, id, secret, now), secret.text);
      Replayed(s, Cached(s, "api-key", scoped, Some(fingerprint)),
               Ok((Saved(Install(s, issued.metadata, secret.hash), "api-key", scoped, issued, Some(fingerprint)),
                   issued)))
  }

  /** The old secret stays good for a while after a rotation, unless the grace period is zero. */
  function Graced(s: State, apiKeyId: string, graceMs: int, now: int): State {
    if apiKeyId in s.secretHashes.vals && graceMs > 0
    then s.(graceHashes := JsMap.Set(s.graceHashes, apiKeyId, Grace(s.secretHashes.vals[apiKeyId], now + graceMs)))
    else s
  }

  function Rotated(k: ApiKey, secret: string, now: int): ApiKey {
    k.(keyPrefix := Prefix(secret), version := k.version + 1, createdAt := now)
  }

  function RotateApiKey(s: State, apiKeyId: string, key: Option<string>, secret: Secret, graceMs: int, now: int)
    : Result<(State, Reply), Error>
  {
    var scoped := Scoped(key, apiKeyId);
    Replayed(s, Cached(s, "api-key-rotate", scoped, None),
             if apiKeyId !in s.apiKeys.vals then Err(NotFound)
             else if !s.apiKeys.vals[apiKeyId].status.KeyActive? then Err(Conflict)
             else
               var issued := IssuedReply(Rotated(s.apiKeys.vals[apiKeyId], secret.text, now), secret.text);
               Ok((Saved(Install(Graced(s, apiKeyId, graceMs, now), issued.metadata, secret.hash),
                         "api-key-rotate", scoped, issued, None), issued)))
  }

  function WithoutSecrets(s: State, apiKeyId: string): State {
    s.(secretHashes := JsMap.Remove(s.secretHashes, apiKeyId), graceHashes := JsMap.Remove(s.graceHashes, apiKeyId))
  }

  function RevokedKey(k: ApiKey, now: int): ApiKey {
    k.(status := Revoked, revokedAt := Some(now), version := k.version + 1)
  }

  function RevokeApiKey(s: State, apiKeyId: string, key: Option<string>, now: int): Result<(State, Reply), Error> {
    var scoped := Scoped(key, apiKeyId);
    Replayed(s, Cached(s, "api-key-revoke", scoped, None),
             if apiKeyId !in s.apiKeys.vals then Err(NotFound)
             else
               var metadata := RevokedKey(s.apiKeys.vals[apiKeyId], now);
               Ok((Saved(WithoutSecrets(PutApiKey(s, metadata), apiKeyId),
                         "api-key-revoke", scoped, RevokedReply(metadata), None), RevokedReply(metadata))))
  }

  /* ----- the use of a secret ----- */

  /** The key's own hash, or the one before it while its grace lasts. */
  predicate Matches(s: State, k: string, supplied: string, now: int)
    requires k in s.secretHashes.vals
  {
    || s.secretHashes.vals[k] == supplied
    || (k in s.graceHashes.vals && s.graceHashes.vals[k].expiresAt > now && s.graceHashes.vals[k].hash == supplied)
  }

  /** The first key, in order, that the supplied hash matches. */
  function FirstMatch(s: State, keys: seq<string>, supplied: string, now: int): Option<string> {
    if keys == [] then None
    else
      var last := |keys| - 1;
      var earlier := FirstMatch(s, keys[..last], supplied, now);
      if earlier.Some? then earlier
      else if keys[last] in s.secretHashes.vals && Matches(s, keys[last], supplied, now) then Some(keys[last])
      else None
  }

  datatype Credential = Credential(scope: T.Scope, scopes: seq<string>)

  predicate Usable(k: ApiKey, now: int) {
    && k.status.KeyActive?
    && !(k.expiresAt.Some? && Millis(k.expiresAt.value).Some? && Millis(k.expiresAt.value).value <= now)
  }

  /** resolveApiKeyCredential: whose secret this is, from its hash. */
  function Resolve(s: State, supplied: string, now: int): (State, Option<Credential>) {
    var found := FirstMatch(s, s.secretHashes.keys, supplied, now);
    if found.None? || found.value !in s.apiKeys.vals || !Usable(s.apiKeys.vals[found.value], now) then (s, None)
    else
      var k := s.apiKeys.vals[found.value];
      (s.(apiKeys := JsMap.Set(s.apiKeys, found.value, k.(lastUsedAt := Some(now)))),
       Some(Credential(T.Scope(k.tenantId, k.projectId, k.environmentId), k.scopes)))
  }

  predicate MemberTaken(s: State, tenantId: string, subject: string) {
    exists k :: k in s.members.vals && s.members.vals[k].tenantId == tenantId && s.members.vals[k].subject == subject
                && !s.members.vals[k].status.Removed?
  }

  datatype MemberInput = MemberInput(subject: string, roles: seq<string>)

  function NewMember(tenantId: string, q: MemberInput, id: string, now: int): Member {
    Member(id, tenantId, q.subject, JsMap.Unique(q.roles), MemberActive, now, now, 1)
  }

  function CreateMember(
    s: State, tenantId: string, q: MemberInput, key: Option<string>, fingerprint: string, id: string, now: int)
    : Result<(State, Reply), Error>
  {
    if tenantId !in s.tenants.vals then Err(NotFound)
    else
      var scoped := Scoped(key, tenantId);
      var member := NewMember(tenantId, q, id, now);
      Replayed(s, Cached(s, "member", scoped, Some(fingerprint)),
               if MemberTaken(s, tenantId, q.subject) then Err(Conflict)
               else Ok((Saved(PutMember(s, member), "member", scoped, MemberReply(member), Some(fingerprint)),
                        MemberReply(member))))
  }

  datatype MemberPatch = MemberPatch(roles: Option<seq<string>>, status: Option<MemberStatus>)

  function UpdateMember(s: State, memberId: string, q: MemberPatch, now: int): Result<(State, Reply), Error> {
    if memberId !in s.members.vals then Err(NotFound)
    else
      var m := s.members.vals[memberId];
      var updated := m.(roles := if q.roles.Some? then JsMap.Unique(q.roles.value) else m.roles,
                        status := if q.status.Some? then q.status.value else m.status,
                        updatedAt := now, version := m.version + 1);
      Ok((PutMember(s, updated), MemberReply(updated)))
  }

  datatype EnvironmentPatch = EnvironmentPatch(
    version: int, name: Option<string>, endpoint: Option<string>, status: Option<EnvironmentStatus>,
    regionPolicyId: Option<string>, quotaPolicyId: Option<string>, retentionPolicyId: Option<string>)

  function Patched(e: Environment, q: EnvironmentPatch, now: int): Environment {
    e.(name := OrDefault(q.name, e.name), endpoint := OrDefault(q.endpoint, e.endpoint),
       status := if q.status.Some? then q.status.value else e.status,
       regionPolicyId := OrDefault(q.regionPolicyId, e.regionPolicyId),
       quotaPolicyId := OrDefault(q.quotaPolicyId, e.quotaPolicyId),
       retentionPolicyId := OrDefault(q.retentionPolicyId, e.retentionPolicyId),
       updatedAt := now, version := e.version + 1)
  }

  function UpdateEnvironment(s: State, environmentId: string, q: EnvironmentPatch, now: int)
    : Result<(State, Reply), Error>
  {
    if environmentId !in s.environments.vals then Err(NotFound)
    else
      var e := s.environments.vals[environmentId];
      if e.version != q.version then Err(Conflict)
      else if e.status.Retired? then Err(AuthorizationFailed)
      else Ok((PutEnvironment(s, Patched(e, q, now)), EnvironmentReply(Patched(e, q, now))))
  }

  /* ----- the logs ----- */

  /** The first record, in order, with this dedupe key. */
  function FirstUsage(keys: seq<string>, vals: map<string, Usage>, dedupeKey: string): (r: Option<Usage>)
    ensures r.Some? ==> r.value.dedupeKey == dedupeKey && r.value in vals.Values
    ensures r.None? ==> forall k :: k in keys && k in vals ==> vals[k].dedupeKey != dedupeKey
  {
    if keys == [] then None
    else
      var last := |keys| - 1;
      assert keys == keys[..last] + [keys[last]];
      var earlier := FirstUsage(keys[..last], vals, dedupeKey);
      if earlier.Some? then earlier
      else if keys[last] in vals && vals[keys[last]].dedupeKey == dedupeKey then Some(vals[keys[last]])
      else None
  }

  /** recordUsage: a record under a dedupe key already there is not entered again. */
  function RecordUsage(l: Logs, dedupeKey: string, body: string, id: string): (Logs, Usage) {
    var existing := FirstUsage(l.usage.keys, l.usage.vals, dedupeKey);
    var u := Usage(id, dedupeKey, body);
    if existing.Some? then (l, existing.value) else (l.(usage := JsMap.Set(l.usage, id, u)), u)
  }

  function OutgoingFor(a: Audit, eventId: string): Outgoing {
    Outgoing(eventId, a.auditEventId, a, Join("audit", a.auditEventId), 0)
  }

  /** appendAudit: every audit event is also put into the outbox. */
  function AppendAudit(l: Logs, a: Audit, eventId: string): Logs {
    l.(audits := JsMap.Set(l.audits, a.auditEventId, a),
       outbox := JsMap.Set(l.outbox, eventId, OutgoingFor(a, eventId)))
  }

  /* ----- tokens ----- */

  /** reserveToken as the snapshot sees it: the values of the environment's window. */
  function CountToken(s: State, scope: T.Scope, now: int): Result<State, Error> {
    if !InScope(s, scope) then Err(NotFound)
    else
      var e := s.environments.vals[scope.environmentId];
      if !e.status.EnvironmentActive? then Err(AuthorizationFailed)
      else if e.quotaPolicyId !in s.quotas.vals then Err(NotFound)
      else
        var current := JsMap.Get(s.tokenWindows, scope.environmentId);
        var w := if current.None? || now - current.value.startMs >= T.WindowMs then T.Window(now, 0, 0)
                 else current.value;
        if !T.Admits(s.quotas.vals[e.quotaPolicyId].policy, w) then Err(QuotaExceeded)
        else Ok(s.(tokenWindows := JsMap.Set(s.tokenWindows, scope.environmentId, T.Counted(w))))
  }

  /** A release of a token counted in the environment's current window. */
  function ReleaseToken(s: State, environmentId: string): State {
    if environmentId !in s.tokenWindows.vals then s
    else
      var w := s.tokenWindows.vals[environmentId];
      s.(tokenWindows := JsMap.Set(s.tokenWindows, environmentId,
                                   w.(concurrent := if w.concurrent >= 1 then w.concurrent - 1 else 0)))
  }

  /* ----- snapshot ----- */

  datatype IdempotencyEntry = IdempotencyEntry(
      cacheKey: string, fingerprint: Option<string>, value: Option<Reply>, tombstone: bool)

  datatype Snapshot = Snapshot(
    tenants: seq<Tenant>, members: seq<Member>, projects: seq<Project>, environments: seq<Environment>,
    quotas: seq<Quota>, apiKeys: seq<ApiKey>, usage: seq<Usage>, audits: seq<Audit>, outbox: seq<Outgoing>,
    secretHashes: seq<(string, string)>, graceHashes: seq<(string, Grace)>, tokenWindows: seq<(string, T.Window)>,
    idempotency: seq<IdempotencyEntry>)

  /** Replies that hold a secret are kept under keys of these kinds. */
  predicate SecretKey(k: string) {
    |k| >= 7 && k[..7] == "api-key"
  }

  function Tombstone(fingerprints: map<string, string>, k: string): IdempotencyEntry {
    IdempotencyEntry(k, FingerprintOf(fingerprints, k), None, true)
  }

  function LiveEntry(fingerprints: map<string, string>, k: string, reply: Reply): IdempotencyEntry {
    if SecretKey(k) then Tombstone(fingerprints, k)
    else IdempotencyEntry(k, FingerprintOf(fingerprints, k), Some(reply), false)
  }

  function LiveEntries(fingerprints: map<string, string>, live: seq<(string, Reply)>): (r: seq<IdempotencyEntry>)
    ensures |r| == |live|
  {
    seq(|live|, i requires 0 <= i < |live| => LiveEntry(fingerprints, live[i].0, live[i].1))
  }

  function Tombstones(fingerprints: map<string, string>, keys: seq<string>): (r: seq<IdempotencyEntry>)
    ensures |r| == |keys|
  {
    seq(|keys|, i requires 0 <= i < |keys| => Tombstone(fingerprints, keys[i]))
  }

  function TakeSnapshot(s: State): Snapshot {
    Snapshot(
      JsMap.Values(s.tenants), JsMap.Values(s.members), JsMap.Values(s.projects), JsMap.Values(s.environments),
      JsMap.Values(s.quotas), JsMap.Values(s.apiKeys),
      JsMap.Values(s.logs.usage), JsMap.Values(s.logs.audits), JsMap.Values(s.logs.outbox),
      JsMap.Entries(s.secretHashes), JsMap.Entries(s.graceHashes), JsMap.Entries(s.tokenWindows),
      LiveEntries(s.fingerprints, JsMap.Entries(s.idempotency)) + Tombstones(s.fingerprints, s.tombstones.keys))
  }

  /* ----- restore ----- */

  /** A table read from a list of its values: ids must be present and distinct. */
  function ReadTable<V>(values: seq<V>, idOf: V -> string): Option<JsMap.Map<string, V>> {
    if values == [] then Some(JsMap.Empty())
    else
      var last := values[|values| - 1];
      match ReadTable(values[..|values| - 1], idOf)
      case None => None
      case Some(m) => if idOf(last) == "" || idOf(last) in m.vals then None else Some(JsMap.Set(m, idOf(last), last))
  }

  /** A map read from a list of pairs, each of which must pass a test. */
  function ReadPairs<V>(pairs: seq<(string, V)>, test: V -> bool): Option<JsMap.Map<string, V>> {
    if pairs == [] then Some(JsMap.Empty())
    else
      var last := pairs[|pairs| - 1];
      match ReadPairs(pairs[..|pairs| - 1], test)
      case None => None
      case Some(m) => if test(last.1) then Some(JsMap.Set(m, last.0, last.1)) else None
  }

  predicate Hex(c: char) {
    '0' <= c <= '9' || 'a' <= c <= 'f'
  }

  predicate IsHash(h: string) {
    |h| == 64 && forall i :: 0 <= i < |h| ==> Hex(h[i])
  }

  predicate SafeNat(n: int) {
    0 <= n <= 9007199254740991
  }

  predicate ValidGrace(g: Grace) {
    IsHash(g.hash) && SafeNat(g.expiresAt)
  }

  predicate ValidWindow(w: T.Window) {
    SafeNat(w.startMs) && SafeNat(w.requests) && SafeNat(w.concurrent)
  }

  predicate FitsKey(k: string) {
    0 < |k| <= 512 && ControlFree(k)
  }

  predicate FitsFingerprint(f: string) {
    |f| <= 2048 && ControlFree(f)
  }

  datatype Replays = Replays(
      idempotency: JsMap.Map<string, Reply>, fingerprints: map<string, string>, tombstones: JsMap.Map<string, ()>)

  predicate ValidEntry(e: IdempotencyEntry) {
    FitsKey(e.cacheKey) && (e.fingerprint.Some? ==>
                              FitsFingerprint(e.fingerprint.value)) && (e.tombstone || e.value.Some?)
  }

  function WithEntry(r: Replays, e: IdempotencyEntry): Replays
    requires e.tombstone || e.value.Some?
  {
    Replays(if e.tombstone then r.idempotency else JsMap.Set(r.idempotency, e.cacheKey, e.value.value),
            if e.fingerprint.Some? then r.fingerprints[e.cacheKey := e.fingerprint.value] else r.fingerprints,
            if e.tombstone then JsMap.Set(r.tombstones, e.cacheKey, ()) else r.tombstones)
  }

  function ReadReplays(entries: seq<IdempotencyEntry>): Option<Replays> {
    if entries == [] then Some(Replays(JsMap.Empty(), map[], JsMap.Empty()))
    else
      var last := entries[|entries| - 1];
      match ReadReplays(entries[..|entries| - 1])
      case None => None
      case Some(r) => if ValidEntry(last) then Some(WithEntry(r, last)) else None
  }

  /** Every reference in the tables names something in the tables. */
  predicate References(
    tenants: map<string, Tenant>, members: map<string, Member>, projects: map<string, Project>,
    environments: map<string, Environment>,
    quotas: map<string, Quota>, apiKeys: map<string, ApiKey>)
  {
    && (forall k :: k in projects ==> projects[k].tenantId in tenants)
    && (forall k :: k in environments ==>
          environments[k].tenantId in tenants && environments[k].projectId in projects
          && environments[k].quotaPolicyId in quotas)
    && (forall k :: k in members ==> members[k].tenantId in tenants)
    && (forall k :: k in apiKeys ==>
          apiKeys[k].tenantId in tenants && apiKeys[k].projectId in projects
          && apiKeys[k].environmentId in environments)
  }

  function TenantsIn(snapshot: Snapshot): Option<JsMap.Map<string, Tenant>> {
    ReadTable(snapshot.tenants, (t: Tenant) => t.tenantId)
  }

  function MembersIn(snapshot: Snapshot): Option<JsMap.Map<string, Member>> {
    ReadTable(snapshot.members, (m: Member) => m.memberId)
  }

  function ProjectsIn(snapshot: Snapshot): Option<JsMap.Map<string, Project>> {
    ReadTable(snapshot.projects, (p: Project) => p.projectId)
  }

  function EnvironmentsIn(snapshot: Snapshot): Option<JsMap.Map<string, Environment>> {
    ReadTable(snapshot.environments, (e: Environment) => e.environmentId)
  }

  function QuotasIn(snapshot: Snapshot): Option<JsMap.Map<string, Quota>> {
    ReadTable(snapshot.quotas, (q: Quota) => q.quotaPolicyId)
  }

  function ApiKeysIn(snapshot: Snapshot): Option<JsMap.Map<string, ApiKey>> {
    ReadTable(snapshot.apiKeys, (k: ApiKey) => k.apiKeyId)
  }

  function UsageIn(snapshot: Snapshot): Option<JsMap.Map<string, Usage>> {
    ReadTable(snapshot.usage, (u: Usage) => u.usageRecordId)
  }

  function AuditsIn(snapshot: Snapshot): Option<JsMap.Map<string, Audit>> {
    ReadTable(snapshot.audits, (a: Audit) => a.auditEventId)
  }

  function OutboxIn(snapshot: Snapshot): Option<JsMap.Map<string, Outgoing>> {
    ReadTable(snapshot.outbox, (e: Outgoing) => e.eventId)
  }

  function LogsIn(snapshot: Snapshot): Option<Logs> {
    if UsageIn(snapshot).None? || AuditsIn(snapshot).None? || OutboxIn(snapshot).None? then None
    else Some(Logs(UsageIn(snapshot).value, AuditsIn(snapshot).value, OutboxIn(snapshot).value))
  }

  /** The first half of restore: all of this is checked before anything is cleared. */
  predicate TablesAccepted(snapshot: Snapshot) {
    && TenantsIn(snapshot).Some? && MembersIn(snapshot).Some? && ProjectsIn(snapshot).Some?
    && EnvironmentsIn(snapshot).Some? && QuotasIn(snapshot).Some? && ApiKeysIn(snapshot).Some? && LogsIn(snapshot).Some?
    && References(TenantsIn(snapshot).value.vals, MembersIn(snapshot).value.vals, ProjectsIn(snapshot).value.vals,
                  EnvironmentsIn(snapshot).value.vals, QuotasIn(snapshot).value.vals, ApiKeysIn(snapshot).value.vals)
  }

  function SecretsIn(snapshot: Snapshot): Option<JsMap.Map<string, string>> {
    ReadPairs(snapshot.secretHashes, (h: string) => IsHash(h))
  }

  function GracesIn(snapshot: Snapshot): Option<JsMap.Map<string, Grace>> {
    ReadPairs(snapshot.graceHashes, (g: Grace) => ValidGrace(g))
  }

  function WindowsIn(snapshot: Snapshot): Option<JsMap.Map<string, T.Window>> {
    ReadPairs(snapshot.tokenWindows, (w: T.Window) => ValidWindow(w))
  }

  function WithTables(snapshot: Snapshot, rest: State): State
    requires TablesAccepted(snapshot)
  {
    rest.(tenants := TenantsIn(snapshot).value, members := MembersIn(snapshot).value,
          projects := ProjectsIn(snapshot).value,
          environments := EnvironmentsIn(snapshot).value, quotas := QuotasIn(snapshot).value,
          apiKeys := ApiKeysIn(snapshot).value, logs := LogsIn(snapshot).value)
  }

  /** None if restore throws. */
  function Restore(snapshot: Snapshot): Option<State> {
    var replays := ReadReplays(snapshot.idempotency);
    if !TablesAccepted(snapshot) || SecretsIn(snapshot).None? || GracesIn(snapshot).None? || WindowsIn(snapshot).None?
       || replays.None? then None
    else
      Some(WithTables(snapshot, Initial()).(
             secretHashes := SecretsIn(snapshot).value, graceHashes := GracesIn(snapshot).value,
             tokenWindows := WindowsIn(snapshot).value, idempotency := replays.value.idempotency,
             fingerprints := replays.value.fingerprints, tombstones := replays.value.tombstones))
  }

  /* ----- a restore that fails half way ----- */

  /** What was read of the pairs before the first that fails the test. */
  function PairsUpTo<V>(pairs: seq<(string, V)>, test: V -> bool): JsMap.Map<string, V> {
    if pairs == [] then JsMap.Empty()
    else
      var before := pairs[..|pairs| - 1];
      var (k, v) := pairs[|pairs| - 1];
      if ReadPairs(before, test).Some? && test(v) then JsMap.Set(PairsUpTo(before, test), k, v)
      else PairsUpTo(before, test)
  }

  function ReplaysUpTo(entries: seq<IdempotencyEntry>): Replays {
    if entries == [] then Replays(JsMap.Empty(), map[], JsMap.Empty())
    else
      var before, last := entries[..|entries| - 1], entries[|entries| - 1];
      if ReadReplays(before).Some? && ValidEntry(last) then WithEntry(ReplaysUpTo(before), last)
      else ReplaysUpTo(before)
  }

  function SecretsUpTo(snapshot: Snapshot): JsMap.Map<string, string> {
    PairsUpTo(snapshot.secretHashes, (h: string) => IsHash(h))
  }

  function GracesUpTo(snapshot: Snapshot): JsMap.Map<string, Grace> {
    PairsUpTo(snapshot.graceHashes, (g: Grace) => ValidGrace(g))
  }

  function WindowsUpTo(snapshot: Snapshot): JsMap.Map<string, T.Window> {
    PairsUpTo(snapshot.tokenWindows, (w: T.Window) => ValidWindow(w))
  }

  /** The store after a restore whose tables were accepted: everything read before the first entry that is refused. */
  function ReadUpTo(snapshot: Snapshot): State
    requires TablesAccepted(snapshot)
  {
    var a := WithTables(snapshot, Initial()).(secretHashes := SecretsUpTo(snapshot));
    if SecretsIn(snapshot).None? then a
    else
      var b := a.(graceHashes := GracesUpTo(snapshot));
      if GracesIn(snapshot).None? then b
      else
        var c := b.(tokenWindows := WindowsUpTo(snapshot));
        if WindowsIn(snapshot).None? then c
        else
          var r := ReplaysUpTo(snapshot.idempotency);
          c.(idempotency := r.idempotency, fingerprints := r.fingerprints, tombstones := r.tombstones)
  }
}
