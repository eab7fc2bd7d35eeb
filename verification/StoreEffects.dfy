/**
 What the other operations of the store accept and enter, field by field, for requests that are not replays.
 */
module StoreEffects {
  import opened Common
  import opened ColonKeys
  import opened PlatformStore
  import opened StoreKeys
  import JsMap
  import T = TokenQuota

  /** Counting a token: why it may be refused, with the window it would be counted in. */
  lemma CountRefused(s: State, scope: T.Scope, now: int)
    ensures var r, k := CountToken(s, scope, now), scope.environmentId;
            var there := k in s.environments.vals && s.environments.vals[k].projectId == scope.projectId
                         && s.environments.vals[k].tenantId == scope.tenantId;
            && (r == Err(AuthorizationFailed) <==> there && s.environments.vals[k].status != EnvironmentActive)
            && (r == Err(NotFound) <==>
                  || !there
                  || (s.environments.vals[k].status == EnvironmentActive
                      && s.environments.vals[k].quotaPolicyId !in s.quotas.vals))
            && r != Err(Conflict)
  {
    hide JsMap.OrderedMap.Valid, JsMap.Distinct;
  }

  /** The given text, or the default. */
  predicate Chosen(given: Option<string>, default: string, value: string) {
    (given.Some? ==> value == given.value) && (given.None? ==> value == default)
  }

  /** The reply is kept for the request's key, if it has one, and nothing is buried under it. */
  predicate KeptFor(t: State, kind: string, key: Option<string>, reply: Reply, fingerprint: string) {
    key.Some? ==>
      var k := CacheKey(kind, key.value);
      JsMap.Get(t.idempotency, k) == Some(reply) && k !in t.tombstones.vals
      && FingerprintOf(t.fingerprints, k) == Some(fingerprint)
  }

  lemma SavedIsKept(m: State, kind: string, key: Option<string>, reply: Reply, fingerprint: string)
    ensures KeptFor(Saved(m, kind, key, reply, Some(fingerprint)), kind, key, reply, fingerprint)
  {
    hide CacheKey;
  }

  lemma TenantEntered(s: State, q: TenantInput, key: Option<string>, fingerprint: string, id: string, now: int)
    requires NewRequest(s, "tenant", key)
    ensures var r := CreateTenant(s, q, key, fingerprint, id, now);
            r.Ok? &&
            (var (t, reply) := r.value;
             && reply.TenantReply? && t.tenants.vals == s.tenants.vals[id := reply.tenant]
             && KeptFor(t, "tenant", key, reply, fingerprint)
             && (var b := reply.tenant;
                 && b.tenantId == id && b.displayName == q.displayName && b.status == Trial && b.version == 1
                 && b.createdAt == now && b.updatedAt == now && Chosen(q.planId, "plan-trial", b.planId)
                 && Chosen(q.dataResidencyPolicy, "cn-mainland", b.dataResidencyPolicy)))
  {
    hide CacheKey, Cached, Saved, KeptFor, NewRequest, JsMap.OrderedMap.Valid, JsMap.Distinct;
    NotCached(s, "tenant", key, Some(fingerprint));
    var reply := TenantReply(NewTenant(q, id, now));
    SavedIsKept(PutTenant(s, reply.tenant), "tenant", key, reply, fingerprint);
    SavedTables(PutTenant(s, reply.tenant), "tenant", key, reply, Some(fingerprint));
  }

  lemma SavedTables(m: State, kind: string, key: Option<string>, reply: Reply, fingerprint: Option<string>)
    ensures var t := Saved(m, kind, key, reply, fingerprint);
            t.tenants == m.tenants && t.members == m.members && t.projects == m.projects
            && t.environments == m.environments && t.quotas == m.quotas
  {
    hide CacheKey, JsMap.OrderedMap.Valid, JsMap.Distinct;
  }

  /** A project needs a tenant that is on trial or subscribed, and a slug the tenant has not used. */
  lemma ProjectIff(s: State, q: ProjectInput, key: Option<string>, fingerprint: string, id: string, now: int)
    requires NewRequest(s, "project", Scoped(key, q.tenantId))
    ensures var r := CreateProject(s, q, key, fingerprint, id, now);
            var open := q.tenantId in s.tenants.vals && s.tenants.vals[q.tenantId].status in {Trial, Subscribed};
            && (r.Ok? <==> open && forall k :: k in s.projects.vals && s.projects.vals[k].tenantId == q.tenantId ==>
                                     s.projects.vals[k].slug != q.slug)
            && (r.Err? ==> r.error == if q.tenantId !in s.tenants.vals then NotFound
                                      else if !open then AuthorizationFailed else Conflict)
            && (r.Ok? ==>
                  var (t, reply) := r.value;
                  && reply.ProjectReply? && t.projects.vals == s.projects.vals[id := reply.project]
                  && KeptFor(t, "project", Scoped(key, q.tenantId), reply, fingerprint)
                  && (var b := reply.project;
                      && b.projectId == id && b.tenantId == q.tenantId && b.name == q.name && b.slug == q.slug
                      && b.status == ProjectActive && b.createdAt == now && b.updatedAt == now && b.version == 1
                      && Chosen(q.defaultRegionPolicyId, "region-cn-mainland", b.defaultRegionPolicyId)))
  {
    hide CacheKey, Cached, Saved, KeptFor, NewRequest, JsMap.OrderedMap.Valid, JsMap.Distinct;
    var scoped := Scoped(key, q.tenantId);
    NotCached(s, "project", scoped, Some(fingerprint));
    var reply := ProjectReply(NewProject(q, id, now));
    SavedIsKept(PutProject(s, reply.project), "project", scoped, reply, fingerprint);
    SavedTables(PutProject(s, reply.project), "project", scoped, reply, Some(fingerprint));
  }

  /** An environment needs a project of its tenant, and comes with a policy of its own or replaces the one it names. */
  lemma EnvironmentIff(
    s: State, q: EnvironmentInput, key: Option<string>, fingerprint: string, id: string, quotaId: string, now: int)
    requires NewRequest(s, "environment", Scoped(key, Join(q.tenantId, q.projectId)))
    ensures var r := CreateEnvironment(s, q, key, fingerprint, id, quotaId, now);
            && (r.Ok? <==> q.projectId in s.projects.vals && s.projects.vals[q.projectId].tenantId == q.tenantId)
            && (r.Err? ==> r.error == NotFound)
            && (r.Ok? ==>
                  var (t, reply) := r.value;
                  && reply.EnvironmentReply? && t.environments.vals == s.environments.vals[id := reply.environment]
                  && KeptFor(t, "environment", Scoped(key, Join(q.tenantId, q.projectId)), reply, fingerprint)
                  && (var b := reply.environment;
                      && b.environmentId == id && b.projectId == q.projectId && b.tenantId == q.tenantId
                      && b.name == q.name && b.environmentType == q.environmentType && b.endpoint == q.endpoint
                      && b.status == EnvironmentActive && b.createdAt == now && b.updatedAt == now && b.version == 1
                      && Chosen(q.regionPolicyId, s.projects.vals[q.projectId].defaultRegionPolicyId, b.regionPolicyId)
                      && Chosen(q.quotaPolicyId, quotaId, b.quotaPolicyId)
                      && Chosen(q.retentionPolicyId, "retention-default", b.retentionPolicyId)
                      && t.quotas.vals ==
                         s.quotas.vals[b.quotaPolicyId := Quota(b.quotaPolicyId, T.Policy(600, 50), now)]))
  {
    hide CacheKey, Cached, Saved, KeptFor, NewRequest, Join, JsMap.OrderedMap.Valid, JsMap.Distinct;
    if q.projectId in s.projects.vals {
      var scoped := Scoped(key, Join(q.tenantId, q.projectId));
      NotCached(s, "environment", scoped, Some(fingerprint));
      var x := NewEnvironment(q, s.projects.vals[q.projectId], id, quotaId, now);
      var m := PutQuota(PutEnvironment(s, x), Quota(x.quotaPolicyId, DefaultPolicy, now));
      SavedIsKept(m, "environment", scoped, EnvironmentReply(x), fingerprint);
      SavedTables(m, "environment", scoped, EnvironmentReply(x), Some(fingerprint));
    }
  }

  predicate IsFor(m: Member, tenantId: string, subject: string) {
    m.tenantId == tenantId && m.subject == subject
  }

  /** A member needs a tenant in which no one who was not removed has the subject. */
  lemma MemberIff(
    s: State, tenantId: string, q: MemberInput, key: Option<string>, fingerprint: string, id: string, now: int)
    requires NewRequest(s, "member", Scoped(key, tenantId))
    ensures var r := CreateMember(s, tenantId, q, key, fingerprint, id, now);
            && (r.Ok? <==>
                  && tenantId in s.tenants.vals
                  && forall k :: k in s.members.vals && IsFor(s.members.vals[k], tenantId, q.subject) ==>
                                   s.members.vals[k].status == Removed)
            && (r.Err? ==> r.error == if tenantId in s.tenants.vals then Conflict else NotFound)
            && (r.Ok? ==>
                  var (t, reply) := r.value;
                  && reply.MemberReply? && t.members.vals == s.members.vals[id := reply.member]
                  && KeptFor(t, "member", Scoped(key, tenantId), reply, fingerprint)
                  && (var b := reply.member;
                      && b.memberId == id && IsFor(b, tenantId, q.subject) && b.status == MemberActive
                      && JsMap.Distinct(b.roles) && (forall x :: x in b.roles <==> x in q.roles)
                      && b.createdAt == now && b.updatedAt == now && b.version == 1))
  {
    hide CacheKey, Cached, Saved, KeptFor, NewRequest, JsMap.OrderedMap.Valid, JsMap.Distinct;
    var scoped := Scoped(key, tenantId);
    NotCached(s, "member", scoped, Some(fingerprint));
    var reply := MemberReply(NewMember(tenantId, q, id, now));
    SavedIsKept(PutMember(s, reply.member), "member", scoped, reply, fingerprint);
    SavedTables(PutMember(s, reply.member), "member", scoped, reply, Some(fingerprint));
  }

  lemma MemberUpdateIff(s: State, k: string, q: MemberPatch, now: int)
    ensures var r := UpdateMember(s, k, q, now);
            && (r.Ok? <==> k in s.members.vals)
            && (r.Err? ==> r.error == NotFound)
            && (r.Ok? && s.members.vals[k].memberId == k ==>
                  var a, (t, reply) := s.members.vals[k], r.value;
                  && reply.MemberReply? && t == s.(members := t.members)
                  && t.members.vals == s.members.vals[k := reply.member]
                  && (var b := reply.member;
                      && b == a.(roles := b.roles, status := b.status, updatedAt := now, version := a.version + 1)
                      && (q.roles.None? ==> b.roles == a.roles)
                      && (q.roles.Some? ==> JsMap.Distinct(b.roles) && forall x :: x in b.roles <==> x in q.roles.value)
                      && (q.status.None? ==> b.status == a.status)
                      && (q.status.Some? ==> b.status == q.status.value)))
  {
    hide JsMap.OrderedMap.Valid, JsMap.Distinct;
  }

  /** An update needs the version it was made against and an environment that is not retired; it sets what it is given
      and leaves the rest. */
  lemma EnvironmentUpdateIff(s: State, k: string, q: EnvironmentPatch, now: int)
    ensures var r := UpdateEnvironment(s, k, q, now);
            && (r.Ok? <==>
                  && k in s.environments.vals && s.environments.vals[k].version == q.version
                  && s.environments.vals[k].status != Retired)
            && (r.Err? ==> r.error == if k !in s.environments.vals then NotFound
                                      else if s.environments.vals[k].version != q.version then Conflict
                                      else AuthorizationFailed)
            && (r.Ok? && s.environments.vals[k].environmentId == k ==>
                  var a, (t, reply) := s.environments.vals[k], r.value;
                  && reply.EnvironmentReply? && t == s.(environments := t.environments)
                  && t.environments.vals == s.environments.vals[k := reply.environment]
                  && (var b := reply.environment;
                      && b.environmentId == k && b.projectId == a.projectId && b.tenantId == a.tenantId
                      && b.environmentType == a.environmentType && b.createdAt == a.createdAt
                      && b.updatedAt == now && b.version == a.version + 1
                      && Chosen(q.name, a.name, b.name) && Chosen(q.endpoint, a.endpoint, b.endpoint)
                      && Chosen(q.regionPolicyId, a.regionPolicyId, b.regionPolicyId)
                      && Chosen(q.quotaPolicyId, a.quotaPolicyId, b.quotaPolicyId)
                      && Chosen(q.retentionPolicyId, a.retentionPolicyId, b.retentionPolicyId)
                      && (q.status.None? ==> b.status == a.status)
                      && (q.status.Some? ==> b.status == q.status.value)))
  {
    hide JsMap.OrderedMap.Valid, JsMap.Distinct;
  }

  /** Two updates made against the same version: at most the first goes through. */
  lemma OnlyOneUpdate(s: State, k: string, q: EnvironmentPatch, now: int, q': EnvironmentPatch, now': int)
    requires UpdateEnvironment(s, k, q, now).Ok? && q'.version == q.version
    requires s.environments.vals[k].environmentId == k
    ensures UpdateEnvironment(UpdateEnvironment(s, k, q, now).value.0, k, q', now') == Err(Conflict)
  {
    hide Patched, JsMap.OrderedMap.Valid, JsMap.Distinct;
    EnvironmentUpdateIff(s, k, q, now);
  }

  /** Seeding an environment that is there changes nothing; otherwise it makes the environment and all it refers to. */
  lemma SeedIff(s: State, scope: T.Scope, endpoint: string, now: int)
    ensures var t := Seed(s, scope, endpoint, now);
            && (scope.environmentId in s.environments.vals ==> t == s)
            && (scope.environmentId !in s.environments.vals ==>
                  && scope.environmentId in t.environments.vals && scope.projectId in t.projects.vals
                  && scope.tenantId in t.tenants.vals
                  && (var e := t.environments.vals[scope.environmentId];
                      && e.environmentId == scope.environmentId && e.projectId == scope.projectId
                      && e.tenantId == scope.tenantId && e.status == EnvironmentActive && e.environmentType == Dev
                      && e.endpoint == endpoint && e.version == 1
                      && JsMap.Get(t.quotas, e.quotaPolicyId) == Some(Quota(e.quotaPolicyId, T.Policy(600, 50), now)))
                  && t.projects.vals[scope.projectId] ==
                     Project(scope.projectId, scope.tenantId, scope.projectId, scope.projectId, ProjectActive,
                             "region-cn-mainland", now, now, 1)
                  && t.tenants.vals[scope.tenantId] ==
                     Tenant(scope.tenantId, scope.tenantId, Subscribed, "cn-mainland", "plan-preview", now, now, 1)
                  && JsMap.Get(t.members, "member-" + scope.tenantId) ==
                     Some(Member("member-" + scope.tenantId, scope.tenantId, "bootstrap", ["tenant_owner"],
                                 MemberActive, now, now, 1)))
  {
    hide JsMap.OrderedMap.Valid, JsMap.Distinct;
  }

  /** The record at this place is the first with the key. */
  ghost predicate FirstWith(l: Logs, dedupeKey: string, i: nat) {
    && i < |l.usage.keys| && l.usage.keys[i] in l.usage.vals
    && l.usage.vals[l.usage.keys[i]].dedupeKey == dedupeKey
    && forall j: nat :: j < i && l.usage.keys[j] in l.usage.vals ==>
                          l.usage.vals[l.usage.keys[j]].dedupeKey != dedupeKey
  }

  lemma {:induction false} FirstUsageIsFirst(l: Logs, n: nat, dedupeKey: string)
    requires n <= |l.usage.keys|
    ensures var u := FirstUsage(l.usage.keys[..n], l.usage.vals, dedupeKey);
            && (u.Some? ==> exists i: nat :: i < n && FirstWith(l, dedupeKey, i)
                                             && u.value == l.usage.vals[l.usage.keys[i]])
            && (u.None? ==> forall i: nat :: i < n ==> !FirstWith(l, dedupeKey, i))
  {
    hide JsMap.OrderedMap.Valid, JsMap.Distinct;
    var keys := l.usage.keys[..n];
    if n > 0 {
      assert keys[..n - 1] == l.usage.keys[..n - 1] && keys[n - 1] == l.usage.keys[n - 1];
      FirstUsageIsFirst(l, n - 1, dedupeKey);
      var earlier := FirstUsage(keys[..n - 1], l.usage.vals, dedupeKey);
      if earlier.None? {
        assert forall i: nat :: i < n - 1 ==> l.usage.keys[i] in keys[..n - 1];
        if keys[n - 1] in l.usage.vals && l.usage.vals[keys[n - 1]].dedupeKey == dedupeKey {
          assert FirstWith(l, dedupeKey, n - 1);
        }
      }
    }
  }

  /** Usage under a dedupe key already there is answered with the first record under it; any other is entered. */
  lemma UsageIff(l: Logs, dedupeKey: string, body: string, id: string)
    ensures var (t, u) := RecordUsage(l, dedupeKey, body, id);
            var there := exists k :: k in l.usage.vals && l.usage.vals[k].dedupeKey == dedupeKey;
            && (there ==> t == l && exists i: nat :: FirstWith(l, dedupeKey, i)
                                                     && u == l.usage.vals[l.usage.keys[i]])
            && (!there ==> u == Usage(id, dedupeKey, body) && t.usage.vals == l.usage.vals[id := u]
                           && t.audits == l.audits && t.outbox == l.outbox)
  {
    FirstUsageIsFirst(l, |l.usage.keys|, dedupeKey);
    assert l.usage.keys[..|l.usage.keys|] == l.usage.keys;
  }

  /** An audit event and its outbox entry come in one step; the entry carries the event and a key made from its id. */
  lemma AuditEntered(l: Logs, a: Audit, eventId: string)
    ensures var t := AppendAudit(l, a, eventId);
            && t.usage == l.usage && t.audits.vals == l.audits.vals[a.auditEventId := a]
            && eventId in t.outbox.vals && t.outbox.vals == l.outbox.vals[eventId := t.outbox.vals[eventId]]
            && (var o := t.outbox.vals[eventId];
                o.eventId == eventId && o.payload == a && o.aggregateId == a.auditEventId && o.attemptCount == 0
                && o.dedupeKey == "audit:" + a.auditEventId)
  {
    assert "audit" + ":" == "audit:";
  }
}
