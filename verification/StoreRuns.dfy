/** More about runs of the store: when a snapshot stops being accepted, which replies a restart loses, whose keys a
    request may be given, and how the window values in the store follow the window objects. */
module StoreRuns {
  import opened Common
  import opened ColonKeys
  import opened PlatformStore
  import opened StoreRecovery
  import opened StoreProofs
  import JsMap
  import T = TokenQuota
  import TokenProofs

  /* ----- the step that makes a store unrestorable ----- */

  /** An accepted update that names a quota policy the store does not have. */
  predicate Unlinks(s: State, step: Step) {
    && step.event.EnvironmentUpdated? && UpdateEnvironment(s, step.event.environmentId, step.event.patch, step.now).Ok?
    && step.event.patch.quotaPolicyId.Some? && step.event.patch.quotaPolicyId.value !in s.quotas.vals
  }

  ghost predicate SameLinks(s: State, t: State) {
    t.environments == s.environments && t.quotas == s.quotas
  }

  lemma SavedLinks(m: State, kind: string, key: Option<string>, reply: Reply, fingerprint: Option<string>)
    ensures SameLinks(m, Saved(m, kind, key, reply, fingerprint))
  {
    hide JsMap.OrderedMap.Valid, JsMap.Distinct, CacheKey;
  }

  /** Neither keys, nor members, nor projects and tenants have anything to do with quota policies. */
  lemma OthersKeepLinks(s: State, step: Step)
    requires !step.event.Seeded? && !step.event.EnvironmentCreated? && !step.event.EnvironmentUpdated?
    requires !step.event.Restarted?
    ensures SameLinks(s, Next(s, step))
  {
    hide JsMap.OrderedMap.Valid, JsMap.Distinct, Cached, CacheKey, SlugTaken, MemberTaken, InScope, RecordUsage,
         AppendAudit, T.Admits, T.Counted, NewTenant, NewProject, NewApiKey, NewMember, Rotated, RevokedKey, IsHash,
         Join, ScopeText, Prefix, FirstMatch, Usable;
  }

  lemma SeedLinks(s: State, scope: T.Scope, endpoint: string, now: int)
    requires NoDanglingQuota(s)
    ensures NoDanglingQuota(Seed(s, scope, endpoint, now))
  {
    hide JsMap.OrderedMap.Valid, JsMap.Distinct;
  }

  lemma CreationLinks(
    s: State, q: EnvironmentInput, key: Option<string>, fingerprint: string, id: string, quotaId: string, now: int)
    requires NoDanglingQuota(s)
    ensures NoDanglingQuota(StateOf(s, CreateEnvironment(s, q, key, fingerprint, id, quotaId, now)))
  {
    hide JsMap.OrderedMap.Valid, JsMap.Distinct, Cached, CacheKey, Join;
  }

  lemma UpdateLinks(s: State, environmentId: string, q: EnvironmentPatch, now: int)
    requires Inv(s) && NoDanglingQuota(s)
    ensures NoDanglingQuota(StateOf(s, UpdateEnvironment(s, environmentId, q, now)))
       <==> !(UpdateEnvironment(s, environmentId, q, now).Ok? && q.quotaPolicyId.Some?
              && q.quotaPolicyId.value !in s.quotas.vals)
  {
    hide JsMap.OrderedMap.Valid, JsMap.Distinct, Refs, Extras, ReplaysOk;
    var r := UpdateEnvironment(s, environmentId, q, now);
    if r.Ok? {
      var t := r.value.0;
      assert environmentId in t.environments.vals;
      var updated := Patched(s.environments.vals[environmentId], q, now);
      assert t.environments.vals == s.environments.vals[environmentId := updated];
    }
  }

  lemma RecoveredLinks(s: State)
    requires Disjoint(s)
    ensures SameLinks(s, Recovered(s))
  {
    hide JsMap.OrderedMap.Valid, JsMap.Distinct, Kept, Buried, Disjoint;
  }

  lemma RestartLinks(s: State, now: int)
    requires Inv(s)
    ensures SameLinks(s, Next(s, Step(Restarted, now)))
  {
    hide Inv, Restore, TakeSnapshot, Restorable, Disjoint, Recovered;
    SnapshotRestores(s);
    RecoveredLinks(s);
  }

  lemma SameLinksSame(s: State, t: State)
    requires SameLinks(s, t)
    ensures NoDanglingQuota(s) <==> NoDanglingQuota(t)
  {
  }

  /** Main result: the only step that leaves an environment with a missing quota policy is an accepted update naming
      one. */
  lemma UnlinkedIff(steps: seq<Step>, s: State, step: Step)
    requires Reaches(Initial(), steps, s) && Enabled(step) && NoDanglingQuota(s)
    ensures NoDanglingQuota(Next(s, step)) <==> !Unlinks(s, step)
  {
    hide Inv, NoDanglingQuota, SameLinks, Seed, CreateEnvironment, UpdateEnvironment, Reaches, StateOf;
    StartsOk();
    Run(Initial(), steps, s);
    match step.event
    case Seeded(scope, endpoint) => SeedLinks(s, scope, endpoint, step.now);
    case EnvironmentCreated(q, key, fingerprint, id, quotaId) =>
      CreationLinks(s, q, key, fingerprint, id, quotaId, step.now);
    case EnvironmentUpdated(environmentId, q) => UpdateLinks(s, environmentId, q, step.now);
    case Restarted =>
      RestartLinks(s, step.now);
      SameLinksSame(s, Next(s, step));
    case _ =>
      OthersKeepLinks(s, step);
      SameLinksSame(s, Next(s, step));
  }

  const HomeScope := T.Scope("t", "p", "e")

  const NoPatch := EnvironmentPatch(1, None, None, None, None, None, None)

  lemma ReachesTwo(a: Step, b: Step)
    requires Enabled(a) && Enabled(b)
    ensures Reaches(Initial(), [a, b], Next(Next(Initial(), a), b))
  {
    hide Next, Enabled;
    assert [a, b][1..] == [b] && [b][1..] == [];
    assert Reaches(Next(Initial(), a), [b], Next(Next(Initial(), a), b));
  }

  const SeedStep := Step(Seeded(HomeScope, "endpoint"), 0)

  const UnlinkStep := Step(EnvironmentUpdated("e", NoPatch.(quotaPolicyId := Some("missing"))), 0)

  lemma UnlinkedState(s: State)
    requires s == Next(Initial(), SeedStep)
    ensures Next(s, UnlinkStep).environments.vals.Keys == {"e"}
    ensures JsMap.Get(Next(s, UnlinkStep).environments, "e") ==
              Some(SeedEnvironment(HomeScope, "endpoint", 0).(quotaPolicyId := "missing", version := 2))
    ensures "missing" !in Next(s, UnlinkStep).quotas.vals
  {
    hide JsMap.OrderedMap.Valid, JsMap.Distinct, Restorable;
    SeededState();
    hide Seed;
    assert "missing"[0] != "quota-e"[0];
  }

  /** Two ordinary steps suffice: after them the store works on, but its own snapshot is refused at the next start. */
  lemma UnlinkedRun() returns (s: State, t: State)
    ensures s == Next(Initial(), SeedStep) && t == Next(s, UnlinkStep) && Reaches(Initial(), [SeedStep, UnlinkStep], t)
    ensures Restore(TakeSnapshot(s)).Some? && Restore(TakeSnapshot(t)).None?
  {
    hide Restore, TakeSnapshot, JsMap.OrderedMap.Valid, JsMap.Distinct, Restorable, Inv, Reaches;
    s := Next(Initial(), SeedStep);
    SeededState();
    hide Next;
    t := Next(s, UnlinkStep);
    StartsOk();
    InvStep(Initial(), SeedStep);
    InvStep(s, UnlinkStep);
    ReachesTwo(SeedStep, UnlinkStep);
    UnlinkedState(s);
    SnapshotRestores(s);
    SnapshotRestores(t);
    NotRestorable(t, "e");
  }

  lemma NotRestorable(s: State, k: string)
    requires k in s.environments.vals && s.environments.vals[k].quotaPolicyId !in s.quotas.vals
    ensures !Restorable(s)
  {
  }

  /** What a seeded store holds. */
  lemma SeededState()
    ensures var s := Next(Initial(), SeedStep);
            && s.environments.vals == map["e" := SeedEnvironment(HomeScope, "endpoint", 0)]
            && s.quotas.vals.Keys == {"quota-e"} && s.idempotency == JsMap.Empty() && s.tombstones == JsMap.Empty()
            && s.apiKeys == JsMap.Empty() && s.fingerprints == map[] && Restorable(s)
  {
    hide JsMap.OrderedMap.Valid, JsMap.Distinct;
    assert "quota-" + "e" == "quota-e";
  }

  /* ----- which replies a restart loses ----- */

  /** Main result: a kept reply that holds no secret is still given after a restart if and only if its cache key does
      not start with "api-key". */
  lemma SurvivesRestartIff(steps: seq<Step>, s: State, kind: string, key: string, fingerprint: Option<string>)
    requires Reaches(Initial(), steps, s) && CacheKey(kind, key) in s.idempotency.vals
    requires !s.idempotency.vals[CacheKey(kind, key)].IssuedReply?
    requires Cached(s, kind, Some(key), fingerprint) == Ok(Some(s.idempotency.vals[CacheKey(kind, key)]))
    ensures Disjoint(s)
    ensures Cached(Recovered(s), kind, Some(key), fingerprint) == Cached(s, kind, Some(key), fingerprint)
       <==> !("api-key" <= CacheKey(kind, key))
  {
    SecretKeyIff(CacheKey(kind, key));
    hide Remembers, Tables, Extras, Ids, Refs, Reaches, SecretKey, JsMap.OrderedMap.Valid, JsMap.Distinct, CacheKey;
    StartsOk();
    Run(Initial(), steps, s);
    ReplaysDisjoint(s);
    BuriedKeys(s);
  }

  lemma SecretKeyIff(k: string)
    ensures SecretKey(k) <==> "api-key" <= k
  {
    assert |"api-key"| == 7;
  }

  lemma RevocationKey(key: string)
    ensures SecretKey(CacheKey("api-key-revoke", key))
  {
    assert "api-key-revoke"[..7] == "api-key";
    assert CacheKey("api-key-revoke", key)[..7] == "api-key-revoke"[..7];
  }

  /** Its input: a revocation, whose reply is a record without a secret.  Sent again it is answered again, but after a
      restart it is refused. */
  lemma RevocationNotReplayed(steps: seq<Step>, s: State, apiKeyId: string, key: string, now: int)
    requires Reaches(Initial(), steps, s) && 0 <= now <= MaxTime && RevokeApiKey(s, apiKeyId, Some(key), now).Ok?
    ensures var (t, reply) := RevokeApiKey(s, apiKeyId, Some(key), now).value;
            && Disjoint(t) && RevokeApiKey(t, apiKeyId, Some(key), now) == Ok((t, reply))
            && RevokeApiKey(Recovered(t), apiKeyId, Some(key), now) == Err(Conflict)
  {
    hide Tables, Extras, Ids, Refs, Reaches, SecretKey, JsMap.OrderedMap.Valid, JsMap.Distinct, CacheKey, Join,
         Recovered, WithoutSecrets, PutApiKey, RevokedKey;
    StartsOk();
    Run(Initial(), steps, s);
    RevokeKeeps(s, apiKeyId, Some(key), now);
    var t := RevokeApiKey(s, apiKeyId, Some(key), now).value.0;
    ReplaysDisjoint(t);
    BuriedKeys(t);
    RevocationKey(Scoped(Some(key), apiKeyId).value);
    RevokedIsBuried(t, CacheKey("api-key-revoke", Scoped(Some(key), apiKeyId).value));
  }

  lemma RevokedIsBuried(s: State, k: string)
    requires Disjoint(s) && k in s.idempotency.vals && SecretKey(k)
    ensures k in Recovered(s).tombstones.vals
  {
    BuriedKeys(s);
  }

  lemma KeyAddedRestorable(s: State, x: ApiKey, hash: string)
    requires Restorable(s) && x.apiKeyId != ""
    ensures Restorable(Install(s, x, hash))
  {
    hide JsMap.OrderedMap.Valid, JsMap.Distinct, Fits;
  }

  lemma RevokedRestorable(s: State, x: ApiKey, key: string)
    requires Restorable(s) && x.apiKeyId != "" && CacheKey("api-key-revoke", key) !in s.tombstones.vals
    requires FitsKey(CacheKey("api-key-revoke", key)) && CacheKey("api-key-revoke", key) !in s.fingerprints
    ensures Restorable(Saved(WithoutSecrets(PutApiKey(s, x), x.apiKeyId), "api-key-revoke", Some(key), RevokedReply(x),
                             None))
  {
    hide JsMap.OrderedMap.Valid, JsMap.Distinct, CacheKey, FitsKey, FitsFingerprint;
    var t := Saved(WithoutSecrets(PutApiKey(s, x), x.apiKeyId), "api-key-revoke", Some(key), RevokedReply(x), None);
    forall k | k in t.idempotency.keys + t.tombstones.keys
      ensures k == CacheKey("api-key-revoke", key) || k in s.idempotency.keys + s.tombstones.keys
    {
    }
  }

  const Zeros: string := seq(64, i => '0')

  /** The same as a run from an empty store: an environment, a key, its revocation, after which the snapshot is
      accepted. */
  lemma RevocationRun() returns (steps: seq<Step>, s: State)
    ensures Reaches(Initial(), steps, s) && RevokeApiKey(s, "k", Some("r"), 0).Ok?
    ensures Restorable(RevokeApiKey(s, "k", Some("r"), 0).value.0)
  {
    hide JsMap.OrderedMap.Valid, JsMap.Distinct, Restorable, Reaches, ScopeText, Prefix, JsMap.Unique, CacheKey;
    var seed := SeedStep;
    var create := Step(ApiKeyCreated(HomeScope, KeyInput([], None), None, "", "k", Secret("secret", Zeros)), 0);
    SeededState();
    ReachesTwo(seed, create);
    var home := Next(Initial(), seed);
    var x := NewApiKey(HomeScope, KeyInput([], None), "k", Secret("secret", Zeros), 0);
    steps, s := [seed, create], Next(home, create);
    assert s == Install(home, x, Zeros);
    KeyAddedRestorable(home, x, Zeros);
    RevocationKeyFits();
    RevokedRestorable(s, RevokedKey(x, 0), Join("k", "r"));
  }

  lemma RevocationKeyFits()
    ensures FitsKey(CacheKey("api-key-revoke", Join("k", "r")))
  {
    assert CacheKey("api-key-revoke", Join("k", "r")) == "api-key-revoke:k:r";
  }

  /* ----- whose key a request is given ----- */

  predicate PlainScope(scope: T.Scope) {
    ColonFree(scope.tenantId) && ColonFree(scope.projectId) && ColonFree(scope.environmentId)
  }

  function ScopeKey(scope: T.Scope, key: string): string {
    CacheKey("api-key", Join(ScopeText(scope), key))
  }

  lemma JoinAssociates(a: string, b: string, c: string)
    ensures Join(Join(a, b), c) == Join(a, Join(b, c))
  {
  }

  lemma ScopeKeyIsInjective(a: T.Scope, x: string, b: T.Scope, y: string)
    requires PlainScope(a) && PlainScope(b)
    ensures ScopeKey(a, x) == ScopeKey(b, y) <==> a == b && x == y
  {
    hide Join, ColonFree;
    JoinAssociates(Join(a.tenantId, a.projectId), a.environmentId, x);
    JoinAssociates(a.tenantId, a.projectId, Join(a.environmentId, x));
    JoinAssociates(Join(b.tenantId, b.projectId), b.environmentId, y);
    JoinAssociates(b.tenantId, b.projectId, Join(b.environmentId, y));
    assert ColonFree("api-key") by { PlainKinds(); }
    JoinIsInjective("api-key", Join(ScopeText(a), x), "api-key", Join(ScopeText(b), y));
    JoinIsInjective(a.tenantId, Join(a.projectId, Join(a.environmentId, x)), b.tenantId,
                    Join(b.projectId, Join(b.environmentId, y)));
    JoinIsInjective(a.projectId, Join(a.environmentId, x), b.projectId, Join(b.environmentId, y));
    JoinIsInjective(a.environmentId, x, b.environmentId, y);
  }

  lemma PlainKinds()
    ensures ColonFree("api-key") && ColonFree("api-key-rotate") && ColonFree("api-key-revoke") && ColonFree("tenant")
    ensures ColonFree("project") && ColonFree("environment") && ColonFree("member")
  {
  }

  /** A kept reply to a key request of this scope is a key of this scope. */
  ghost predicate ReplyInScope(s: State, scope: T.Scope, key: string) {
    ScopeKey(scope, key) in s.idempotency.vals ==> IsKeyOf(s.idempotency.vals[ScopeKey(scope, key)], scope)
  }

  predicate IsKeyOf(r: Reply, scope: T.Scope) {
    && r.IssuedReply? && r.metadata.tenantId == scope.tenantId && r.metadata.projectId == scope.projectId
    && r.metadata.environmentId == scope.environmentId
  }

  ghost predicate RepliesInScope(s: State) {
    forall scope, key {:trigger ReplyInScope(s, scope, key)} :: PlainScope(scope) ==> ReplyInScope(s, scope, key)
  }

  predicate PlainRequest(step: Step) {
    step.event.ApiKeyCreated? ==> PlainScope(step.event.scope)
  }

  /** What a step may keep: nothing new, or one reply under one key of its kind. */
  lemma SavedInScope(s: State, m: State, kind: string, key: Option<string>, reply: Reply, fingerprint: Option<string>)
    requires RepliesInScope(s) && m.idempotency == s.idempotency && ColonFree(kind)
    requires kind == "api-key" && key.Some? ==>
               exists scope, x :: PlainScope(scope) && key.value == Join(ScopeText(scope), x) && IsKeyOf(reply, scope)
    ensures RepliesInScope(Saved(m, kind, key, reply, fingerprint))
  {
    hide ScopeText, ColonFree, JsMap.OrderedMap.Valid, JsMap.Distinct, Join, IsKeyOf, PlainScope;
    var t := Saved(m, kind, key, reply, fingerprint);
    forall scope, x | PlainScope(scope)
      ensures ReplyInScope(t, scope, x)
    {
      assert ReplyInScope(s, scope, x);
      if key.Some? && ScopeKey(scope, x) == CacheKey(kind, key.value) {
        PlainKinds();
        JoinIsInjective("api-key", Join(ScopeText(scope), x), kind, key.value);
        var other, y :| PlainScope(other) && key.value == Join(ScopeText(other), y) && IsKeyOf(reply, other);
        ScopeKeyIsInjective(scope, x, other, y);
      }
    }
  }

  lemma OtherKinds()
    ensures "tenant" != "api-key" && "project" != "api-key" && "environment" != "api-key" && "member" != "api-key"
    ensures "api-key-rotate" != "api-key" && "api-key-revoke" != "api-key"
  {
    assert "project"[0] != "api-key"[0];
  }

  ghost predicate SameIdempotency(s: State, t: State) {
    t.idempotency == s.idempotency
  }

  lemma SameInScope(s: State, t: State)
    requires RepliesInScope(s) && SameIdempotency(s, t)
    ensures RepliesInScope(t)
  {
    hide ScopeKey, IsKeyOf, PlainScope, JsMap.OrderedMap.Valid, JsMap.Distinct;
    forall scope, x | PlainScope(scope)
      ensures ReplyInScope(t, scope, x)
    {
      assert ReplyInScope(s, scope, x);
    }
  }

  lemma FewerInScope(s: State, t: State)
    requires RepliesInScope(s)
    requires forall k :: k in t.idempotency.vals ==>
               k in s.idempotency.vals && t.idempotency.vals[k] == s.idempotency.vals[k]
    ensures RepliesInScope(t)
  {
    hide ScopeKey, IsKeyOf, PlainScope, JsMap.OrderedMap.Valid, JsMap.Distinct;
    forall scope, x | PlainScope(scope)
      ensures ReplyInScope(t, scope, x)
    {
      assert ReplyInScope(s, scope, x);
    }
  }

  lemma KeyRequestInScope(
    s: State, scope: T.Scope, q: KeyInput, key: Option<string>, fingerprint: string, id: string, secret: Secret,
    now: int)
    requires RepliesInScope(s) && PlainScope(scope)
    ensures RepliesInScope(StateOf(s, CreateApiKey(s, scope, q, key, fingerprint, id, secret, now)))
  {
    hide RepliesInScope, Saved, Cached, ScopeText, Join, PlainScope, InScope, JsMap.OrderedMap.Valid, JsMap.Distinct;
    var issued := IssuedReply(NewApiKey(scope, q, id, secret, now), secret.text);
    var m, scoped := Install(s, issued.metadata, secret.hash), Scoped(key, ScopeText(scope));
    PlainKinds();
    if key.Some? {
      assert scoped.value == Join(ScopeText(scope), key.value) && IsKeyOf(issued, scope);
    }
    if InScope(s, scope) && Cached(s, "api-key", scoped, Some(fingerprint)) == Ok(None) {
      SavedInScope(s, m, "api-key", scoped, issued, Some(fingerprint));
    }
  }

  lemma RotationInScope(s: State, apiKeyId: string, key: Option<string>, secret: Secret, graceMs: int, now: int)
    requires RepliesInScope(s)
    ensures RepliesInScope(StateOf(s, RotateApiKey(s, apiKeyId, key, secret, graceMs, now)))
  {
    hide RepliesInScope, Saved, Cached, Join, Rotated, JsMap.OrderedMap.Valid, JsMap.Distinct;
    PlainKinds();
    OtherKinds();
    if apiKeyId in s.apiKeys.vals {
      var issued := IssuedReply(Rotated(s.apiKeys.vals[apiKeyId], secret.text, now), secret.text);
      var m := Install(Graced(s, apiKeyId, graceMs, now), issued.metadata, secret.hash);
      if Cached(s, "api-key-rotate", Scoped(key, apiKeyId), None) == Ok(None) {
        SavedInScope(s, m, "api-key-rotate", Scoped(key, apiKeyId), issued, None);
      }
    }
  }

  lemma RevocationInScope(s: State, apiKeyId: string, key: Option<string>, now: int)
    requires RepliesInScope(s)
    ensures RepliesInScope(StateOf(s, RevokeApiKey(s, apiKeyId, key, now)))
  {
    hide RepliesInScope, Saved, Cached, Join, RevokedKey, JsMap.OrderedMap.Valid, JsMap.Distinct;
    PlainKinds();
    OtherKinds();
    if apiKeyId in s.apiKeys.vals {
      var metadata := RevokedKey(s.apiKeys.vals[apiKeyId], now);
      var m := WithoutSecrets(PutApiKey(s, metadata), apiKeyId);
      if Cached(s, "api-key-revoke", Scoped(key, apiKeyId), None) == Ok(None) {
        SavedInScope(s, m, "api-key-revoke", Scoped(key, apiKeyId), RevokedReply(metadata), None);
      }
    }
  }

  lemma ScopesInScope(s: State, step: Step)
    requires RepliesInScope(s)
    requires step.event.TenantCreated? || step.event.ProjectCreated? || step.event.EnvironmentCreated?
             || step.event.MemberCreated?
    ensures RepliesInScope(Next(s, step))
  {
    hide RepliesInScope, Saved, Cached, Join, JsMap.OrderedMap.Valid, JsMap.Distinct, SlugTaken, MemberTaken,
         NewTenant, NewProject, NewEnvironment, NewMember;
    PlainKinds();
    OtherKinds();
    match step.event
    case TenantCreated(q, key, fingerprint, id) =>
      var x := NewTenant(q, id, step.now);
      SavedInScope(s, PutTenant(s, x), "tenant", key, TenantReply(x), Some(fingerprint));
    case ProjectCreated(q, key, fingerprint, id) =>
      var x := NewProject(q, id, step.now);
      SavedInScope(s, PutProject(s, x), "project", Scoped(key, q.tenantId), ProjectReply(x), Some(fingerprint));
    case EnvironmentCreated(q, key, fingerprint, id, quotaId) =>
      if q.projectId in s.projects.vals {
        var x := NewEnvironment(q, s.projects.vals[q.projectId], id, quotaId, step.now);
        var m := PutQuota(PutEnvironment(s, x), Quota(x.quotaPolicyId, DefaultPolicy, step.now));
        SavedInScope(s, m, "environment", Scoped(key, Join(q.tenantId, q.projectId)), EnvironmentReply(x),
                     Some(fingerprint));
      }
    case MemberCreated(tenantId, q, key, fingerprint, id) =>
      var x := NewMember(tenantId, q, id, step.now);
      SavedInScope(s, PutMember(s, x), "member", Scoped(key, tenantId), MemberReply(x), Some(fingerprint));
  }

  lemma UnkeyedInScope(s: State, step: Step)
    requires step.event.Seeded? || step.event.MemberUpdated? || step.event.EnvironmentUpdated?
             || step.event.SecretUsed? || step.event.UsageRecorded? || step.event.AuditAppended?
             || step.event.TokenCounted? || step.event.TokenReleased?
    ensures SameIdempotency(s, Next(s, step))
  {
    hide JsMap.OrderedMap.Valid, JsMap.Distinct, RecordUsage, AppendAudit, Patched, InScope, T.Admits, T.Counted,
         FirstMatch, Usable;
  }

  lemma RestartInScope(s: State, now: int)
    requires Inv(s) && RepliesInScope(s)
    ensures RepliesInScope(Next(s, Step(Restarted, now)))
  {
    hide Inv, Restore, TakeSnapshot, Restorable, Disjoint, Buried, RepliesInScope, SecretKey, JsMap.OrderedMap.Valid,
         JsMap.Distinct;
    SnapshotRestores(s);
    if Restorable(s) {
      FewerInScope(s, Recovered(s));
    }
  }

  lemma InScopeStep(s: State, step: Step)
    requires Inv(s) && Enabled(step) && RepliesInScope(s) && PlainRequest(step)
    ensures RepliesInScope(Next(s, step))
  {
    hide Inv, RepliesInScope, SameIdempotency, CreateApiKey, RotateApiKey, RevokeApiKey, Resolve, CreateTenant,
         CreateProject, CreateEnvironment, CreateMember, Seed, UpdateMember, UpdateEnvironment, CountToken,
         ReleaseToken, Restore, PlainScope, StateOf, IsHash;
    match step.event
    case ApiKeyCreated(scope, q, key, fingerprint, id, secret) =>
      KeyRequestInScope(s, scope, q, key, fingerprint, id, secret, step.now);
    case ApiKeyRotated(apiKeyId, key, secret, graceMs) => RotationInScope(s, apiKeyId, key, secret, graceMs, step.now);
    case ApiKeyRevoked(apiKeyId, key) => RevocationInScope(s, apiKeyId, key, step.now);
    case Restarted => RestartInScope(s, step.now);
    case TenantCreated(_, _, _, _) => ScopesInScope(s, step);
    case ProjectCreated(_, _, _, _) => ScopesInScope(s, step);
    case EnvironmentCreated(_, _, _, _, _) => ScopesInScope(s, step);
    case MemberCreated(_, _, _, _, _) => ScopesInScope(s, step);
    case _ =>
      UnkeyedInScope(s, step);
      SameInScope(s, Next(s, step));
  }

  lemma {:induction false} InScopeRun(s: State, steps: seq<Step>, t: State)
    requires Inv(s) && RepliesInScope(s) && Reaches(s, steps, t) && forall i :: 0 <= i < |steps| ==>
               PlainRequest(steps[i])
    ensures RepliesInScope(t)
    decreases |steps|
  {
    hide Inv, RepliesInScope, Next, Enabled, PlainRequest;
    if steps != [] {
      InvStep(s, steps[0]);
      InScopeStep(s, steps[0]);
      InScopeRun(Next(s, steps[0]), steps[1..], t);
    }
  }

  lemma EmptyInScope()
    ensures RepliesInScope(Initial())
  {
  }

  /** Main result: when the ids of the scopes hold no colon, a key request is answered, at once or in a replay, with a
      key of the very scope it names. */
  lemma KeysStayInScope(
    steps: seq<Step>, s: State, scope: T.Scope, q: KeyInput, key: Option<string>, fingerprint: string, id: string,
    secret: Secret, now: int)
    requires Reaches(Initial(), steps, s) && forall i :: 0 <= i < |steps| ==> PlainRequest(steps[i])
    requires PlainScope(scope) && CreateApiKey(s, scope, q, key, fingerprint, id, secret, now).Ok?
    ensures IsKeyOf(CreateApiKey(s, scope, q, key, fingerprint, id, secret, now).value.1, scope)
  {
    hide Inv, Reaches, Saved, PlainRequest, PlainScope, Join, ScopeText, Install, JsMap.OrderedMap.Valid,
         JsMap.Distinct;
    StartsOk();
    EmptyInScope();
    InScopeRun(Initial(), steps, s);
    if key.Some? {
      assert ReplyInScope(s, scope, key.value);
    }
  }

  /* ----- window values and window objects, along whole runs ----- */

  /** A step of the store with its window objects; a release names the environment that uses the handle's window, if
      any. */
  datatype Joint =
    | Plain(step: Step)
    | Reserve(scope: T.Scope, now: int)
    | Release(handle: nat, user: Option<string>)

  predicate JointEnabled(v: T.State, e: Joint) {
    match e
    case Plain(step) => Enabled(step) && !step.event.TokenCounted? && !step.event.TokenReleased?
                        && !step.event.Restarted?
    case Reserve(_, now) => 0 <= now <= MaxTime
    case Release(h, user) =>
      && h < |v.handles| && !v.handles[h].released
      && (user.Some? ==> user.value in v.current && v.current[user.value] == v.handles[h].window)
      && (user.None? ==> forall env :: env in v.current ==> v.current[env] != v.handles[h].window)
  }

  function StoreAfter(s: State, e: Joint): State {
    match e
    case Plain(step) => Next(s, step)
    case Reserve(scope, now) => Next(s, Step(TokenCounted(scope), now))
    case Release(_, user) => if user.Some? then ReleaseToken(s, user.value) else s
  }

  /** The policy a reservation in this scope is measured by. */
  predicate HasPolicy(s: State, scope: T.Scope) {
    && InScope(s, scope) && s.environments.vals[scope.environmentId].status.EnvironmentActive?
    && s.environments.vals[scope.environmentId].quotaPolicyId in s.quotas.vals
  }

  function WindowsAfter(s: State, v: T.State, e: Joint): (w: T.State)
    requires T.WellFormed(v)
    ensures T.WellFormed(w)
  {
    match e
    case Plain(_) => v
    case Reserve(scope, now) =>
      if !HasPolicy(s, scope) then v
      else
        var policy := s.quotas.vals[s.environments.vals[scope.environmentId].quotaPolicyId].policy;
        TokenProofs.Next(v, TokenProofs.Take(scope.environmentId, policy, now))
    case Release(h, _) => TokenProofs.Next(v, TokenProofs.Give(h))
  }

  ghost predicate JointReaches(s: State, v: T.State, events: seq<Joint>, t: State, w: T.State)
    requires T.WellFormed(v)
    decreases |events|
  {
    if events == [] then t == s && w == v
    else
      && JointEnabled(v, events[0])
      && JointReaches(StoreAfter(s, events[0]), WindowsAfter(s, v, events[0]), events[1..], t, w)
  }

  lemma PlainKeepsWindows(s: State, step: Step)
    requires !step.event.TokenCounted? && !step.event.TokenReleased? && !step.event.Restarted?
    ensures Next(s, step).tokenWindows == s.tokenWindows
  {
    hide JsMap.OrderedMap.Valid, JsMap.Distinct, Cached, CacheKey, SlugTaken, MemberTaken, InScope, RecordUsage,
         AppendAudit, NewTenant, NewProject, NewApiKey, NewMember, NewEnvironment, Patched, Rotated, RevokedKey,
         IsHash, Join, ScopeText, Prefix, FirstMatch, Usable;
  }

  lemma ReserveShows(s: State, v: T.State, scope: T.Scope, now: int)
    requires ShowsWindows(s, v) && TokenProofs.Inv(v)
    ensures ShowsWindows(StoreAfter(s, Reserve(scope, now)), WindowsAfter(s, v, Reserve(scope, now)))
  {
    hide ShowsWindows, TokenProofs.Inv, T.Reserve, InScope, T.Admits, T.Counted, JsMap.OrderedMap.Valid, JsMap.Distinct;
    if HasPolicy(s, scope) {
      CountingIsReserving(s, v, scope, now);
    }
  }

  lemma JointStep(s: State, v: T.State, e: Joint)
    requires ShowsWindows(s, v) && TokenProofs.Inv(v) && JointEnabled(v, e)
    ensures ShowsWindows(StoreAfter(s, e), WindowsAfter(s, v, e)) && TokenProofs.Inv(WindowsAfter(s, v, e))
  {
    hide TokenProofs.WindowOk, T.Reserve, Next, IsHash, JsMap.OrderedMap.Valid, JsMap.Distinct;
    match e
    case Plain(step) => PlainKeepsWindows(s, step);
    case Reserve(scope, now) =>
      ReserveShows(s, v, scope, now);
      if HasPolicy(s, scope) {
        var policy := s.quotas.vals[s.environments.vals[scope.environmentId].quotaPolicyId].policy;
        if T.Reserve(v, scope.environmentId, policy, now).Ok? {
          TokenProofs.ReserveKeeps(v, scope.environmentId, policy, now);
        }
      }
    case Release(h, user) =>
      ReleasingShows(s, v, h, if user.Some? then user.value else "");
      TokenProofs.ReleaseKeeps(v, h);
  }

  lemma {:induction false} JointRun(s: State, v: T.State, events: seq<Joint>, t: State, w: T.State)
    requires ShowsWindows(s, v) && TokenProofs.Inv(v) && JointReaches(s, v, events, t, w)
    ensures ShowsWindows(t, w) && TokenProofs.Inv(w)
    decreases |events|
  {
    hide ShowsWindows, TokenProofs.WindowOk, StoreAfter, WindowsAfter, JointEnabled;
    if events != [] {
      JointStep(s, v, events[0]);
      JointRun(StoreAfter(s, events[0]), WindowsAfter(s, v, events[0]), events[1..], t, w);
    }
  }

  /** Main result: from an empty store to its next restart, whatever is done, the table a snapshot saves shows each
      environment the values of its current window object, whose counts are those of its handles. */
  lemma WindowsAreShown(events: seq<Joint>, t: State, w: T.State)
    requires JointReaches(Initial(), T.Initial(), events, t, w)
    ensures ShowsWindows(t, w)
    ensures forall env :: env in t.tokenWindows.vals ==>
              env in w.current && t.tokenWindows.vals[env].concurrent == TokenProofs.Open(w.handles, w.current[env])
  {
    hide JointReaches, JsMap.OrderedMap.Valid, JsMap.Distinct;
    TokenProofs.InitialInv();
    JointRun(Initial(), T.Initial(), events, t, w);
    forall env | env in t.tokenWindows.vals
      ensures t.tokenWindows.vals[env].concurrent == TokenProofs.Open(w.handles, w.current[env])
    {
      assert TokenProofs.WindowOk(w, w.current[env]);
    }
  }
}
