/**
 Which secrets the store takes: what creating, rotating and revoking an API key do to the tables, and over runs, with
 restarts, that a secret is good from the moment it is issued until its key is rotated and the grace has run out, its
 key is revoked, or its key expires.
 */
module StoreKeys {
  import opened Common
  import opened Text
  import opened ColonKeys
  import opened PlatformStore
  import opened StoreRecovery
  import opened StoreProofs
  import JsMap
  import T = TokenQuota

  /* ----- one operation ----- */

  predicate IsPrefix(p: string, secret: string) {
    p <= secret && |p| == if |secret| < 12 then |secret| else 12
  }

  /** The request has no key, or none that was answered under before. */
  predicate NewRequest(s: State, kind: string, key: Option<string>) {
    key.Some? ==> !Used(s, CacheKey(kind, key.value))
  }

  lemma NotCached(s: State, kind: string, key: Option<string>, fingerprint: Option<string>)
    requires NewRequest(s, kind, key)
    ensures Cached(s, kind, key, fingerprint) == Ok(None)
  {
    hide CacheKey;
  }

  lemma OnlyReplies(s: State, kind: string, key: Option<string>, reply: Reply, fingerprint: Option<string>)
    ensures var t := Saved(s, kind, key, reply, fingerprint);
            t.apiKeys == s.apiKeys && t.secretHashes == s.secretHashes && t.graceHashes == s.graceHashes
  {
    hide CacheKey, JsMap.OrderedMap.Valid, JsMap.Distinct;
  }

  /** Main result: a rotation that is not a replay goes through exactly for an active key.  The new hash takes the
      key's place, and the hash before it goes to the grace table with the end of its grace if there is any; no other
      key is touched. */
  lemma RotationIff(s: State, k: string, key: Option<string>, secret: Secret, graceMs: int, now: int)
    requires Ids(s) && NewRequest(s, "api-key-rotate", Scoped(key, k))
    ensures var r := RotateApiKey(s, k, key, secret, graceMs, now);
            && (r.Ok? <==> k in s.apiKeys.vals && s.apiKeys.vals[k].status == KeyActive)
            && (r.Err? ==> r.error == if k in s.apiKeys.vals then Conflict else NotFound)
            && (r.Ok? ==>
                  var a, t := s.apiKeys.vals[k], r.value.0;
                  && t.secretHashes.vals == s.secretHashes.vals[k := secret.hash]
                  && t.graceHashes.vals ==
                     (if k in s.secretHashes.vals && graceMs > 0
                      then s.graceHashes.vals[k := Grace(s.secretHashes.vals[k], now + graceMs)]
                      else s.graceHashes.vals)
                  && k in t.apiKeys.vals && t.apiKeys.vals == s.apiKeys.vals[k := t.apiKeys.vals[k]]
                  && (var b := t.apiKeys.vals[k];
                      && IsPrefix(b.keyPrefix, secret.text) && b.version == a.version + 1 && b.createdAt == now
                      && b == a.(keyPrefix := b.keyPrefix, version := b.version, createdAt := now)
                      && r.value.1 == IssuedReply(b, secret.text)))
  {
    hide CacheKey, Join, Cached, Saved, Ids, JsMap.OrderedMap.Valid, JsMap.Distinct;
    NotCached(s, "api-key-rotate", Scoped(key, k), None);
    if k in s.apiKeys.vals {
      KeyIds(s, k);
      var issued := IssuedReply(Rotated(s.apiKeys.vals[k], secret.text, now), secret.text);
      var m := Install(Graced(s, k, graceMs, now), issued.metadata, secret.hash);
      OnlyReplies(m, "api-key-rotate", Scoped(key, k), issued, None);
    }
  }

  lemma KeyIds(s: State, k: string)
    requires Ids(s) && k in s.apiKeys.vals
    ensures s.apiKeys.vals[k].apiKeyId == k
  {
  }

  /** Main result: a revocation that is not a replay goes through exactly for a key there is, and takes both its hashes
      away. */
  lemma RevocationIff(s: State, k: string, key: Option<string>, now: int)
    requires Ids(s) && NewRequest(s, "api-key-revoke", Scoped(key, k))
    ensures var r := RevokeApiKey(s, k, key, now);
            && (r.Ok? <==> k in s.apiKeys.vals)
            && (r.Err? ==> r.error == NotFound)
            && (r.Ok? ==>
                  var a, t := s.apiKeys.vals[k], r.value.0;
                  && t.secretHashes.vals == s.secretHashes.vals - {k}
                  && t.graceHashes.vals == s.graceHashes.vals - {k}
                  && k in t.apiKeys.vals && t.apiKeys.vals == s.apiKeys.vals[k := t.apiKeys.vals[k]]
                  && (var b := t.apiKeys.vals[k];
                      && b.status == Revoked && b.revokedAt == Some(now) && b.version == a.version + 1
                      && b == a.(status := b.status, revokedAt := b.revokedAt, version := b.version)
                      && r.value.1 == RevokedReply(b)))
  {
    hide CacheKey, Join, Cached, Saved, Ids, JsMap.OrderedMap.Valid, JsMap.Distinct;
    NotCached(s, "api-key-revoke", Scoped(key, k), None);
    if k in s.apiKeys.vals {
      KeyIds(s, k);
      var metadata := RevokedKey(s.apiKeys.vals[k], now);
      var m := WithoutSecrets(PutApiKey(s, metadata), k);
      OnlyReplies(m, "api-key-revoke", Scoped(key, k), RevokedReply(metadata), None);
    }
  }

  /** Main result: a key request that is not a replay goes through exactly for an environment in the scope it names, and
      enters an active key of that scope with the hash of its secret. */
  lemma CreationIff(s: State, scope: T.Scope, q: KeyInput, key: Option<string>, fingerprint: string, id: string,
                    secret: Secret, now: int)
    requires NewRequest(s, "api-key", Scoped(key, ScopeText(scope)))
    ensures var r := CreateApiKey(s, scope, q, key, fingerprint, id, secret, now);
            && (r.Ok? <==>
                  && scope.environmentId in s.environments.vals
                  && s.environments.vals[scope.environmentId].projectId == scope.projectId
                  && s.environments.vals[scope.environmentId].tenantId == scope.tenantId)
            && (r.Err? ==> r.error == NotFound)
            && (r.Ok? ==>
                  var t := r.value.0;
                  && t.secretHashes.vals == s.secretHashes.vals[id := secret.hash] && t.graceHashes == s.graceHashes
                  && id in t.apiKeys.vals && t.apiKeys.vals == s.apiKeys.vals[id := t.apiKeys.vals[id]]
                  && (var b := t.apiKeys.vals[id];
                      && b.apiKeyId == id && b.tenantId == scope.tenantId && b.projectId == scope.projectId
                      && b.environmentId == scope.environmentId && IsPrefix(b.keyPrefix, secret.text)
                      && (forall x :: x in b.scopes <==> x in q.scopes) && JsMap.Distinct(b.scopes)
                      && b.status == KeyActive && b.expiresAt == q.expiresAt && b.createdAt == now
                      && b.revokedAt == None && b.version == 1 && b.lastUsedAt == None
                      && r.value.1 == IssuedReply(b, secret.text)))
  {
    hide CacheKey, Join, Cached, Saved, ScopeText, JsMap.OrderedMap.Valid, JsMap.Distinct;
    var scoped := Scoped(key, ScopeText(scope));
    NotCached(s, "api-key", scoped, Some(fingerprint));
    var issued := IssuedReply(NewApiKey(scope, q, id, secret, now), secret.text);
    OnlyReplies(Install(s, issued.metadata, secret.hash), "api-key", scoped, issued, Some(fingerprint));
  }

  /* ----- all there is to say about a key ----- */

  /** A key's own hash, its grace and its record but for the time it was last used. */
  datatype Slot = Slot(own: Option<string>, grace: Option<Grace>, metadata: Option<ApiKey>)

  function Unused(k: Option<ApiKey>): Option<ApiKey> {
    if k.Some? then Some(k.value.(lastUsedAt := None)) else None
  }

  function SlotOf(s: State, k: string): Slot {
    Slot(JsMap.Get(s.secretHashes, k), JsMap.Get(s.graceHashes, k), Unused(JsMap.Get(s.apiKeys, k)))
  }

  function Named(e: Event): Option<string> {
    match e
    case ApiKeyCreated(_, _, _, _, id, _) => Some(id)
    case ApiKeyRotated(k, _, _, _) => Some(k)
    case ApiKeyRevoked(k, _) => Some(k)
    case _ => None
  }

  ghost predicate SameKeys(s: State, t: State) {
    t.apiKeys == s.apiKeys && t.secretHashes == s.secretHashes && t.graceHashes == s.graceHashes
  }

  lemma OtherTables(s: State, step: Step)
    requires Named(step.event).None? && !step.event.SecretUsed? && !step.event.Restarted?
    ensures SameKeys(s, Next(s, step))
  {
    hide JsMap.OrderedMap.Valid, JsMap.Distinct, Cached, CacheKey, SlugTaken, MemberTaken, InScope, RecordUsage,
         AppendAudit, T.Admits, T.Counted, NewTenant, NewProject, NewEnvironment, NewMember, Patched, Join;
  }

  lemma RestartKeys(s: State, now: int)
    requires Inv(s)
    ensures SameKeys(s, Next(s, Step(Restarted, now)))
  {
    hide Inv, Restore, TakeSnapshot, Restorable, Disjoint;
    SnapshotRestores(s);
    if Restorable(s) {
      RecoveredKeys(s);
    }
  }

  lemma RecoveredKeys(s: State)
    requires Disjoint(s)
    ensures SameKeys(s, Recovered(s))
  {
    hide JsMap.OrderedMap.Valid, JsMap.Distinct, Kept, Buried, Disjoint;
  }

  lemma UseKeepsSlots(s: State, supplied: string, now: int, k: string)
    ensures SlotOf(Resolve(s, supplied, now).0, k) == SlotOf(s, k)
  {
    hide JsMap.OrderedMap.Valid, JsMap.Distinct, FirstMatch, Usable;
  }

  lemma SameSlots(s: State, t: State, k: string)
    requires SameKeys(s, t)
    ensures SlotOf(t, k) == SlotOf(s, k)
  {
  }

  /** A rotation, revocation or creation that changes anything is not a replay. */
  lemma ChangeIsNew(s: State, step: Step)
    requires Next(s, step) != s
    ensures match step.event
            case ApiKeyCreated(scope, _, key, _, _, _) => NewRequest(s, "api-key", Scoped(key, ScopeText(scope)))
            case ApiKeyRotated(k, key, _, _) => NewRequest(s, "api-key-rotate", Scoped(key, k))
            case ApiKeyRevoked(k, key) => NewRequest(s, "api-key-revoke", Scoped(key, k))
            case _ => true
  {
    hide JsMap.OrderedMap.Valid, JsMap.Distinct, CacheKey, Join, ScopeText, Saved, Install, Graced, WithoutSecrets,
         NewApiKey, Rotated, RevokedKey, InScope;
  }

  lemma {:induction false} OtherSlots(s: State, step: Step, k: string)
    requires Inv(s) && Named(step.event) != Some(k)
    ensures SlotOf(Next(s, step), k) == SlotOf(s, k)
  {
    hide JsMap.OrderedMap.Valid, JsMap.Distinct, Inv, RotateApiKey, RevokeApiKey, CreateApiKey, ScopeText, Scoped,
         NewRequest, Resolve, Restore, TakeSnapshot, IsPrefix;
    if Next(s, step) != s {
      ChangeIsNew(s, step);
      InvIds(s);
      match step.event
      case ApiKeyCreated(scope, q, key, fingerprint, id, secret) =>
        CreationIff(s, scope, q, key, fingerprint, id, secret, step.now);
      case ApiKeyRotated(id, key, secret, graceMs) => RotationIff(s, id, key, secret, graceMs, step.now);
      case ApiKeyRevoked(id, key) => RevocationIff(s, id, key, step.now);
      case SecretUsed(supplied) => UseKeepsSlots(s, supplied, step.now, k);
      case Restarted =>
        RestartKeys(s, step.now);
        SameSlots(s, Next(s, step), k);
      case _ =>
        OtherTables(s, step);
        SameSlots(s, Next(s, step), k);
    }
  }

  lemma InvIds(s: State)
    requires Inv(s)
    ensures Ids(s)
  {
  }

  /** What a carried out step makes of the key it names. */
  ghost predicate Becomes(a: Slot, b: Slot, step: Step) {
    match step.event
    case ApiKeyCreated(scope, q, _, _, id, secret) =>
      && b.own == Some(secret.hash) && b.grace == a.grace && b.metadata.Some?
      && b.metadata.value.status == KeyActive && b.metadata.value.expiresAt == q.expiresAt
      && b.metadata.value.tenantId == scope.tenantId && b.metadata.value.projectId == scope.projectId
      && b.metadata.value.environmentId == scope.environmentId
      && (forall x :: x in b.metadata.value.scopes <==> x in q.scopes)
    case ApiKeyRotated(_, _, secret, graceMs) =>
      && a.metadata.Some? && a.metadata.value.status == KeyActive && b.own == Some(secret.hash)
      && b.grace == (if a.own.Some? && graceMs > 0 then Some(Grace(a.own.value, step.now + graceMs)) else a.grace)
      && b.metadata.Some? && SameRights(a.metadata.value, b.metadata.value)
    case ApiKeyRevoked(_, _) =>
      && a.metadata.Some? && b.own == None && b.grace == None
      && b.metadata.Some? && b.metadata.value.status == Revoked
    case _ => true
  }

  /** What a key gives access to and for how long. */
  predicate SameRights(a: ApiKey, b: ApiKey) {
    && a.tenantId == b.tenantId && a.projectId == b.projectId && a.environmentId == b.environmentId
    && a.scopes == b.scopes && a.status == b.status && a.expiresAt == b.expiresAt
  }

  lemma RotatedSlot(s: State, step: Step)
    requires Ids(s) && step.event.ApiKeyRotated? && Next(s, step) != s
    ensures Becomes(SlotOf(s, step.event.apiKeyId), SlotOf(Next(s, step), step.event.apiKeyId), step)
  {
    hide JsMap.OrderedMap.Valid, JsMap.Distinct, Ids, RotateApiKey, Scoped, NewRequest, IsPrefix;
    ChangeIsNew(s, step);
    var e := step.event;
    RotationIff(s, e.apiKeyId, e.key, e.secret, e.graceMs, step.now);
  }

  lemma RevokedSlot(s: State, step: Step)
    requires Ids(s) && step.event.ApiKeyRevoked? && Next(s, step) != s
    ensures Becomes(SlotOf(s, step.event.apiKeyId), SlotOf(Next(s, step), step.event.apiKeyId), step)
  {
    hide JsMap.OrderedMap.Valid, JsMap.Distinct, Ids, RevokeApiKey, Scoped, NewRequest;
    ChangeIsNew(s, step);
    RevocationIff(s, step.event.apiKeyId, step.event.key, step.now);
  }

  lemma CreatedSlot(s: State, step: Step)
    requires step.event.ApiKeyCreated? && Next(s, step) != s
    ensures Becomes(SlotOf(s, step.event.id), SlotOf(Next(s, step), step.event.id), step)
  {
    hide JsMap.OrderedMap.Valid, JsMap.Distinct, CreateApiKey, ScopeText, Scoped, NewRequest, IsPrefix;
    ChangeIsNew(s, step);
    var e := step.event;
    CreationIff(s, e.scope, e.apiKey, e.key, e.fingerprint, e.id, e.secret, step.now);
  }

  lemma NamedSlot(s: State, step: Step)
    requires Inv(s) && Named(step.event).Some? && Next(s, step) != s
    ensures Becomes(SlotOf(s, Named(step.event).value), SlotOf(Next(s, step), Named(step.event).value), step)
  {
    hide Inv, Next, Becomes, SlotOf;
    InvIds(s);
    match step.event
    case ApiKeyCreated(_, _, _, _, _, _) => CreatedSlot(s, step);
    case ApiKeyRotated(_, _, _, _) => RotatedSlot(s, step);
    case ApiKeyRevoked(_, _) => RevokedSlot(s, step);
  }

  /* ----- runs with fresh secrets ----- */

  /** The secret with this hash may still open something through this key. */
  predicate Has(slot: Slot, h: string) {
    slot.own == Some(h) || (slot.grace.Some? && slot.grace.value.hash == h)
  }

  ghost predicate Held(s: State, h: string) {
    exists k :: Has(SlotOf(s, k), h)
  }

  /** Ids and secrets are random: a new one is none that is in the store. */
  ghost predicate Fresh(s: State, step: Step) {
    match step.event
    case ApiKeyCreated(_, _, _, _, id, secret) => id !in s.apiKeys.vals && !Held(s, secret.hash)
    case ApiKeyRotated(_, _, secret, _) => !Held(s, secret.hash)
    case _ => true
  }

  ghost predicate FreshReaches(s: State, steps: seq<Step>, t: State)
    decreases |steps|
  {
    if steps == [] then t == s
    else Enabled(steps[0]) && Fresh(s, steps[0]) && FreshReaches(Next(s, steps[0]), steps[1..], t)
  }

  predicate SlotOk(slot: Slot) {
    && (slot.own.Some? <==> slot.metadata.Some? && slot.metadata.value.status == KeyActive)
    && (slot.grace.Some? ==> slot.own.Some? && slot.own != Some(slot.grace.value.hash))
  }

  /** No secret is good for two keys. */
  ghost predicate Separate(s: State) {
    forall k, l, h :: Has(SlotOf(s, k), h) && Has(SlotOf(s, l), h) ==> k == l
  }

  ghost predicate KeysOk(s: State) {
    (forall k :: SlotOk(SlotOf(s, k))) && Separate(s)
  }

  /** A step adds nothing to what a key holds but the secret it issues. */
  lemma SlotStep(s: State, step: Step, k: string)
    requires Inv(s) && Fresh(s, step) && KeysOk(s)
    ensures SlotOk(SlotOf(Next(s, step), k))
    ensures forall h :: Has(SlotOf(Next(s, step), k), h) ==>
              Has(SlotOf(s, k), h) || (Named(step.event) == Some(k) && !Held(s, h) && Issues(step.event, h))
  {
    hide Inv, Next, Separate, SlotOf;
    if Named(step.event) != Some(k) {
      OtherSlots(s, step, k);
    } else if Next(s, step) != s {
      NamedSlot(s, step);
      NoMetadata(s, k);
    }
  }

  lemma NoMetadata(s: State, k: string)
    ensures SlotOf(s, k).metadata.Some? <==> k in s.apiKeys.vals
  {
  }

  predicate Issues(e: Event, h: string) {
    match e
    case ApiKeyCreated(_, _, _, _, _, secret) => secret.hash == h
    case ApiKeyRotated(_, _, secret, _) => secret.hash == h
    case _ => false
  }

  lemma KeysStep(s: State, step: Step)
    requires Inv(s) && Fresh(s, step) && KeysOk(s)
    ensures KeysOk(Next(s, step))
  {
    hide Inv, Next, SlotOk, SlotOf, Fresh, Has, Issues;
    var t := Next(s, step);
    forall k
      ensures SlotOk(SlotOf(t, k))
    {
      SlotStep(s, step, k);
    }
    forall k, l, h | Has(SlotOf(t, k), h) && Has(SlotOf(t, l), h)
      ensures k == l
    {
      SlotStep(s, step, k);
      SlotStep(s, step, l);
    }
  }

  lemma {:induction false} FreshRun(s: State, steps: seq<Step>, t: State)
    requires Inv(s) && KeysOk(s) && FreshReaches(s, steps, t)
    ensures Inv(t) && KeysOk(t) && Reaches(s, steps, t)
    decreases |steps|
  {
    hide Inv, KeysOk, Next, Fresh, Enabled;
    if steps != [] {
      InvStep(s, steps[0]);
      KeysStep(s, steps[0]);
      FreshRun(Next(s, steps[0]), steps[1..], t);
    }
  }

  lemma EmptyKeys()
    ensures KeysOk(Initial())
  {
  }

  /* ----- using a secret ----- */

  lemma {:induction false} FirstMatchIs(s: State, keys: seq<string>, supplied: string, now: int)
    ensures var found := FirstMatch(s, keys, supplied, now);
            && (found.Some? ==> found.value in s.secretHashes.vals && Matches(s, found.value, supplied, now))
            && (found.None? ==> forall k :: k in keys && k in s.secretHashes.vals ==> !Matches(s, k, supplied, now))
  {
    if keys != [] {
      FirstMatchIs(s, keys[..|keys| - 1], supplied, now);
      assert keys == keys[..|keys| - 1] + [keys[|keys| - 1]];
    }
  }

  /** The secret opens the key at this time: it is the key's own or in its grace, and the key has not expired. */
  predicate Opens(slot: Slot, h: string, at: int) {
    && slot.metadata.Some? && !RunOut(slot.metadata.value, at)
    && (slot.own == Some(h) || (slot.grace.Some? && slot.grace.value.hash == h && at < slot.grace.value.expiresAt))
  }

  predicate RunOut(k: ApiKey, at: int) {
    k.expiresAt.Some? && Millis(k.expiresAt.value).Some? && Millis(k.expiresAt.value).value <= at
  }

  function CredentialOf(k: ApiKey): Credential {
    Credential(T.Scope(k.tenantId, k.projectId, k.environmentId), k.scopes)
  }

  lemma MatchesMeans(s: State, k: string, h: string, at: int)
    requires k in s.secretHashes.vals
    ensures Matches(s, k, h, at) ==> Has(SlotOf(s, k), h)
    ensures Matches(s, k, h, at) <==>
              var slot := SlotOf(s, k);
              slot.own == Some(h) || (slot.grace.Some? && slot.grace.value.hash == h && at < slot.grace.value.expiresAt)
  {
  }

  lemma SlotRecord(s: State, k: string)
    ensures (k in s.secretHashes.vals) == SlotOf(s, k).own.Some?
    ensures (k in s.apiKeys.vals) == SlotOf(s, k).metadata.Some?
    ensures k in s.apiKeys.vals ==>
              s.apiKeys.vals[k].(lastUsedAt := None) == SlotOf(s, k).metadata.value
    ensures k in s.secretHashes.vals ==> k in s.secretHashes.keys
  {
  }

  /** What the store answers to a secret held by a key. */
  lemma ResolveHeld(s: State, k: string, h: string, at: int)
    requires KeysOk(s) && Has(SlotOf(s, k), h)
    ensures SlotOf(s, k).metadata.Some?
    ensures Resolve(s, h, at).1 ==
              if Opens(SlotOf(s, k), h, at) then Some(CredentialOf(SlotOf(s, k).metadata.value)) else None
  {
    hide SlotOf, Matches, FirstMatch, JsMap.OrderedMap.Valid, JsMap.Distinct;
    var found := FirstMatch(s, s.secretHashes.keys, h, at);
    FirstMatchIs(s, s.secretHashes.keys, h, at);
    SlotRecord(s, k);
    assert SlotOk(SlotOf(s, k));
    MatchesMeans(s, k, h, at);
    if found.Some? {
      MatchesMeans(s, found.value, h, at);
      assert Has(SlotOf(s, found.value), h);
    }
  }

  lemma ResolveUnheld(s: State, h: string, at: int)
    requires !Held(s, h)
    ensures Resolve(s, h, at) == (s, None)
  {
    hide SlotOf, Matches, FirstMatch;
    var found := FirstMatch(s, s.secretHashes.keys, h, at);
    FirstMatchIs(s, s.secretHashes.keys, h, at);
    if found.Some? {
      MatchesMeans(s, found.value, h, at);
    }
  }

  /* ----- the main results ----- */

  /** The steps leave the key as it is: no rotation or revocation of it is carried out. */
  ghost predicate Spared(s: State, steps: seq<Step>, k: string)
    decreases |steps|
  {
    steps != [] ==> (Named(steps[0].event) == Some(k) ==> Next(s, steps[0]) == s)
                    && Spared(Next(s, steps[0]), steps[1..], k)
  }

  ghost predicate NeverIssued(steps: seq<Step>, h: string) {
    forall i :: 0 <= i < |steps| ==> !Issues(steps[i].event, h)
  }

  lemma {:induction false} SparedRun(s: State, steps: seq<Step>, t: State, k: string)
    requires Inv(s) && KeysOk(s) && FreshReaches(s, steps, t) && Spared(s, steps, k)
    ensures SlotOf(t, k) == SlotOf(s, k)
    decreases |steps|
  {
    hide Inv, KeysOk, Next, Fresh, Enabled, SlotOf;
    if steps != [] {
      InvStep(s, steps[0]);
      KeysStep(s, steps[0]);
      if Named(steps[0].event) != Some(k) {
        OtherSlots(s, steps[0], k);
      }
      SparedRun(Next(s, steps[0]), steps[1..], t, k);
    }
  }

  lemma {:induction false} UnheldRun(s: State, steps: seq<Step>, t: State, h: string)
    requires Inv(s) && KeysOk(s) && FreshReaches(s, steps, t) && NeverIssued(steps, h) && !Held(s, h)
    ensures !Held(t, h)
    decreases |steps|
  {
    hide Inv, KeysOk, Next, Fresh, Enabled, SlotOf, Has, Issues;
    if steps != [] {
      var u := Next(s, steps[0]);
      InvStep(s, steps[0]);
      KeysStep(s, steps[0]);
      forall k
        ensures !Has(SlotOf(u, k), h)
      {
        SlotStep(s, steps[0], k);
      }
      UnheldRun(u, steps[1..], t, h);
    }
  }

  /** A carried out step and what it makes of the key it names, in a run from the start. */
  lemma CarriedOut(before: seq<Step>, s: State, step: Step, k: string)
    requires FreshReaches(Initial(), before, s) && Enabled(step) && Fresh(s, step)
    requires Named(step.event) == Some(k) && Next(s, step) != s
    ensures Inv(s) && KeysOk(s) && Inv(Next(s, step)) && KeysOk(Next(s, step))
    ensures Becomes(SlotOf(s, k), SlotOf(Next(s, step), k), step)
  {
    hide Inv, KeysOk, Next, Fresh, Enabled, SlotOf;
    StartsOk();
    EmptyKeys();
    FreshRun(Initial(), before, s);
    InvStep(s, step);
    KeysStep(s, step);
    NamedSlot(s, step);
  }

  /** Main result: the secret of a new key is good at once and for as long as the key is neither rotated, revoked nor
      expired, and opens the scope it was asked for with the scopes it was asked for. */
  lemma CreatedSecretIsGood(before: seq<Step>, s: State, step: Step, later: seq<Step>, t: State, at: int)
    requires FreshReaches(Initial(), before, s) && Enabled(step) && Fresh(s, step) && step.event.ApiKeyCreated?
    requires Next(s, step) != s && FreshReaches(Next(s, step), later, t) && Spared(Next(s, step), later, step.event.id)
    ensures var answer, q := Resolve(t, step.event.secret.hash, at).1, step.event.apiKey;
            && (answer.Some? <==>
                  !(q.expiresAt.Some? && Millis(q.expiresAt.value).Some? && Millis(q.expiresAt.value).value <= at))
            && (answer.Some? ==> answer.value.scope == step.event.scope
                                 && forall x :: x in answer.value.scopes <==> x in q.scopes)
  {
    hide Inv, KeysOk, Next, Fresh, Enabled, SlotOf, Resolve;
    var k := step.event.id;
    CarriedOut(before, s, step, k);
    FreshRun(Next(s, step), later, t);
    SparedRun(Next(s, step), later, t, k);
    ResolveHeld(t, k, step.event.secret.hash, at);
  }

  /** Main result: from a rotation on, through any steps and restarts that leave the key alone, the new secret is good,
      and the one before it is good up to, and not including, the end of the grace; both open what the key opened
      before, until the key expires. */
  lemma RotationHandsOver(before: seq<Step>, s: State, step: Step, later: seq<Step>, t: State, at: int)
    requires FreshReaches(Initial(), before, s) && Enabled(step) && Fresh(s, step) && step.event.ApiKeyRotated?
    requires Next(s, step) != s && FreshReaches(Next(s, step), later, t)
    requires Spared(Next(s, step), later, step.event.apiKeyId)
    ensures var k := step.event.apiKeyId;
            && k in s.apiKeys.vals && k in s.secretHashes.vals
            && (step.event.graceMs > 0 || NeverIssued(later, s.secretHashes.vals[k]) ==>
                  var good := !RunOut(s.apiKeys.vals[k], at);
                  var access := Some(CredentialOf(s.apiKeys.vals[k]));
                  && Resolve(t, step.event.secret.hash, at).1 == (if good then access else None)
                  && Resolve(t, s.secretHashes.vals[k], at).1 ==
                     (if good && at < step.now + step.event.graceMs && step.event.graceMs > 0 then access else None))
  {
    hide Inv, KeysOk, Next, Fresh, Enabled, SlotOf, Resolve;
    var k, u := step.event.apiKeyId, Next(s, step);
    CarriedOut(before, s, step, k);
    SlotRecord(s, k);
    SlotIsOk(s, k);
    SlotIsOk(u, k);
    var h := s.secretHashes.vals[k];
    OwnHash(s, k);
    FreshRun(u, later, t);
    SparedRun(u, later, t, k);
    ResolveHeld(t, k, step.event.secret.hash, at);
    if step.event.graceMs > 0 {
      ResolveHeld(t, k, h, at);
    } else if NeverIssued(later, h) {
      FreshDiffers(s, step, k, h);
      LeavesStore(s, step, k, h);
      UnheldRun(u, later, t, h);
      ResolveUnheld(t, h, at);
    }
  }

  lemma FreshDiffers(s: State, step: Step, k: string, h: string)
    requires Fresh(s, step) && step.event.ApiKeyRotated? && Has(SlotOf(s, k), h)
    ensures step.event.secret.hash != h
  {
  }

  lemma SlotIsOk(s: State, k: string)
    requires KeysOk(s)
    ensures SlotOk(SlotOf(s, k))
  {
  }

  lemma OwnHash(s: State, k: string)
    requires k in s.secretHashes.vals
    ensures SlotOf(s, k).own == Some(s.secretHashes.vals[k])
  {
  }

  /** A secret its only key no longer holds after a step is held by none. */
  lemma LeavesStore(s: State, step: Step, k: string, h: string)
    requires Inv(s) && KeysOk(s) && Fresh(s, step) && Has(SlotOf(s, k), h) && !Has(SlotOf(Next(s, step), k), h)
    ensures !Held(Next(s, step), h)
  {
    hide Inv, Next, Fresh, SlotOf, Has, Issues;
    forall l
      ensures !Has(SlotOf(Next(s, step), l), h)
    {
      SlotStep(s, step, l);
    }
  }

  /** Main result: once a key is revoked none of its secrets is ever taken again, whatever is done later, restarts
      included. */
  lemma RevokedSecretIsDead(before: seq<Step>, s: State, step: Step, h: string, later: seq<Step>, t: State, at: int)
    requires FreshReaches(Initial(), before, s) && Enabled(step) && step.event.ApiKeyRevoked? && Next(s, step) != s
    requires Has(SlotOf(s, step.event.apiKeyId), h)
    requires FreshReaches(Next(s, step), later, t) && NeverIssued(later, h)
    ensures Resolve(t, h, at) == (t, None)
  {
    hide Inv, KeysOk, Next, Enabled, SlotOf, Resolve;
    var k := step.event.apiKeyId;
    CarriedOut(before, s, step, k);
    LeavesStore(s, step, k, h);
    UnheldRun(Next(s, step), later, t, h);
    ResolveUnheld(t, h, at);
  }

  /** Main result: a revoked key stays revoked and without hashes in every continuation. */
  lemma RevokedForever(before: seq<Step>, s: State, k: string, later: seq<Step>, t: State)
    requires FreshReaches(Initial(), before, s) && k in s.apiKeys.vals && s.apiKeys.vals[k].status == Revoked
    requires FreshReaches(s, later, t)
    ensures k in t.apiKeys.vals && t.apiKeys.vals[k].status == Revoked
    ensures k !in t.secretHashes.vals && k !in t.graceHashes.vals
  {
    hide Inv, KeysOk;
    StartsOk();
    EmptyKeys();
    FreshRun(Initial(), before, s);
    RevokedRun(s, k, later, t);
    FreshRun(s, later, t);
    SlotIsOk(t, k);
  }

  lemma {:induction false} RevokedRun(s: State, k: string, later: seq<Step>, t: State)
    requires Inv(s) && KeysOk(s) && k in s.apiKeys.vals && s.apiKeys.vals[k].status == Revoked
    requires FreshReaches(s, later, t)
    ensures k in t.apiKeys.vals && t.apiKeys.vals[k].status == Revoked
    decreases |later|
  {
    hide Inv, KeysOk, Next, Enabled;
    if later != [] {
      InvStep(s, later[0]);
      KeysStep(s, later[0]);
      StaysRevoked(s, later[0], k);
      RevokedRun(Next(s, later[0]), k, later[1..], t);
    }
  }

  lemma StaysRevoked(s: State, step: Step, k: string)
    requires Inv(s) && Fresh(s, step) && k in s.apiKeys.vals && s.apiKeys.vals[k].status == Revoked
    ensures k in Next(s, step).apiKeys.vals && Next(s, step).apiKeys.vals[k].status == Revoked
  {
    hide Inv, Next, SlotOf, Held;
    SlotRecord(s, k);
    SlotRecord(Next(s, step), k);
    if Named(step.event) != Some(k) {
      OtherSlots(s, step, k);
    } else if Next(s, step) != s {
      NamedSlot(s, step);
    }
  }
}
