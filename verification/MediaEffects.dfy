/**
 What each operation of the media control plane is for, stated on the tables: when it is accepted, what it stores and
 what it leaves alone.  Over runs: a job is listed as expired exactly when what it was told says so.
 */
module MediaEffects {
  import opened Common
  import opened Text
  import opened MediaOps
  import opened MediaProofs
  import JsMap
  import Retention

  /* ----- the status table ----- */

  /** How far a resource has got. */
  function Rank(s: Status): int {
    match s
    case Requested => 0
    case Starting => 1
    case Active => 2
    case Draining => 3
    case _ => 4
  }

  predicate Broken(s: Status) {
    s == Failed || s == Cancelled
  }

  /** A resource goes on by one step at a time, may complete without draining, and may break off until it ends. */
  lemma MoveIff(from: Status, to: Status)
    ensures CanMove(from, to) <==>
              Rank(from) < 4 && (Broken(to) || (Rank(to) == Rank(from) + 1) || (from == Active && to == Completed))
  {
  }

  /** Main result: the statuses joined by a path are those further on; nothing ever comes back. */
  lemma JoinedIff(from: Status, to: Status)
    ensures Joined(from, to) <==> from == to || Rank(from) < Rank(to)
  {
    if Joined(from, to) {
      var path :| |path| > 0 && path[0] == from && path[|path| - 1] == to && Path(path);
      PathRises(path);
    }
    if from == to {
      JoinedBySteps([from]);
    } else if Rank(from) < Rank(to) {
      if CanMove(from, to) {
        JoinedBySteps([from, to]);
      } else {
        GoesOn(from, to);
      }
    }
  }

  lemma {:induction false} PathRises(path: seq<Status>)
    requires |path| > 0 && Path(path)
    ensures |path| == 1 || Rank(path[0]) < Rank(path[|path| - 1])
  {
    if |path| > 1 {
      assert CanMove(path[|path| - 2], path[|path| - 1]);
      PathRises(path[..|path| - 1]);
    }
  }

  lemma GoesOn(from: Status, to: Status)
    requires Rank(from) < Rank(to) && !Broken(to)
    ensures Joined(from, to)
  {
    var all := [Requested, Starting, Active, Draining, Completed];
    assert Path(all);
    var path := all[Rank(from)..Rank(to) + 1];
    assert Path(path) by {
      forall i | 0 <= i < |path| - 1
        ensures CanMove(path[i], path[i + 1])
      {
        assert path[i] == all[Rank(from) + i] && path[i + 1] == all[Rank(from) + i + 1];
      }
    }
    JoinedBySteps(path);
    assert path[0] == all[Rank(from)] && path[|path| - 1] == all[Rank(to)];
  }

  /* ----- one operation ----- */

  /** Only the resource under `id` differs, and stays in its place. */
  ghost predicate OnlyThis(s: State, t: State, kind: Kind, id: string) {
    && (forall k :: Table(t, k).keys == Table(s, k).keys)
    && (forall k, i :: !(k == kind && i == id) ==> JsMap.Get(Table(t, k), i) == JsMap.Get(Table(s, k), i))
    && t.idempotency == s.idempotency && t.fingerprints == s.fingerprints && t.operationResults == s.operationResults
  }

  lemma PutIsOnlyThis(s: State, kind: Kind, id: string, r: Resource)
    requires id in Table(s, kind).vals
    ensures OnlyThis(s, Put(s, kind, id, r), kind, id)
    ensures JsMap.Get(Table(Put(s, kind, id, r), kind), id) == Some(r)
  {
  }

  /** An accepted operation on a stored resource stores what it returns and nothing else. */
  lemma StoresWhatItReturns(s: State, options: Options, op: Op, now: int)
    requires !op.CreateOp? && !op.SaveResultOp? && Apply(s, options, op, now).Ok?
    ensures var (t, r) := Apply(s, options, op, now).value;
            op.id in Table(s, OpKind(op)).vals && OnlyThis(s, t, OpKind(op), op.id)
            && JsMap.Get(Table(t, OpKind(op)), op.id) == Some(r)
  {
    hide Change, ValidOp, OnlyThis, Put;
    PutIsOnlyThis(s, OpKind(op), op.id, Apply(s, options, op, now).value.1);
  }

  /** The given value if there is one, the old value otherwise. */
  predicate Takes<T(==)>(given: Option<T>, was: Option<T>, is_: Option<T>) {
    && (given.Some? ==> is_ == given)
    && (given.None? ==> is_ == was)
  }

  /** What a provider says about a resource: its own id and, for egress jobs only, the object and how long to keep
      it. */
  predicate Learns(a: Resource, b: Resource, providerId: Option<string>, objectUri: Option<string>,
                   retention: Option<DateText>)
  {
    && SameIdentity(a, b) && Takes(providerId, a.providerId, b.providerId)
    && (if a.detail.EgressDetail? && b.detail.EgressDetail? then
          && Takes(objectUri, a.detail.objectUri, b.detail.objectUri)
          && Takes(retention, a.detail.retentionExpiresAt, b.detail.retentionExpiresAt)
          && b.detail.deletedAt == a.detail.deletedAt && b.detail.deletionEvidenceUri == a.detail.deletionEvidenceUri
        else b.detail == a.detail)
  }

  /** Main result: an activation goes through exactly for a requested resource, and stores all it was given. */
  lemma ActivationIff(s: State, options: Options, kind: Kind, id: string, providerId: string,
                      objectUri: Option<string>, retention: Option<DateText>, now: int)
    ensures var r := Apply(s, options, ActivateOp(kind, id, providerId, objectUri, retention), now);
            && (r.Ok? <==>
                  && Checked(providerId, 128)
                  && (objectUri.Some? ==> Checked(objectUri.value, 2048))
                  && (retention.Some? ==> ValidDate(retention.value))
                  && id in Table(s, kind).vals && Table(s, kind).vals[id].status == Requested)
            && (r == Err(NotFound) <==>
                  && Checked(providerId, 128) && OptionalText(objectUri, 2048)
                  && (retention.Some? ==> ValidDate(retention.value)) && id !in Table(s, kind).vals)
            && (r.Ok? || r == Err(NotFound) || r == Err(Conflict))
            && (r.Ok? ==>
                  var a, b := Table(s, kind).vals[id], r.value.1;
                  b.status == Active && b.updatedAt == now && Learns(a, b, Some(providerId), objectUri, retention))
  {
  }

  /** Main result: a provider's report goes through exactly when the status is the same or may follow and a started
      resource has a provider id; it stores all it was given. */
  lemma ReportIff(s: State, options: Options, kind: Kind, id: string, u: Update, now: int)
    ensures var r := Apply(s, options, ReportOp(kind, id, u), now);
            && (r.Ok? <==>
                  && (u.providerId.Some? ==> Checked(u.providerId.value, 128))
                  && (u.objectUri.Some? ==> Checked(u.objectUri.value, 128))
                  && (u.retentionExpiresAt.Some? ==> ValidDate(u.retentionExpiresAt.value))
                  && id in Table(s, kind).vals
                  && (var a := Table(s, kind).vals[id];
                      && (u.status == a.status || CanMove(a.status, u.status))
                      && (u.status == Starting || u.status == Active ==> u.providerId.Some? || a.providerId.Some?)))
            && (r == Err(NotFound) <==> ValidUpdate(u) && id !in Table(s, kind).vals)
            && (r.Ok? || r == Err(NotFound) || r == Err(Conflict))
            && (r.Ok? ==>
                  var a, b := Table(s, kind).vals[id], r.value.1;
                  && b.status == u.status && b.updatedAt == (if u.status == a.status then a.updatedAt else now)
                  && Learns(a, b, u.providerId, u.objectUri, u.retentionExpiresAt))
  {
  }

  /** Failing and completing change the status and the time of the last change. */
  lemma MovesIff(s: State, options: Options, op: Op, now: int)
    requires op.FailOp? || op.CompleteOp?
    ensures var r := Apply(s, options, op, now);
            var to := if op.FailOp? then Failed else Completed;
            && (r.Ok? <==>
                  && op.id in Table(s, OpKind(op)).vals
                  && (var a := Table(s, OpKind(op)).vals[op.id];
                      CanMove(a.status, to) || (op.CompleteOp? && a.status == Completed)))
            && (r.Err? ==> r.error == if op.id in Table(s, OpKind(op)).vals then Conflict else NotFound)
            && (r.Ok? ==>
                  var a, b := Table(s, OpKind(op)).vals[op.id], r.value.1;
                  if a.status == to then b == a
                  else b.status == to && b.updatedAt == now && Learns(a, b, None, None, None))
  {
  }

  /** Main result: a deletion is marked exactly on an ended job that has an object and is not marked yet; the mark takes
      the time and the evidence, and a marked job is answered as it is. */
  lemma DeletionIff(s: State, options: Options, id: string, evidence: string, now: int)
    ensures var r := Apply(s, options, DeleteOp(id, evidence), now);
            && (r.Ok? <==>
                  && Checked(evidence, 128) && id in s.egress.vals
                  && (var a := s.egress.vals[id];
                      a.detail.EgressDetail? && a.detail.objectUri.Some?
                      && (a.detail.deletedAt.Some? || Rank(a.status) == 4)))
            && (r.Err? ==> r.error == if Checked(evidence, 128) && id !in s.egress.vals then NotFound else Conflict)
            && (r.Ok? ==>
                  var a, b := s.egress.vals[id], r.value.1;
                  if a.detail.deletedAt.Some? then b == a
                  else
                    && SameIdentity(a, b) && b.status == a.status && b.providerId == a.providerId && b.updatedAt == now
                    && b.detail.deletedAt == Some(Iso(now)) && b.detail.deletionEvidenceUri == Some(evidence)
                    && b.detail.objectUri == a.detail.objectUri
                    && b.detail.retentionExpiresAt == a.detail.retentionExpiresAt)
  {
  }

  /** Main result: a request under an unused scope is stored exactly when its kind is enabled, it is well formed and
      the active jobs of its kind leave room; the new resource is put last, with all it was asked for. */
  lemma CreationIff(s: State, options: Options, q: Request, id: string, now: int)
    requires RequestScope(q) !in s.idempotency.vals && id !in Table(s, RequestKind(q)).vals
    ensures var r := Create(s, options, q, id, now);
            var active := Busy(Table(s, RequestKind(q)).vals);
            && (r.Ok? <==>
                  && WellFormed(q)
                  && (q.SipRequest? ==> options.sipEnabled)
                  && (q.IngressRequest? ==>
                        && options.ingressEnabled
                        && (options.maxActiveIngress.Some? ==> |active| < options.maxActiveIngress.value))
                  && (q.EgressRequest? ==>
                        && options.egressEnabled
                        && (options.maxActiveEgress.Some? ==> |active| < options.maxActiveEgress.value)))
            && (r.Err? ==> r.error == if !Permitted(options, RequestKind(q)) then PolicyDisabled
                                      else if !WellFormed(q) then Conflict else QuotaExceeded)
            && (r.Ok? ==>
                  var (t, b) := r.value;
                  && b.id == id && b.environmentId == q.environmentId && b.roomName == q.roomName
                  && b.idempotencyKey == q.idempotencyKey && b.createdAt == now && b.updatedAt == now
                  && b.status == Requested && b.providerId == None && KindOf(b.detail) == RequestKind(q)
                  && Table(t, RequestKind(q)).keys == Table(s, RequestKind(q)).keys + [id]
                  && JsMap.Get(Table(t, RequestKind(q)), id) == Some(b)
                  && JsMap.Get(t.idempotency, RequestScope(q)) == Some(b)
                  && (forall k, i :: !(k == RequestKind(q) && i == id) ==>
                        JsMap.Get(Table(t, k), i) == JsMap.Get(Table(s, k), i)))
  {
    hide ValidRequest, RequestScope, PrintOf, JsMap.OrderedMap.Valid, JsMap.Distinct, WellFormed, Busy, ActiveIds;
    RequestIff(q);
    BusyAreActive(Table(s, RequestKind(q)).vals);
  }

  predicate Text128(s: string) {
    Checked(s, 128)
  }

  predicate MaybeText(s: Option<string>, limit: nat) {
    s == None || Checked(s.value, limit)
  }

  /** What a request must look like; only an ingress from a URL needs an optional field. */
  predicate WellFormed(q: Request) {
    && Text128(q.environmentId) && Text128(q.roomName) && Text128(q.idempotencyKey)
    && (q.SipRequest? ==>
          && Text128(q.remoteNumber) && MaybeText(q.sipTrunkId, 128) && MaybeText(q.participantIdentity, 128)
          && q.direction in {"inbound", "outbound"}
          && (q.dtmf.Some? ==> 1 <= |q.dtmf.value| <= 64 && forall c :: c in q.dtmf.value ==> c in "0123456789*#w"))
    && (q.IngressRequest? ==>
          && q.inputType in {"rtmp", "whip", "url"} && MaybeText(q.sourceUrl, 2048)
          && !(q.inputType == "url" && q.sourceUrl == None))
    && (q.EgressRequest? ==> q.outputType in {"mp4", "hls", "rtmp"} && MaybeText(q.outputTarget, 2048))
  }

  lemma DtmfIff(s: string)
    ensures IsDtmf(s) <==> 1 <= |s| <= 64 && forall c :: c in s ==> c in "0123456789*#w"
  {
    forall c: char
      ensures c in "0123456789*#w" <==> '0' <= c <= '9' || c == '*' || c == '#' || c == 'w'
    {
      DtmfChar(c);
    }
    if forall c :: c in s ==> c in "0123456789*#w" {
      assert forall i :: 0 <= i < |s| ==> s[i] in s;
    }
  }

  lemma DtmfChar(c: char)
    ensures c in "0123456789*#w" <==> '0' <= c <= '9' || c == '*' || c == '#' || c == 'w'
  {
    var all := "0123456789*#w";
    assert all[0] == '0' && all[1] == '1' && all[2] == '2' && all[3] == '3' && all[4] == '4' && all[5] == '5'
           && all[6] == '6' && all[7] == '7' && all[8] == '8' && all[9] == '9' && all[10] == '*' && all[11] == '#'
           && all[12] == 'w';
  }

  lemma RequestIff(q: Request)
    ensures ValidRequest(q) <==> WellFormed(q)
  {
    hide Checked, IsDtmf;
    if q.SipRequest? && q.dtmf.Some? {
      DtmfIff(q.dtmf.value);
    }
  }

  /** A scope is the kind's name, the environment and the key, with colons between. */
  lemma ScopeIs(environmentId: string, key: string)
    ensures Scope(CallKind, environmentId, key) == "sip:" + environmentId + ":" + key
    ensures Scope(IngressKind, environmentId, key) == "ingress:" + environmentId + ":" + key
    ensures Scope(EgressKind, environmentId, key) == "egress:" + environmentId + ":" + key
  {
  }

  /** A participant is set on any call there is. */
  lemma ParticipantIff(s: State, options: Options, id: string, participant: string, now: int)
    requires TableOk(CallKind, s.calls.vals)
    ensures var r := Apply(s, options, ParticipantOp(id, participant), now);
            && (r.Ok? <==> Checked(participant, 128) && id in s.calls.vals)
            && (r.Err? ==> r.error == if Checked(participant, 128) then NotFound else Conflict)
            && (r.Ok? ==>
                  var a, b := s.calls.vals[id], r.value.1;
                  && SameIdentity(a, b) && b.status == a.status && b.providerId == a.providerId && b.updatedAt == now
                  && b.detail.participantIdentity == Some(participant))
  {
    hide Checked, JsMap.OrderedMap.Valid, JsMap.Distinct;
    assert id in s.calls.vals ==> ResourceOk(CallKind, id, s.calls.vals[id]);
  }

  /** The result of an operation is kept under operation, environment, call and key, and nothing else changes. */
  lemma ResultIff(s: State, options: Options, operation: string, environmentId: string, id: string, key: string,
                  result: Resource, now: int)
    ensures var r := Apply(s, options, SaveResultOp(operation, environmentId, id, key, result), now);
            && (r.Ok? <==> Checked(environmentId, 128) && Checked(id, 128) && Checked(key, 128))
            && (r.Err? ==> r.error == Conflict)
            && (r.Ok? ==>
                  var t := r.value.0;
                  && t == s.(operationResults := t.operationResults) && r.value.1 == result
                  && t.operationResults.vals ==
                     s.operationResults.vals[operation + ":" + environmentId + ":" + id + ":" + key := result])
  {
    hide Checked, JsMap.OrderedMap.Valid, JsMap.Distinct;
    assert OperationKey(operation, environmentId, id, key) == operation + ":" + environmentId + ":" + id + ":" + key;
  }

  /* ----- what a snapshot must be like ----- */

  ghost predicate DifferentIds(resources: seq<Resource>) {
    && (forall i :: 0 <= i < |resources| ==> |resources[i].id| > 0)
    && (forall i, j :: 0 <= i < j < |resources| ==> resources[i].id != resources[j].id)
  }

  ghost predicate DifferentKeys<V>(entries: seq<(string, V)>) {
    forall i, j :: 0 <= i < j < |entries| ==> entries[i].0 != entries[j].0
  }

  lemma {:induction false} KeysDifferIff<V>(entries: seq<(string, V)>)
    ensures JsMap.DistinctKeys(entries) <==> DifferentKeys(entries)
  {
    if entries != [] {
      KeysDifferIff(entries[..|entries| - 1]);
    }
  }

  lemma IdsDifferIff(resources: seq<Resource>)
    ensures GoodList(resources) <==> DifferentIds(resources)
  {
    var entries := ById(resources);
    assert forall i :: 0 <= i < |resources| ==> entries[i].0 == resources[i].id;
    KeysDifferIff(entries);
    if DifferentKeys(entries) {
      forall i, j | 0 <= i < j < |resources|
        ensures resources[i].id != resources[j].id
      {
        assert entries[i].0 != entries[j].0;
      }
    }
  }

  /** A mark and its evidence come together, and what is given is well formed. */
  ghost predicate SoundMarks(r: Resource) {
    r.detail.EgressDetail? ==>
      var d := r.detail;
      && (d.deletedAt == None <==> d.deletionEvidenceUri == None)
      && (forall at :: d.retentionExpiresAt == Some(at) || d.deletedAt == Some(at) ==> ValidDate(at))
      && MaybeText(d.deletionEvidenceUri, 128)
  }

  lemma MarksSoundIff(r: Resource)
    ensures EgressAcceptable(r) <==> SoundMarks(r)
  {
    hide Checked, ValidDate;
  }

  /** Main result: a snapshot is accepted exactly when ids are present and no id and no key comes twice in its list, and
      the marks of every egress job are sound. */
  lemma AcceptedIff(p: Snapshot)
    ensures Acceptable(p) <==>
              && DifferentIds(p.calls) && DifferentIds(p.ingress) && DifferentIds(p.egress)
              && DifferentKeys(p.idempotency) && DifferentKeys(p.fingerprints) && DifferentKeys(p.operationResults)
              && forall r :: r in p.egress ==> SoundMarks(r)
  {
    hide GoodList, DifferentIds, DifferentKeys, JsMap.DistinctKeys, EgressAcceptable, SoundMarks;
    IdsDifferIff(p.calls);
    IdsDifferIff(p.ingress);
    IdsDifferIff(p.egress);
    KeysDifferIff(p.idempotency);
    KeysDifferIff(p.fingerprints);
    KeysDifferIff(p.operationResults);
    forall r
      ensures EgressAcceptable(r) <==> SoundMarks(r)
    {
      MarksSoundIff(r);
    }
    if forall r :: r in p.egress ==> SoundMarks(r) {
      assert forall i :: 0 <= i < |p.egress| ==> p.egress[i] in p.egress;
    }
  }

  /** What a new resource is about; an egress job starts with no object, no retention and no mark. */
  lemma CreatedDetail(s: State, options: Options, q: Request, id: string, now: int)
    requires RequestScope(q) !in s.idempotency.vals && Create(s, options, q, id, now).Ok?
    ensures var d := Create(s, options, q, id, now).value.1.detail;
            && (q.SipRequest? ==>
                  d == CallDetail(q.sipTrunkId, q.participantIdentity, q.direction, Sha256(q.remoteNumber)))
            && (q.IngressRequest? ==> d == IngressDetail(q.inputType))
            && (q.EgressRequest? ==> d == EgressDetail(q.outputType, None, None, None, None))
  {
    hide ValidRequest, RequestScope, PrintOf, Stored;
  }

  /** Two requests under one scope have the same fingerprint exactly when they are the same request. */
  lemma SamePrintIff(q: Request, r: Request)
    requires AskedOf(q) == AskedOf(r)
    ensures PrintOf(q) == PrintOf(r) <==> q == r
  {
  }

  /* ----- what a job was told ----- */

  /** What the accepted operations said about one egress job: the last object and retention they gave and whether one of
      them marked it deleted. */
  datatype Told = Told(objectUri: Option<string>, retention: Option<DateText>, deleted: bool)

  function Latest<T>(given: Option<T>, before: Option<T>): Option<T> {
    if given.None? then before else given
  }

  function Hear(told: Told, id: string, e: Event, accepted: bool): Told {
    if !accepted then told
    else
      match e.op
      case ActivateOp(EgressKind, i, _, uri, retention) =>
        if i == id then Told(Latest(uri, told.objectUri), Latest(retention, told.retention), told.deleted) else told
      case ReportOp(EgressKind, i, u) =>
        if i == id then Told(Latest(u.objectUri, told.objectUri), Latest(u.retentionExpiresAt, told.retention),
                             told.deleted)
        else told
      case DeleteOp(i, _) => if i == id then told.(deleted := true) else told
      case _ => told
  }

  function ToldAfter(told: Told, id: string, s: State, options: Options, events: seq<Event>): Told
    decreases |events|
  {
    if events == [] then told
    else
      var e := events[0];
      ToldAfter(Hear(told, id, e, Apply(s, options, e.op, e.now).Ok?), id, Next(s, options, e), options, events[1..])
  }

  /** The stored job says what the job was told; a job that does not exist was told nothing. */
  ghost predicate Says(s: State, id: string, told: Told) {
    && TableOk(EgressKind, s.egress.vals)
    && (id !in s.egress.vals ==> told == Told(None, None, false))
    && (id in s.egress.vals ==>
          var d := s.egress.vals[id].detail;
          d.EgressDetail? && d.objectUri == told.objectUri && d.retentionExpiresAt == told.retention
          && d.deletedAt.Some? == told.deleted)
  }

  lemma HeardCreate(s: State, options: Options, id: string, told: Told, e: Event)
    requires Says(s, id, told) && Enabled(s, e) && e.op.CreateOp?
    requires TableOk(EgressKind, Next(s, options, e).egress.vals)
    ensures Says(Next(s, options, e), id, told)
  {
    hide ValidRequest, RequestScope, PrintOf, HasRoom, TableOk, JsMap.OrderedMap.Valid, JsMap.Distinct;
  }

  lemma HeardOther(s: State, options: Options, id: string, told: Told, e: Event)
    requires Says(s, id, told) && !e.op.CreateOp?
    requires TableOk(EgressKind, Next(s, options, e).egress.vals)
    ensures Says(Next(s, options, e), id, Hear(told, id, e, Apply(s, options, e.op, e.now).Ok?))
  {
    hide Says, Apply, TableOk, OnlyThis;
    var r := Apply(s, options, e.op, e.now);
    if r.Err? {
      return;
    } else if e.op.SaveResultOp? {
      ResultIff(s, options, e.op.operation, e.op.environmentId, e.op.id, e.op.key, e.op.result, e.now);
      SameJob(s, Next(s, options, e), id, told);
    } else {
      StoresWhatItReturns(s, options, e.op, e.now);
      if OpKind(e.op) == EgressKind && e.op.id == id {
        HeardOwn(s, options, id, told, e);
      } else {
        OtherJob(s, Next(s, options, e), OpKind(e.op), e.op.id, id);
        SameJob(s, Next(s, options, e), id, told);
      }
    }
  }

  lemma OtherJob(s: State, t: State, kind: Kind, i: string, id: string)
    requires OnlyThis(s, t, kind, i) && !(kind == EgressKind && i == id)
    ensures JsMap.Get(t.egress, id) == JsMap.Get(s.egress, id)
  {
    assert JsMap.Get(Table(t, EgressKind), id) == JsMap.Get(Table(s, EgressKind), id);
  }

  lemma SameJob(s: State, t: State, id: string, told: Told)
    requires Says(s, id, told) && TableOk(EgressKind, t.egress.vals)
    requires JsMap.Get(t.egress, id) == JsMap.Get(s.egress, id)
    ensures Says(t, id, told)
  {
    hide JsMap.OrderedMap.Valid, JsMap.Distinct, TableOk;
  }

  /** An accepted operation on the job itself. */
  lemma HeardOwn(s: State, options: Options, id: string, told: Told, e: Event)
    requires Says(s, id, told) && !e.op.CreateOp? && !e.op.SaveResultOp? && e.op.id == id && OpKind(e.op) == EgressKind
    requires Apply(s, options, e.op, e.now).Ok?
    requires TableOk(EgressKind, Next(s, options, e).egress.vals)
    ensures Says(Next(s, options, e), id, Hear(told, id, e, true))
  {
    hide Apply, Checked, ValidDate, CanMove, JsMap.OrderedMap.Valid, JsMap.Distinct, OnlyThis, TableOk;
    StoresWhatItReturns(s, options, e.op, e.now);
    EgressJob(Next(s, options, e), id);
    match e.op
    case ActivateOp(kind, _, providerId, uri, retention) =>
      ActivationIff(s, options, kind, id, providerId, uri, retention, e.now);
    case ReportOp(kind, _, u) => ReportIff(s, options, kind, id, u, e.now);
    case DeleteOp(_, evidence) => DeletionIff(s, options, id, evidence, e.now);
    case FailOp(_, _) => MovesIff(s, options, e.op, e.now);
  }

  lemma EgressJob(s: State, id: string)
    requires TableOk(EgressKind, s.egress.vals)
    ensures id in s.egress.vals ==> s.egress.vals[id].detail.EgressDetail?
  {
    assert id in s.egress.vals ==> ResourceOk(EgressKind, id, s.egress.vals[id]);
  }

  lemma {:induction false} SaysAfterRun(
      s: State, options: Options, events: seq<Event>, t: State, id: string, told: Told)
    requires TablesOk(s) && WithinQuota(s, options) && Reaches(s, options, events, t) && Says(s, id, told)
    ensures Says(t, id, ToldAfter(told, id, s, options, events))
    decreases |events|
  {
    hide Says, TablesOk, WithinQuota, AllEvolve, Hear, Next, Enabled;
    if events != [] {
      var e := events[0];
      TablesStep(s, options, e);
      EgressOk(Next(s, options, e));
      if e.op.CreateOp? {
        HeardCreate(s, options, id, told, e);
        HearsNothing(told, id, e, Apply(s, options, e.op, e.now).Ok?);
      } else {
        HeardOther(s, options, id, told, e);
      }
      SaysAfterRun(Next(s, options, e), options, events[1..], t, id,
                   Hear(told, id, e, Apply(s, options, e.op, e.now).Ok?));
    }
  }

  lemma EgressOk(s: State)
    requires TablesOk(s)
    ensures TableOk(EgressKind, s.egress.vals)
  {
    assert TableOk(EgressKind, Table(s, EgressKind).vals);
  }

  lemma HearsNothing(told: Told, id: string, e: Event, accepted: bool)
    requires e.op.CreateOp?
    ensures Hear(told, id, e, accepted) == told
  {
  }

  /** Main result: in every reachable state a job is listed as expired exactly when it has ended, was given an object,
      the retention it was last given has run out, and no deletion of it was marked. */
  lemma ListedIff(options: Options, events: seq<Event>, t: State, id: string, now: int)
    requires Reaches(Initial(), options, events, t)
    ensures var told := ToldAfter(Told(None, None, false), id, Initial(), options, events);
            id in ExpiredIds(t.egress.keys, t.egress.vals, now) <==>
              && id in t.egress.vals && Rank(t.egress.vals[id].status) == 4
              && told.objectUri.Some? && !told.deleted
              && told.retention.Some? && Millis(told.retention.value).Some? && Millis(told.retention.value).value <= now
  {
    hide ToldAfter, ExpiredIds, Reaches;
    InitialOk(options);
    EgressOk(Initial());
    SaysAfterRun(Initial(), options, events, t, id, Told(None, None, false));
    Retention.ExpiredIdsAreExpired(t.egress.keys, t.egress.vals, now, id);
  }

  /** The list keeps the order in which the jobs were created. */
  lemma {:induction false} ListedInOrder(keys: seq<string>, vals: map<string, Resource>, now: int, i: nat, j: nat)
    requires i < j < |ExpiredIds(keys, vals, now)|
    ensures var ids := ExpiredIds(keys, vals, now);
            exists k: nat, l: nat :: k < l < |keys| && keys[k] == ids[i] && keys[l] == ids[j]
  {
    var ids := ExpiredIds(keys, vals, now);
    var last := |keys| - 1;
    var rest := ExpiredIds(keys[..last], vals, now);
    if j < |rest| {
      ListedInOrder(keys[..last], vals, now, i, j);
      var k: nat, l: nat :| k < l < last && keys[..last][k] == rest[i] && keys[..last][l] == rest[j];
      assert keys[k] == ids[i] && keys[l] == ids[j];
    } else {
      assert ids[i] == rest[i] && rest[i] in rest;
      Retention.ExpiredIdsAreExpired(keys[..last], vals, now, rest[i]);
      var k: nat :| k < last && keys[..last][k] == rest[i];
      assert keys[k] == ids[i] && keys[last] == ids[j];
    }
  }

  /** The run the retention worker lives on: a job is created, activated with an object and a date, and completes. */
  function ArchivedRun(q: Request, id: string, providerId: string, uri: string, keep: DateText, at: int): seq<Event> {
    [Event(CreateOp(q, id), at), Event(ActivateOp(EgressKind, id, providerId, Some(uri), Some(keep)), at),
     Event(ReportOp(EgressKind, id, Update(Completed, None, None, None)), at)]
  }

  lemma ActivatedNext(s: State, options: Options, id: string, providerId: string, uri: string, keep: DateText, at: int)
    requires Checked(providerId, 128) && Checked(uri, 2048) && ValidDate(keep)
    requires id in s.egress.vals && s.egress.vals[id].status == Requested && s.egress.vals[id].detail.EgressDetail?
    requires s.egress.vals[id].detail.deletedAt.None?
    ensures var t := Next(s, options, Event(ActivateOp(EgressKind, id, providerId, Some(uri), Some(keep)), at));
            t.egress.keys == s.egress.keys && id in t.egress.vals && t.egress.vals[id].status == Active
            && t.egress.vals[id].detail.EgressDetail? && t.egress.vals[id].detail.objectUri == Some(uri)
            && t.egress.vals[id].detail.retentionExpiresAt == Some(keep) && t.egress.vals[id].detail.deletedAt.None?
  {
    hide Checked, JsMap.OrderedMap.Valid, JsMap.Distinct;
  }

  lemma CompletedNext(s: State, options: Options, id: string, at: int)
    requires id in s.egress.vals && s.egress.vals[id].status == Active && s.egress.vals[id].detail.EgressDetail?
    ensures var t := Next(s, options, Event(ReportOp(EgressKind, id, Update(Completed, None, None, None)), at));
            t.egress.keys == s.egress.keys && id in t.egress.vals && t.egress.vals[id].status == Completed
            && t.egress.vals[id].detail == s.egress.vals[id].detail
  {
    hide JsMap.OrderedMap.Valid, JsMap.Distinct;
  }

  lemma CreatedNext(options: Options, q: Request, id: string, at: int)
    requires q.EgressRequest? && ValidRequest(q) && options.egressEnabled
    requires options.maxActiveEgress.Some? ==> options.maxActiveEgress.value > 0
    ensures var t := Next(Initial(), options, Event(CreateOp(q, id), at));
            t.egress.keys == [id] && id in t.egress.vals && t.egress.vals[id].status == Requested
            && t.egress.vals[id].detail.EgressDetail? && t.egress.vals[id].detail.deletedAt.None?
  {
    hide ValidRequest, RequestScope, PrintOf;
    assert ActiveIds(Initial().egress.vals) == {};
  }

  /** Main result: from the start, any valid egress request of an enabled kind, activated with an object and a date and
      then completed, is listed alone from that date on and not before. */
  lemma ArchivedJobExpires(options: Options, q: Request, id: string, providerId: string, uri: string, keep: DateText,
                           at: int, now: int)
    requires q.EgressRequest? && ValidRequest(q) && options.egressEnabled && id != ""
    requires options.maxActiveEgress.Some? ==> options.maxActiveEgress.value > 0
    requires Checked(providerId, 128) && Checked(uri, 2048) && ValidDate(keep)
    ensures exists t ::
              Reaches(Initial(), options, ArchivedRun(q, id, providerId, uri, keep, at), t)
              && ExpiredIds(t.egress.keys, t.egress.vals, now) ==
                 (if Millis(keep).Some? && Millis(keep).value <= now then [id] else [])
  {
    hide Next, ValidRequest, Checked;
    var events := ArchivedRun(q, id, providerId, uri, keep, at);
    CreatedNext(options, q, id, at);
    var a := Next(Initial(), options, events[0]);
    ActivatedNext(a, options, id, providerId, uri, keep, at);
    var b := Next(a, options, events[1]);
    CompletedNext(b, options, id, at);
    var c := Next(b, options, events[2]);
    ThreeEvents(options, events, a, b, c);
    assert c.egress.keys[..0] == [] && c.egress.keys == [id];
    assert ExpiredIds([], c.egress.vals, now) == [];
  }

  lemma ThreeEvents(options: Options, events: seq<Event>, a: State, b: State, c: State)
    requires |events| == 3
    requires Enabled(Initial(), events[0]) && Enabled(a, events[1]) && Enabled(b, events[2])
    requires a == Next(Initial(), options, events[0]) && b == Next(a, options, events[1])
    requires c == Next(b, options, events[2])
    ensures Reaches(Initial(), options, events, c)
  {
    hide Next, Enabled;
    assert Reaches(c, options, [], c);
    assert events[2..] == [events[2]] && events[2..][1..] == [];
    assert Reaches(b, options, events[2..], c);
    assert events[1..][0] == events[1] && events[1..][1..] == events[2..];
    assert Reaches(a, options, events[1..], c);
  }
}
