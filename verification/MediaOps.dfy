/**
 The media control plane (control.ts): SIP calls, ingress and egress jobs under one status table, with idempotent
 creation, active-job quotas, provider callbacks, deletion evidence and snapshots.

 The state is a value and every operation a function on it; MediaControl.dfy holds the class that updates its maps
 in place and MediaProofs.dfy what holds in every run.
 */
module MediaOps {
  import opened Common
  import opened Text
  import JsMap
  import ColonKeys

  datatype Status = Requested | Starting | Active | Draining | Completed | Failed | Cancelled

  predicate Terminal(s: Status) {
    s.Completed? || s.Failed? || s.Cancelled?
  }

  predicate CountsAsActive(s: Status) {
    s.Requested? || s.Starting? || s.Active?
  }

  /** STATUS_TRANSITIONS */
  predicate CanMove(from: Status, to: Status) {
    match from
    case Requested => to.Starting? || to.Failed? || to.Cancelled?
    case Starting => to.Active? || to.Failed? || to.Cancelled?
    case Active => to.Draining? || to.Completed? || to.Failed? || to.Cancelled?
    case Draining => to.Completed? || to.Failed? || to.Cancelled?
    case _ => false
  }

  datatype Kind = CallKind | IngressKind | EgressKind

  datatype Error = NotFound | Conflict | PolicyDisabled | QuotaExceeded

  /** SHA-256 of a number, as an injective mark. */
  datatype Hash = Sha256(of: string)

  datatype Detail =
    | CallDetail(sipTrunkId: Option<string>, participantIdentity: Option<string>, direction: string,
                 remoteNumberHash: Hash)
    | IngressDetail(inputType: string)
    | EgressDetail(outputType: string, objectUri: Option<string>, retentionExpiresAt: Option<DateText>,
                   deletedAt: Option<DateText>, deletionEvidenceUri: Option<string>)

  function KindOf(detail: Detail): Kind {
    match detail
    case CallDetail(_, _, _, _) => CallKind
    case IngressDetail(_) => IngressKind
    case EgressDetail(_, _, _, _, _) => EgressKind
  }

  /** A SIP call, ingress job or egress job; `providerId` is its provider's id for it. */
  datatype Resource = Resource(
    id: string, environmentId: string, roomName: string, idempotencyKey: string, status: Status,
    providerId: Option<string>, createdAt: int, updatedAt: int, detail: Detail)

  datatype Request =
    | SipRequest(environmentId: string, roomName: string, idempotencyKey: string, sipTrunkId: Option<string>,
                 participantIdentity: Option<string>, dtmf: Option<string>, direction: string, remoteNumber: string)
    | IngressRequest(environmentId: string, roomName: string, idempotencyKey: string, inputType: string,
                     sourceUrl: Option<string>)
    | EgressRequest(environmentId: string, roomName: string, idempotencyKey: string, outputType: string,
                    outputTarget: Option<string>)

  /** The JSON text compared on a replay, as the fields it holds. */
  datatype Fingerprint =
    | SipPrint(roomName: string, sipTrunkId: Option<string>, participantIdentity: Option<string>, dtmf: Option<string>,
               direction: string, remoteNumberHash: Hash)
    | IngressPrint(roomName: string, inputType: string, sourceUrl: Option<string>)
    | EgressPrint(roomName: string, outputType: string, outputTarget: Option<string>)

  datatype Options = Options(
    sipEnabled: bool, ingressEnabled: bool, egressEnabled: bool, maxActiveIngress: Option<int>,
    maxActiveEgress: Option<int>)

  datatype State = State(
    calls: JsMap.Map<string, Resource>,
    ingress: JsMap.Map<string, Resource>,
    egress: JsMap.Map<string, Resource>,
    idempotency: JsMap.Map<string, Resource>,
    fingerprints: JsMap.Map<string, Fingerprint>,
    operationResults: JsMap.Map<string, Resource>)

  function Initial(): State {
    State(JsMap.Empty(), JsMap.Empty(), JsMap.Empty(), JsMap.Empty(), JsMap.Empty(), JsMap.Empty())
  }

  function Table(s: State, kind: Kind): JsMap.Map<string, Resource> {
    match kind
    case CallKind => s.calls
    case IngressKind => s.ingress
    case EgressKind => s.egress
  }

  function WithTable(s: State, kind: Kind, table: JsMap.Map<string, Resource>): (t: State)
    ensures Table(t, kind) == table
    ensures forall other :: other != kind ==> Table(t, other) == Table(s, other)
    ensures t.idempotency == s.idempotency && t.fingerprints == s.fingerprints
    ensures t.operationResults == s.operationResults
  {
    match kind
    case CallKind => s.(calls := table)
    case IngressKind => s.(ingress := table)
    case EgressKind => s.(egress := table)
  }

  function Put(s: State, kind: Kind, id: string, r: Resource): State {
    WithTable(s, kind, JsMap.Set(Table(s, kind), id, r))
  }

  /* ----- creation ----- */

  function RequestKind(q: Request): Kind {
    match q
    case SipRequest(_, _, _, _, _, _, _, _) => CallKind
    case IngressRequest(_, _, _, _, _) => IngressKind
    case EgressRequest(_, _, _, _, _) => EgressKind
  }

  function KindName(kind: Kind): string {
    match kind
    case CallKind => "sip"
    case IngressKind => "ingress"
    case EgressKind => "egress"
  }

  /** idempotencyScope */
  function Scope(kind: Kind, environmentId: string, key: string): string {
    ColonKeys.Join(KindName(kind), ColonKeys.Join(environmentId, key))
  }

  function RequestScope(q: Request): string {
    Scope(RequestKind(q), q.environmentId, q.idempotencyKey)
  }

  function PrintOf(q: Request): Fingerprint {
    match q
    case SipRequest(_, room, _, trunk, participant, dtmf, direction, number) =>
      SipPrint(room, trunk, participant, dtmf, direction, Sha256(number))
    case IngressRequest(_, room, _, inputType, url) => IngressPrint(room, inputType, url)
    case EgressRequest(_, room, _, outputType, target) => EgressPrint(room, outputType, target)
  }

  predicate IsDtmf(s: string) {
    0 < |s| <= 64 && forall i :: 0 <= i < |s| ==> '0' <= s[i] <= '9' || s[i] == '*' || s[i] == '#' || s[i] == 'w'
  }

  predicate OptionalText(s: Option<string>, limit: nat) {
    s.Some? ==> Checked(s.value, limit)
  }

  predicate Permitted(options: Options, kind: Kind) {
    match kind
    case CallKind => options.sipEnabled
    case IngressKind => options.ingressEnabled
    case EgressKind => options.egressEnabled
  }

  predicate ValidRequest(q: Request) {
    && Checked(q.environmentId, 128) && Checked(q.roomName, 128) && Checked(q.idempotencyKey, 128)
    && match q
       case SipRequest(_, _, _, trunk, participant, dtmf, direction, number) =>
         && OptionalText(trunk, 128) && OptionalText(participant, 128)
         && (dtmf.Some? ==> IsDtmf(dtmf.value))
         && Checked(number, 128)
         && (direction == "inbound" || direction == "outbound")
       case IngressRequest(_, _, _, inputType, url) =>
         && OptionalText(url, 2048)
         && (inputType == "url" ==> url.Some?)
         && (inputType == "rtmp" || inputType == "whip" || inputType == "url")
       case EgressRequest(_, _, _, outputType, target) =>
         && OptionalText(target, 2048)
         && (outputType == "mp4" || outputType == "hls" || outputType == "rtmp")
  }

  function DetailOf(q: Request): Detail {
    match q
    case SipRequest(_, _, _, trunk, participant, _, direction, number) =>
      CallDetail(trunk, participant, direction, Sha256(number))
    case IngressRequest(_, _, _, inputType, _) => IngressDetail(inputType)
    case EgressRequest(_, _, _, outputType, _) => EgressDetail(outputType, None, None, None, None)
  }

  function NewResource(q: Request, id: string, now: int): Resource {
    Resource(id, q.environmentId, q.roomName, q.idempotencyKey, Requested, None, now, now, DetailOf(q))
  }

  function ActiveIds(table: map<string, Resource>): set<string> {
    set id | id in table && CountsAsActive(table[id].status)
  }

  function Limit(options: Options, kind: Kind): Option<int> {
    match kind
    case CallKind => None
    case IngressKind => options.maxActiveIngress
    case EgressKind => options.maxActiveEgress
  }

  predicate HasRoom(s: State, options: Options, kind: Kind) {
    var limit := Limit(options, kind);
    limit.Some? ==> |ActiveIds(Table(s, kind).vals)| < limit.value
  }

  /** A new resource entered into its table and, under its scope, into both idempotency tables. */
  function Stored(s: State, kind: Kind, r: Resource, scope: string, mark: Fingerprint): State {
    Put(s, kind, r.id, r).(idempotency := JsMap.Set(s.idempotency, scope, r),
                           fingerprints := JsMap.Set(s.fingerprints, scope, mark))
  }

  /** requestSipCall, createIngress and createEgress. `id` is the fresh id a new resource takes. */
  function Create(s: State, options: Options, q: Request, id: string, now: int): Result<(State, Resource), Error> {
    if !Permitted(options, RequestKind(q)) then Err(PolicyDisabled)
    else if !ValidRequest(q) then Err(Conflict)
    else
      var scope := RequestScope(q);
      if scope in s.idempotency.vals then
        if JsMap.Get(s.fingerprints, scope) != Some(PrintOf(q)) then Err(Conflict)
        else Ok((s, s.idempotency.vals[scope]))
      else if !HasRoom(s, options, RequestKind(q)) then Err(QuotaExceeded)
      else
        var r := NewResource(q, id, now);
        Ok((Stored(s, RequestKind(q), r, scope, PrintOf(q)), r))
  }

  /* ----- later steps ----- */

  function Find(s: State, kind: Kind, id: string): Result<Resource, Error> {
    if id in Table(s, kind).vals then Ok(Table(s, kind).vals[id]) else Err(NotFound)
  }

  /** `transition` on the resource itself */
  function Moved(r: Resource, to: Status, now: int): Result<Resource, Error> {
    if CanMove(r.status, to) then Ok(r.(status := to, updatedAt := now)) else Err(Conflict)
  }

  datatype Update = Update(
      status: Status, providerId: Option<string>, objectUri: Option<string>, retentionExpiresAt: Option<DateText>)

  predicate ValidUpdate(u: Update) {
    && OptionalText(u.providerId, 128) && OptionalText(u.objectUri, 128)
    && (u.retentionExpiresAt.Some? ==> ValidDate(u.retentionExpiresAt.value))
  }

  function OrElse<T>(a: Option<T>, b: Option<T>): Option<T> {
    if a.Some? then a else b
  }

  /** The provider's data laid over a resource; only egress jobs take an object and its retention. */
  function Enriched(r: Resource, u: Update): Resource {
    var d := r.detail;
    r.(providerId := OrElse(u.providerId, r.providerId),
       detail := if d.EgressDetail?
                 then d.(objectUri := OrElse(u.objectUri, d.objectUri),
                         retentionExpiresAt := OrElse(u.retentionExpiresAt, d.retentionExpiresAt))
                 else d)
  }

  /** applyProviderStatus, on the resource */
  function Reported(r: Resource, u: Update, now: int): Result<Resource, Error> {
    if (u.status.Starting? || u.status.Active?) && u.providerId.None? && r.providerId.None? then Err(Conflict)
    else if r.status == u.status then Ok(Enriched(r, u))
    else
      var moved := Moved(r, u.status, now);
      if moved.Err? then moved else Ok(Enriched(moved.value, u))
  }

  /** activateIngress, activateEgress and activateSipCall, on the resource */
  function Activated(r: Resource, u: Update, now: int): Result<Resource, Error> {
    if !r.status.Requested? then Err(Conflict)
    else Ok(Enriched(r, u).(status := Active, updatedAt := now))
  }

  /** markEgressDeleted, on the resource */
  function MarkedDeleted(r: Resource, evidence: string, now: int): Result<Resource, Error> {
    if !r.detail.EgressDetail? || r.detail.objectUri.None? then Err(Conflict)
    else if r.detail.deletedAt.Some? then Ok(r)
    else if !Terminal(r.status) then Err(Conflict)
    else Ok(r.(updatedAt := now, detail := r.detail.(deletedAt := Some(Iso(now)),
                                                     deletionEvidenceUri := Some(evidence))))
  }

  /** setSipParticipantIdentity, on the resource */
  function Identified(r: Resource, participant: string, now: int): Resource {
    var d := r.detail;
    r.(updatedAt := now, detail := if d.CallDetail? then d.(participantIdentity := Some(participant)) else d)
  }

  datatype Op =
    | CreateOp(request: Request, id: string)
    | ActivateOp(kind: Kind, id: string, providerId: string, objectUri: Option<string>,
                 retentionExpiresAt: Option<DateText>)
    | FailOp(kind: Kind, id: string)
    | CompleteOp(id: string)
    | ParticipantOp(id: string, participantIdentity: string)
    | ReportOp(kind: Kind, id: string, update: Update)
    | DeleteOp(id: string, evidence: string)
    | SaveResultOp(operation: string, environmentId: string, id: string, key: string, result: Resource)

  predicate ValidOp(op: Op) {
    match op
    case ActivateOp(kind, _, providerId, objectUri, retention) =>
      Checked(providerId, 128) && OptionalText(objectUri, 2048) && (retention.Some? ==> ValidDate(retention.value))
    case ParticipantOp(_, participant) => Checked(participant, 128)
    case ReportOp(_, _, u) => ValidUpdate(u)
    case DeleteOp(_, evidence) => Checked(evidence, 128)
    case SaveResultOp(_, environmentId, id, key, _) => Checked(environmentId, 128) && Checked(id, 128)
                                                       && Checked(key, 128)
    case _ => true
  }

  /** What an operation other than create does to the resource it names. */
  function Change(op: Op, r: Resource, now: int): Result<Resource, Error> {
    match op
    case ActivateOp(_, _, providerId, objectUri, retention) =>
      Activated(r, Update(Active, Some(providerId), objectUri, retention), now)
    case FailOp(_, _) => Moved(r, Failed, now)
    case CompleteOp(_) => if r.status.Completed? then Ok(r) else Moved(r, Completed, now)
    case ParticipantOp(_, participant) => Ok(Identified(r, participant, now))
    case ReportOp(_, _, u) => Reported(r, u, now)
    case DeleteOp(_, evidence) => MarkedDeleted(r, evidence, now)
    case _ => Ok(r)
  }

  function OpKind(op: Op): Kind {
    match op
    case CreateOp(q, _) => RequestKind(q)
    case ActivateOp(kind, _, _, _, _) => kind
    case FailOp(kind, _) => kind
    case ReportOp(kind, _, _) => kind
    case DeleteOp(_, _) => EgressKind
    case _ => CallKind
  }

  function OperationKey(operation: string, environmentId: string, id: string, key: string): string {
    ColonKeys.Join(operation, ColonKeys.Join(environmentId, ColonKeys.Join(id, key)))
  }

  /** One operation at time `now`: the new state and the resource returned, or the error with nothing changed. */
  function Apply(s: State, options: Options, op: Op, now: int): Result<(State, Resource), Error> {
    match op
    case CreateOp(q, id) => Create(s, options, q, id, now)
    case SaveResultOp(operation, environmentId, id, key, result) =>
      if !ValidOp(op) then Err(Conflict)
      else Ok((s.(operationResults := JsMap.Set(s.operationResults, OperationKey(operation, environmentId, id, key),
                                                result)), result))
    case _ =>
      if !ValidOp(op) then Err(Conflict)
      else
        var found := Find(s, OpKind(op), op.id);
        if found.Err? then Err(found.error)
        else
          var changed := Change(op, found.value, now);
          if changed.Err? then Err(changed.error) else Ok((Put(s, OpKind(op), op.id, changed.value), changed.value))
  }

  /* ----- snapshots ----- */

  datatype Snapshot = Snapshot(
    calls: seq<Resource>, ingress: seq<Resource>, egress: seq<Resource>,
    idempotency: seq<(string, Resource)>, fingerprints: seq<(string, Fingerprint)>,
    operationResults: seq<(string, Resource)>)

  function SnapshotOf(s: State): Snapshot {
    Snapshot(JsMap.Values(s.calls), JsMap.Values(s.ingress), JsMap.Values(s.egress),
             JsMap.Entries(s.idempotency), JsMap.Entries(s.fingerprints), JsMap.Entries(s.operationResults))
  }

  function ById(resources: seq<Resource>): (r: seq<(string, Resource)>)
    ensures |r| == |resources|
  {
    seq(|resources|, i requires 0 <= i < |resources| => (resources[i].id, resources[i]))
  }

  predicate EgressAcceptable(r: Resource) {
    r.detail.EgressDetail? ==>
      && (r.detail.retentionExpiresAt.Some? ==> ValidDate(r.detail.retentionExpiresAt.value))
      && (r.detail.deletedAt.Some? ==> ValidDate(r.detail.deletedAt.value))
      && OptionalText(r.detail.deletionEvidenceUri, 128)
      && (r.detail.deletionEvidenceUri.Some? <==> r.detail.deletedAt.Some?)
  }

  ghost predicate GoodList(resources: seq<Resource>) {
    && (forall i :: 0 <= i < |resources| ==> resources[i].id != "")
    && JsMap.DistinctKeys(ById(resources))
  }

  ghost predicate Acceptable(p: Snapshot) {
    && GoodList(p.calls) && GoodList(p.ingress) && GoodList(p.egress)
    && (forall i :: 0 <= i < |p.egress| ==> EgressAcceptable(p.egress[i]))
    && JsMap.DistinctKeys(p.idempotency) && JsMap.DistinctKeys(p.fingerprints) && JsMap.DistinctKeys(p.operationResults)
  }

  ghost function Restored(p: Snapshot): State
    requires Acceptable(p)
  {
    State(JsMap.FromEntries(ById(p.calls)), JsMap.FromEntries(ById(p.ingress)), JsMap.FromEntries(ById(p.egress)),
          JsMap.FromEntries(p.idempotency), JsMap.FromEntries(p.fingerprints), JsMap.FromEntries(p.operationResults))
  }

  /* ----- retention ----- */

  /** The filter of listExpiredEgress */
  predicate Expired(r: Resource, now: int) {
    && r.detail.EgressDetail?
    && r.detail.objectUri.Some?
    && r.detail.retentionExpiresAt.Some?
    && r.detail.deletedAt.None?
    && Terminal(r.status)
    && Millis(r.detail.retentionExpiresAt.value).Some?
    && Millis(r.detail.retentionExpiresAt.value).value <= now
  }

  /** The ids of the expired jobs, in the order the jobs were created. */
  function ExpiredIds(keys: seq<string>, vals: map<string, Resource>, now: int): seq<string> {
    if keys == [] then []
    else
      var last := |keys| - 1;
      ExpiredIds(keys[..last], vals, now) + if keys[last] in vals && Expired(vals[keys[last]], now) then [keys[last]]
                                            else []
  }
}
