/** What every run of the media control plane keeps, from an empty control with fixed options. */
module MediaProofs {
  import opened Common
  import opened Text
  import opened MediaOps
  import JsMap
  import ColonKeys

  /* ----- runs ----- */

  datatype Event = Event(op: Op, now: int)

  /** Ids come from randomUUID: a created resource's id is new and not empty. */
  predicate Enabled(s: State, e: Event) {
    e.op.CreateOp? ==> e.op.id != "" && e.op.id !in Table(s, RequestKind(e.op.request)).vals
  }

  function Next(s: State, options: Options, e: Event): State {
    var r := Apply(s, options, e.op, e.now);
    if r.Ok? then r.value.0 else s
  }

  ghost predicate Reaches(s: State, options: Options, events: seq<Event>, t: State)
    decreases |events|
  {
    if events == [] then s == t
    else Enabled(s, events[0]) && Reaches(Next(s, options, events[0]), options, events[1..], t)
  }

  /* ----- one resource ----- */

  predicate NeedsProvider(s: Status) {
    s.Starting? || s.Active? || s.Draining? || s.Completed?
  }

  predicate ResourceOk(kind: Kind, id: string, r: Resource) {
    && r.id == id && id != "" && KindOf(r.detail) == kind
    && OptionalText(r.providerId, 128)
    && (NeedsProvider(r.status) ==> r.providerId.Some?)
    && EgressAcceptable(r)
    && (r.detail.EgressDetail? && r.detail.deletedAt.Some? ==> r.detail.objectUri.Some? && Terminal(r.status))
  }

  /** The fields no operation may change. */
  predicate SameIdentity(a: Resource, b: Resource) {
    && a.id == b.id && a.environmentId == b.environmentId && a.roomName == b.roomName
    && a.idempotencyKey == b.idempotencyKey && a.createdAt == b.createdAt
    && match a.detail
       case CallDetail(trunk, _, direction, hash) =>
         b.detail.CallDetail? && b.detail.sipTrunkId == trunk && b.detail.direction == direction
         && b.detail.remoteNumberHash == hash
       case IngressDetail(inputType) => b.detail.IngressDetail? && b.detail.inputType == inputType
       case EgressDetail(outputType, _, _, _, _) => b.detail.EgressDetail? && b.detail.outputType == outputType
  }

  /** A path through the transition table: each status may be followed by the next. */
  ghost predicate Path(path: seq<Status>) {
    forall i :: 0 <= i < |path| - 1 ==> CanMove(path[i], path[i + 1])
  }

  ghost predicate Joined(from: Status, to: Status) {
    exists path :: |path| > 0 && path[0] == from && path[|path| - 1] == to && Path(path)
  }

  lemma JoinedBySteps(path: seq<Status>)
    requires |path| > 0 && Path(path)
    ensures Joined(path[0], path[|path| - 1])
  {
  }

  lemma JoinedTransitive(a: Status, b: Status, c: Status)
    requires Joined(a, b) && Joined(b, c)
    ensures Joined(a, c)
  {
    var p :| |p| > 0 && p[0] == a && p[|p| - 1] == b && Path(p);
    var q :| |q| > 0 && q[0] == b && q[|q| - 1] == c && Path(q);
    var path := p + q[1..];
    forall i | 0 <= i < |path| - 1
      ensures CanMove(path[i], path[i + 1])
    {
      if i >= |p| - 1 {
        assert path[i] == q[i - (|p| - 1)] && path[i + 1] == q[i + 1 - (|p| - 1)];
      }
    }
    JoinedBySteps(path);
  }

  /** No path leaves a terminal status. */
  lemma TerminalHasNoWayOut(from: Status, to: Status)
    requires Terminal(from) && Joined(from, to)
    ensures from == to
  {
    var path :| |path| > 0 && path[0] == from && path[|path| - 1] == to && Path(path);
    assert |path| > 1 ==> CanMove(path[0], path[1]);
  }

  /** Once a deletion mark and its evidence are written they stay as they are, and so does having an object. */
  predicate MarksKept(a: Resource, b: Resource) {
    a.detail.EgressDetail? && b.detail.EgressDetail? ==>
      && (a.detail.deletedAt.Some? ==> b.detail.deletedAt == a.detail.deletedAt
                                       && b.detail.deletionEvidenceUri == a.detail.deletionEvidenceUri)
      && (a.detail.objectUri.Some? ==> b.detail.objectUri.Some?)
  }

  ghost predicate Evolves(a: Resource, b: Resource) {
    SameIdentity(a, b) && Joined(a.status, b.status) && MarksKept(a, b)
  }

  lemma EvolvesRefl(r: Resource)
    ensures Evolves(r, r)
  {
    JoinedBySteps([r.status]);
  }

  lemma EvolvesTransitive(a: Resource, b: Resource, c: Resource)
    requires Evolves(a, b) && Evolves(b, c)
    ensures Evolves(a, c)
  {
    JoinedTransitive(a.status, b.status, c.status);
  }

  /** What any operation does to the resource it names. */
  lemma ChangeKeeps(kind: Kind, id: string, op: Op, r: Resource, now: int)
    requires ResourceOk(kind, id, r) && ValidOp(op) && Change(op, r, now).Ok?
    ensures var t := Change(op, r, now).value;
            && ResourceOk(kind, id, t) && Evolves(r, t)
            && (CountsAsActive(t.status) ==> CountsAsActive(r.status))
  {
    var t := Change(op, r, now).value;
    if op.ActivateOp? {
      JoinedBySteps([Requested, Starting, Active]);
    } else if t.status == r.status {
      JoinedBySteps([r.status]);
    } else {
      JoinedBySteps([r.status, t.status]);
    }
  }

  /* ----- the tables ----- */

  ghost predicate TableOk(kind: Kind, table: map<string, Resource>) {
    forall id :: id in table ==> ResourceOk(kind, id, table[id])
  }

  ghost predicate TablesOk(s: State) {
    forall kind :: TableOk(kind, Table(s, kind).vals)
  }

  ghost predicate AllEvolve(s: State, t: State) {
    forall kind, id :: id in Table(s, kind).vals ==>
      id in Table(t, kind).vals && Evolves(Table(s, kind).vals[id], Table(t, kind).vals[id])
  }

  /** Limits count the jobs of their kind that are requested, starting or active. */
  ghost predicate WithinQuota(s: State, options: Options) {
    forall kind :: Limit(options, kind).Some? ==>
      |ActiveIds(Table(s, kind).vals)| <= if Limit(options, kind).value > 0 then Limit(options, kind).value else 0
  }

  /** t is s with r put under `id` in the table of `kind`. */
  ghost predicate OnePut(s: State, t: State, kind: Kind, id: string, r: Resource) {
    && t.calls.vals == (if kind.CallKind? then s.calls.vals[id := r] else s.calls.vals)
    && t.ingress.vals == (if kind.IngressKind? then s.ingress.vals[id := r] else s.ingress.vals)
    && t.egress.vals == (if kind.EgressKind? then s.egress.vals[id := r] else s.egress.vals)
  }

  lemma OnePutKeepsTables(s: State, t: State, kind: Kind, id: string, r: Resource)
    requires TablesOk(s) && OnePut(s, t, kind, id, r) && ResourceOk(kind, id, r)
    ensures TablesOk(t)
  {
    forall k
      ensures TableOk(k, Table(t, k).vals)
    {
      assert TableOk(k, Table(s, k).vals);
    }
  }

  lemma OnePutEvolves(s: State, t: State, kind: Kind, id: string, r: Resource)
    requires OnePut(s, t, kind, id, r)
    requires id in Table(s, kind).vals ==> Evolves(Table(s, kind).vals[id], r)
    ensures AllEvolve(s, t)
  {
    forall k, i | i in Table(s, k).vals
      ensures i in Table(t, k).vals && Evolves(Table(s, k).vals[i], Table(t, k).vals[i])
    {
      EvolvesRefl(Table(s, k).vals[i]);
    }
  }

  lemma OnePutKeepsQuota(s: State, t: State, options: Options, kind: Kind, id: string, r: Resource)
    requires WithinQuota(s, options) && OnePut(s, t, kind, id, r)
    requires if id in Table(s, kind).vals then CountsAsActive(r.status) ==>
               CountsAsActive(Table(s, kind).vals[id].status)
             else HasRoom(s, options, kind)
    ensures WithinQuota(t, options)
  {
    hide JsMap.OrderedMap.Valid, JsMap.Distinct;
    if id in Table(s, kind).vals {
      SubsetSize(ActiveIds(Table(t, kind).vals), ActiveIds(Table(s, kind).vals));
    } else {
      SubsetSize(ActiveIds(Table(t, kind).vals), ActiveIds(Table(s, kind).vals) + {id});
    }
  }

  lemma PutKeeps(s: State, options: Options, kind: Kind, id: string, r: Resource)
    requires TablesOk(s) && WithinQuota(s, options) && id in Table(s, kind).vals
    requires ResourceOk(kind, id, r) && Evolves(Table(s, kind).vals[id], r)
    requires CountsAsActive(r.status) ==> CountsAsActive(Table(s, kind).vals[id].status)
    ensures var t := Put(s, kind, id, r); TablesOk(t) && WithinQuota(t, options) && AllEvolve(s, t)
  {
    var t := Put(s, kind, id, r);
    assert OnePut(s, t, kind, id, r);
    OnePutKeepsTables(s, t, kind, id, r);
    OnePutEvolves(s, t, kind, id, r);
    OnePutKeepsQuota(s, t, options, kind, id, r);
  }

  lemma StoredIsOnePut(s: State, kind: Kind, r: Resource, scope: string, mark: Fingerprint)
    ensures OnePut(s, Stored(s, kind, r, scope, mark), kind, r.id, r)
    ensures Stored(s, kind, r, scope, mark).idempotency.vals == s.idempotency.vals[scope := r]
  {
    match kind
    case CallKind =>
    case IngressKind =>
    case EgressKind =>
  }

  lemma StoredKeeps(s: State, options: Options, kind: Kind, r: Resource, scope: string, mark: Fingerprint)
    requires TablesOk(s) && WithinQuota(s, options) && HasRoom(s, options, kind)
    requires ResourceOk(kind, r.id, r) && r.id !in Table(s, kind).vals
    ensures var t := Stored(s, kind, r, scope, mark); TablesOk(t) && WithinQuota(t, options) && AllEvolve(s, t)
  {
    var t := Stored(s, kind, r, scope, mark);
    StoredIsOnePut(s, kind, r, scope, mark);
    OnePutKeepsTables(s, t, kind, r.id, r);
    OnePutEvolves(s, t, kind, r.id, r);
    OnePutKeepsQuota(s, t, options, kind, r.id, r);
  }

  lemma AllEvolveRefl(s: State)
    ensures AllEvolve(s, s)
  {
    forall kind, id | id in Table(s, kind).vals
      ensures Evolves(Table(s, kind).vals[id], Table(s, kind).vals[id])
    {
      EvolvesRefl(Table(s, kind).vals[id]);
    }
  }

  lemma ChangeStep(s: State, options: Options, op: Op, now: int)
    requires TablesOk(s) && WithinQuota(s, options) && !op.CreateOp? && !op.SaveResultOp?
    requires Apply(s, options, op, now).Ok?
    ensures var t := Apply(s, options, op, now).value.0; TablesOk(t) && WithinQuota(t, options) && AllEvolve(s, t)
  {
    var kind, id := OpKind(op), op.id;
    var r := Table(s, kind).vals[id];
    assert TableOk(kind, Table(s, kind).vals);
    ChangeKeeps(kind, id, op, r, now);
    PutKeeps(s, options, kind, id, Change(op, r, now).value);
  }

  lemma SameTables(s: State, t: State, options: Options)
    requires TablesOk(s) && WithinQuota(s, options) && forall k :: Table(t, k) == Table(s, k)
    ensures TablesOk(t) && WithinQuota(t, options) && AllEvolve(s, t)
  {
    AllEvolveRefl(s);
  }

  lemma CreateStep(s: State, options: Options, q: Request, id: string, now: int)
    requires TablesOk(s) && WithinQuota(s, options) && Enabled(s, Event(CreateOp(q, id), now))
    requires Create(s, options, q, id, now).Ok?
    ensures var t := Create(s, options, q, id, now).value.0; TablesOk(t) && WithinQuota(t, options) && AllEvolve(s, t)
  {
    hide TablesOk, WithinQuota, AllEvolve, HasRoom, ValidRequest, PrintOf, RequestScope, Stored;
    if RequestScope(q) in s.idempotency.vals {
      SameTables(s, s, options);
    } else {
      StoredKeeps(s, options, RequestKind(q), NewResource(q, id, now), RequestScope(q), PrintOf(q));
    }
  }

  lemma TablesStep(s: State, options: Options, e: Event)
    requires TablesOk(s) && WithinQuota(s, options) && Enabled(s, e)
    ensures var t := Next(s, options, e); TablesOk(t) && WithinQuota(t, options) && AllEvolve(s, t)
  {
    if Apply(s, options, e.op, e.now).Err? || e.op.SaveResultOp? {
      SameTables(s, Next(s, options, e), options);
    } else if e.op.CreateOp? {
      CreateStep(s, options, e.op.request, e.op.id, e.now);
    } else {
      ChangeStep(s, options, e.op, e.now);
    }
  }

  lemma InitialOk(options: Options)
    ensures TablesOk(Initial()) && WithinQuota(Initial(), options)
  {
    forall kind
      ensures ActiveIds(Table(Initial(), kind).vals) == {}
    {
    }
  }

  lemma {:induction false} TablesRun(s: State, options: Options, events: seq<Event>, t: State)
    requires TablesOk(s) && WithinQuota(s, options) && Reaches(s, options, events, t)
    ensures TablesOk(t) && WithinQuota(t, options) && AllEvolve(s, t)
    decreases |events|
  {
    AllEvolveRefl(s);
    if events != [] {
      var u := Next(s, options, events[0]);
      TablesStep(s, options, events[0]);
      TablesRun(u, options, events[1..], t);
      forall kind, id | id in Table(s, kind).vals
        ensures id in Table(t, kind).vals && Evolves(Table(s, kind).vals[id], Table(t, kind).vals[id])
      {
        EvolvesTransitive(Table(s, kind).vals[id], Table(u, kind).vals[id], Table(t, kind).vals[id]);
      }
    }
  }

  /** Main result: after any run the active jobs of a kind are within its limit. */
  lemma QuotaNeverExceeded(options: Options, events: seq<Event>, t: State, kind: Kind)
    requires Reaches(Initial(), options, events, t) && Limit(options, kind).Some?
    ensures |Busy(Table(t, kind).vals)| <= if Limit(options, kind).value > 0 then Limit(options, kind).value else 0
  {
    InitialOk(options);
    TablesRun(Initial(), options, events, t);
    BusyAreActive(Table(t, kind).vals);
  }

  /** The jobs that are requested, starting or active. */
  ghost function Busy(table: map<string, Resource>): set<string> {
    set id | id in table
             && (table[id].status == Requested || table[id].status == Starting || table[id].status == Active)
  }

  lemma BusyAreActive(table: map<string, Resource>)
    ensures Busy(table) == ActiveIds(table)
  {
  }

  /** Main result: a resource is never removed and keeps its identity; its statuses at any two moments are joined by a
      path in the table, so a terminal status is final; its deletion marks are written once. */
  lemma ResourcesEvolve(
      options: Options, events: seq<Event>, s: State, later: seq<Event>, t: State, kind: Kind, id: string)
    requires Reaches(Initial(), options, events, s) && Reaches(s, options, later, t) && id in Table(s, kind).vals
    ensures id in Table(t, kind).vals
    ensures var a, b := Table(s, kind).vals[id], Table(t, kind).vals[id];
            SameIdentity(a, b) && Joined(a.status, b.status) && MarksKept(a, b) && (Terminal(a.status) ==>
                                                                                      b.status == a.status)
  {
    InitialOk(options);
    TablesRun(Initial(), options, events, s);
    TablesRun(s, options, later, t);
    assert Evolves(Table(s, kind).vals[id], Table(t, kind).vals[id]);
    if Terminal(Table(s, kind).vals[id].status) {
      TerminalHasNoWayOut(Table(s, kind).vals[id].status, Table(t, kind).vals[id].status);
    }
  }

  /** Main result: whatever has been started has its provider's id, and a deletion mark always comes with evidence, an
      object and a terminal status. */
  lemma ProviderAndDeletionMarks(options: Options, events: seq<Event>, t: State, kind: Kind, id: string)
    requires Reaches(Initial(), options, events, t) && id in Table(t, kind).vals
    ensures var r := Table(t, kind).vals[id];
            && (NeedsProvider(r.status) ==> r.providerId.Some? && r.providerId.value != "")
            && (r.detail.EgressDetail? ==> (r.detail.deletedAt.Some? <==> r.detail.deletionEvidenceUri.Some?))
            && (r.detail.EgressDetail? && r.detail.deletedAt.Some? ==>
                  r.detail.deletionEvidenceUri.value != "" && r.detail.objectUri.Some? && Terminal(r.status))
  {
    InitialOk(options);
    TablesRun(Initial(), options, events, t);
    assert TableOk(kind, Table(t, kind).vals);
  }

  /** The mark outlives its object: a report of the same terminal status may still replace the object's address, and
      only such a report does, so the evidence is known to be about the current object exactly until one arrives. */
  lemma DeletedObjectReplacedIff(r: Resource, op: Op, now: int, id: string)
    requires ResourceOk(EgressKind, id, r) && r.detail.EgressDetail? && r.detail.deletedAt.Some?
    requires ValidOp(op) && Change(op, r, now).Ok?
    ensures var t := Change(op, r, now).value;
            t.detail.EgressDetail? &&
            (t.detail.objectUri != r.detail.objectUri <==>
               op.ReportOp? && op.update.status == r.status && op.update.objectUri.Some?
               && op.update.objectUri != r.detail.objectUri)
  {
  }

  /** An egress job runs, is completed, deleted and marked, and then reported completed with another object. */
  function ReplacedAfterDeletion(): seq<Event> {
    [Event(CreateOp(EgressRequest("e", "r", "k", "mp4", None), "j"), 0),
     Event(ActivateOp(EgressKind, "j", "p", Some("u"), None), 0),
     Event(ReportOp(EgressKind, "j", Update(Completed, None, None, None)), 0), Event(DeleteOp("j", "v"), 0),
     Event(ReportOp(EgressKind, "j", Update(Completed, None, Some("w"), None)), 0)]
  }

  const EgressOnly := Options(false, false, true, None, None)

  /** The job after so many of these events. */
  function JobStage(i: nat): Resource {
    Resource("j", "e", "r", "k", if i <= 1 then Requested else if i == 2 then Active
                                                          else Completed, if i <= 1 then None else Some("p"), 0, 0,
             EgressDetail("mp4", if i <= 1 then None else if i <= 4 then Some("u") else Some("w"), None,
                          if i <= 3 then None else Some(Iso(0)), if i <= 3 then None else Some("v")))
  }

  function MediaStage(i: nat): State {
    var q := EgressRequest("e", "r", "k", "mp4", None);
    if i == 0 then Initial()
    else if i == 1 then Stored(Initial(), EgressKind, JobStage(1), RequestScope(q), PrintOf(q))
    else Put(MediaStage(i - 1), EgressKind, "j", JobStage(i))
  }

  lemma LetterChecked(s: string, limit: nat)
    requires |s| == 1 && 'a' <= s[0] <= 'z' && limit >= 1
    ensures Checked(s, limit)
  {
  }

  lemma CreateStage()
    ensures Enabled(MediaStage(0), ReplacedAfterDeletion()[0])
    ensures Next(MediaStage(0), EgressOnly, ReplacedAfterDeletion()[0]) == MediaStage(1)
  {
    LetterChecked("e", 128);
    LetterChecked("r", 128);
    LetterChecked("k", 128);
    hide Checked, Stored, RequestScope, PrintOf, JsMap.OrderedMap.Valid, JsMap.Distinct;
    var q := EgressRequest("e", "r", "k", "mp4", None);
    assert ValidRequest(q) && RequestScope(q) !in Initial().idempotency.vals;
    assert NewResource(q, "j", 0) == JobStage(1);
    assert Create(Initial(), EgressOnly, q, "j", 0).Ok?;
  }

  lemma {:induction false} JobAt(i: nat)
    requires 1 <= i
    ensures "j" in MediaStage(i).egress.vals && MediaStage(i).egress.vals["j"] == JobStage(i)
  {
    hide RequestScope, PrintOf, JsMap.OrderedMap.Valid, JsMap.Distinct;
    if i > 1 {
      JobAt(i - 1);
    }
  }

  lemma ChangeStage(i: nat)
    requires 1 <= i < 5
    ensures ValidOp(ReplacedAfterDeletion()[i].op)
    ensures Change(ReplacedAfterDeletion()[i].op, JobStage(i), 0) == Ok(JobStage(i + 1))
  {
    LetterChecked("p", 128);
    LetterChecked("u", 2048);
    LetterChecked("v", 128);
    LetterChecked("w", 128);
    hide Checked;
  }

  lemma ApplyIsPut(s: State, options: Options, op: Op, now: int, r: Resource)
    requires !op.CreateOp? && !op.SaveResultOp? && ValidOp(op) && op.id in Table(s, OpKind(op)).vals
    requires Change(op, Table(s, OpKind(op)).vals[op.id], now) == Ok(r)
    ensures Next(s, options, Event(op, now)) == Put(s, OpKind(op), op.id, r)
  {
    hide Change, ValidOp, Put;
  }

  lemma StageOp(i: nat)
    requires 1 <= i < 5
    ensures var e := ReplacedAfterDeletion()[i];
            !e.op.CreateOp? && !e.op.SaveResultOp? && OpKind(e.op) == EgressKind && e.op.id == "j" && e.now == 0
    ensures forall s :: Enabled(s, ReplacedAfterDeletion()[i])
  {
  }

  lemma NextStage(i: nat)
    requires 1 <= i < 5
    ensures Enabled(MediaStage(i), ReplacedAfterDeletion()[i])
    ensures Next(MediaStage(i), EgressOnly, ReplacedAfterDeletion()[i]) == MediaStage(i + 1)
  {
    ChangeStage(i);
    JobAt(i);
    StageIsPut(i);
    StageOp(i);
    EgressTable(MediaStage(i));
    hide *;
    ApplyIsPut(MediaStage(i), EgressOnly, ReplacedAfterDeletion()[i].op, 0, JobStage(i + 1));
  }

  lemma EgressTable(s: State)
    ensures Table(s, EgressKind) == s.egress
  {
  }

  lemma StageIsPut(i: nat)
    requires 1 <= i
    ensures MediaStage(i + 1) == Put(MediaStage(i), EgressKind, "j", JobStage(i + 1))
  {
  }

  lemma {:induction false} MediaStagesReach(i: nat, n: nat)
    requires i <= n <= 5
    ensures Reaches(MediaStage(i), EgressOnly, ReplacedAfterDeletion()[i..n], MediaStage(n))
    decreases n - i
  {
    hide Next, Enabled, MediaStage;
    var events := ReplacedAfterDeletion();
    if i < n {
      if i == 0 {
        CreateStage();
      } else {
        NextStage(i);
      }
      MediaStagesReach(i + 1, n);
      assert events[i..n][0] == events[i] && events[i..n][1..] == events[i + 1..n];
    }
  }

  /** A run to that point: a job marked deleted, with evidence, whose object address then changes under the mark. */
  lemma ReplacedAfterDeletionRun()
    ensures Reaches(Initial(), EgressOnly, ReplacedAfterDeletion()[..4], MediaStage(4))
    ensures Reaches(Initial(), EgressOnly, ReplacedAfterDeletion(), MediaStage(5))
    ensures JsMap.Get(MediaStage(4).egress, "j") == Some(JobStage(4))
    ensures JsMap.Get(MediaStage(5).egress, "j") == Some(JobStage(5))
  {
    hide Reaches, MediaStage, JobStage, JsMap.OrderedMap.Valid, JsMap.Distinct;
    StartStage();
    MediaStagesReach(0, 4);
    MediaStagesReach(0, 5);
    JobAt(4);
    JobAt(5);
    var events := ReplacedAfterDeletion();
    assert events[0..5] == events && events[0..4] == events[..4];
  }

  lemma StartStage()
    ensures MediaStage(0) == Initial()
  {
  }

  lemma TheObjectChanged()
    ensures JobStage(4).detail == EgressDetail("mp4", Some("u"), None, Some(Iso(0)), Some("v"))
    ensures JobStage(5).detail == EgressDetail("mp4", Some("w"), None, Some(Iso(0)), Some("v"))
    ensures JobStage(5) == JobStage(4).(detail := JobStage(5).detail)
  {
  }

  /* ----- first request wins ----- */

  /** A create request's identity before it is encoded as a string. */
  datatype Asked = Asked(kind: Kind, environmentId: string, key: string)

  function AskedOf(q: Request): Asked {
    Asked(RequestKind(q), q.environmentId, q.idempotencyKey)
  }

  function AskedBy(r: Resource): Asked {
    Asked(KindOf(r.detail), r.environmentId, r.idempotencyKey)
  }

  function ScopeOf(a: Asked): string {
    Scope(a.kind, a.environmentId, a.key)
  }

  lemma ScopeIsInjective(a: Asked, b: Asked)
    requires ColonKeys.ColonFree(a.environmentId) && ColonKeys.ColonFree(b.environmentId)
    ensures ScopeOf(a) == ScopeOf(b) <==> a == b
  {
    if ScopeOf(a) == ScopeOf(b) {
      ColonKeys.JoinIsInjective(KindName(a.kind), ColonKeys.Join(a.environmentId, a.key), KindName(b.kind),
                                ColonKeys.Join(b.environmentId, b.key));
      ColonKeys.JoinIsInjective(a.environmentId, a.key, b.environmentId, b.key);
      assert a.kind == b.kind by {
        assert |"sip"| == 3 && |"ingress"| == 7 && |"egress"| == 6;
      }
    }
  }

  /** The smallest request of a kind. */
  function Plain(kind: Kind, environmentId: string, key: string): Request {
    match kind
    case CallKind => SipRequest(environmentId, "r", key, None, None, None, "inbound", "1")
    case IngressKind => IngressRequest(environmentId, "r", key, "rtmp", None)
    case EgressKind => EgressRequest(environmentId, "r", key, "mp4", None)
  }

  lemma PlainIsValid(kind: Kind, environmentId: string, key: string)
    requires Checked(environmentId, 128) && Checked(key, 128)
    ensures var q := Plain(kind, environmentId, key);
            ValidRequest(q) && RequestKind(q) == kind && q.environmentId == environmentId && q.idempotencyKey == key
  {
    assert !IsSpace("r"[0]) && !IsControl("r"[0]) && !IsSpace("1"[0]) && !IsControl("1"[0]);
    assert Checked("r", 128) && Checked("1", 128);
  }

  /** The longer environment id is the shorter one, a ':' and a rest a key may begin with. */
  predicate CrossesInto(a: string, b: string) {
    ColonKeys.ExtendsByColon(a, b) && (|a| + 1 < |b| ==> !IsSpace(b[|a| + 1]))
  }

  lemma CrossingKey(a: string, b: string) returns (key: string)
    requires Checked(a, 128) && Checked(b, 128) && CrossesInto(a, b)
    ensures Checked(key, 128) && ColonKeys.Join(a, key) == ColonKeys.Join(b, "k")
  {
    var rest := b[|a| + 1..];
    key := rest + ":k";
    assert b == a + ":" + rest;
    assert a + ":" + key == b + ":" + "k";
    assert key[|key| - 1] == 'k' && key[|key| - 2] == ':';
    assert forall i :: 0 <= i < |rest| ==> key[i] == b[|a| + 1 + i];
  }

  lemma CrossingStarts(a: string, x: string, b: string, y: string)
    requires Checked(x, 128) && ColonKeys.Join(a, x) == ColonKeys.Join(b, y) && ColonKeys.ExtendsByColon(a, b)
    ensures CrossesInto(a, b)
  {
    var s := ColonKeys.Join(a, x);
    assert s[|a| + 1..] == x;
    if |a| + 1 < |b| {
      assert x[0] == s[|a| + 1] == b[|a| + 1];
    }
  }

  /** Two accepted requests of one kind, one in each environment, that fall on one scope. */
  ghost predicate Collide(kind: Kind, a: string, b: string, q: Request, r: Request) {
    && ValidRequest(q) && ValidRequest(r) && RequestKind(q) == kind && RequestKind(r) == kind
    && q.environmentId == a && r.environmentId == b && RequestScope(q) == RequestScope(r)
  }

  lemma CollidingCross(kind: Kind, a: string, b: string, q: Request, r: Request)
    requires Collide(kind, a, b, q, r)
    ensures Checked(a, 128) && Checked(b, 128) && (a == b || CrossesInto(a, b) || CrossesInto(b, a))
  {
    var x, y := q.idempotencyKey, r.idempotencyKey;
    assert Checked(x, 128) && Checked(y, 128);
    hide Checked, ColonKeys.Join, CrossesInto, ColonKeys.ExtendsByColon;
    ColonKeys.JoinIsInjective(KindName(kind), ColonKeys.Join(a, x), KindName(kind), ColonKeys.Join(b, y));
    ColonKeys.JoinedHeads(a, x, b, y);
    if ColonKeys.ExtendsByColon(a, b) {
      CrossingStarts(a, x, b, y);
    } else if ColonKeys.ExtendsByColon(b, a) {
      CrossingStarts(b, y, a, x);
    }
  }

  lemma CrossCollides(kind: Kind, a: string, b: string) returns (q: Request, r: Request)
    requires Checked(a, 128) && Checked(b, 128) && (a == b || CrossesInto(a, b))
    ensures Collide(kind, a, b, q, r)
  {
    assert !IsSpace("k"[0]) && !IsControl("k"[0]);
    var key := "k";
    if a != b {
      key := CrossingKey(a, b);
    }
    assert Checked("k", 128);
    hide Checked, ValidRequest, CrossesInto;
    PlainIsValid(kind, a, key);
    PlainIsValid(kind, b, "k");
    q, r := Plain(kind, a, key), Plain(kind, b, "k");
  }

  /** Main result: accepted requests of one kind in two environments can fall on one scope exactly when both ids are
      acceptable and they are equal or one extends the other by a ':' that is not followed by a space. */
  lemma EnvironmentsCollideIff(kind: Kind, a: string, b: string)
    ensures (exists q, r :: Collide(kind, a, b, q, r))
       <==> Checked(a, 128) && Checked(b, 128) && (a == b || CrossesInto(a, b) || CrossesInto(b, a))
  {
    hide Collide, Checked, CrossesInto;
    forall q, r | Collide(kind, a, b, q, r)
      ensures Checked(a, 128) && Checked(b, 128) && (a == b || CrossesInto(a, b) || CrossesInto(b, a))
    {
      CollidingCross(kind, a, b, q, r);
    }
    if Checked(a, 128) && Checked(b, 128) && (a == b || CrossesInto(a, b)) {
      var q, r := CrossCollides(kind, a, b);
    } else if Checked(a, 128) && Checked(b, 128) && CrossesInto(b, a) {
      var r, q := CrossCollides(kind, b, a);
      CollideSymmetric(kind, b, a, r, q);
    }
  }

  lemma CollideSymmetric(kind: Kind, a: string, b: string, q: Request, r: Request)
    requires Collide(kind, a, b, q, r)
    ensures Collide(kind, b, a, r, q)
  {
  }

  /** The table the code refines: what was first asked, its fingerprint and the id it was given. */
  type Firsts = map<Asked, (Fingerprint, string)>

  datatype Answer = Granted(id: string) | Refused(error: Error)

  /** A first-come table: an entry is written once, answers its own fingerprint and refuses any other. */
  function Ask(first: Firsts, q: Request, id: string, permitted: bool, room: bool): (Firsts, Answer) {
    var a := AskedOf(q);
    if !permitted then (first, Refused(PolicyDisabled))
    else if !ValidRequest(q) then (first, Refused(Conflict))
    else if a in first then (first, if first[a].0 == PrintOf(q) then Granted(first[a].1) else Refused(Conflict))
    else if !room then (first, Refused(QuotaExceeded))
    else (first[a := (PrintOf(q), id)], Granted(id))
  }

  /** What one entry of the first-come table says about the state. */
  ghost predicate EntryMatches(s: State, a: Asked, entry: (Fingerprint, string)) {
    && ColonKeys.ColonFree(a.environmentId)
    && ScopeOf(a) in s.idempotency.vals && AskedBy(s.idempotency.vals[ScopeOf(a)]) == a
    && s.idempotency.vals[ScopeOf(a)].id == entry.1
    && JsMap.Get(s.fingerprints, ScopeOf(a)) == Some(entry.0)
    && entry.1 in Table(s, a.kind).vals && AskedBy(Table(s, a.kind).vals[entry.1]) == a
  }

  ghost predicate ScopeMatches(s: State, first: Firsts, scope: string)
    requires scope in s.idempotency.vals
  {
    var a := AskedBy(s.idempotency.vals[scope]);
    a in first && ScopeOf(a) == scope
  }

  ghost predicate ResourceMatches(s: State, first: Firsts, kind: Kind, id: string)
    requires id in Table(s, kind).vals
  {
    var a := AskedBy(Table(s, kind).vals[id]);
    a in first && a.kind == kind && first[a].1 == id
  }

  /** Entries of the first-come table, idempotency entries and stored resources correspond one to one. */
  ghost predicate Matches(s: State, first: Firsts) {
    && (forall a {:trigger EntryMatches(s, a, first[a])} :: a in first ==> EntryMatches(s, a, first[a]))
    && (forall scope {:trigger ScopeMatches(s, first, scope)} :: scope in s.idempotency.vals ==>
          ScopeMatches(s, first, scope))
    && (forall kind, id {:trigger ResourceMatches(s, first, kind, id)} :: id in Table(s, kind).vals ==>
          ResourceMatches(s, first, kind, id))
  }

  function AnswerOf(r: Result<(State, Resource), Error>): Answer {
    match r
    case Ok(pair) => Granted(pair.1.id)
    case Err(e) => Refused(e)
  }

  /** A scope already taken was taken by this very request's kind, environment and key. */
  lemma TakenScope(s: State, first: Firsts, a: Asked)
    requires Matches(s, first) && ColonKeys.ColonFree(a.environmentId)
    ensures ScopeOf(a) in s.idempotency.vals <==> a in first
    ensures a in first ==> EntryMatches(s, a, first[a])
  {
    if a in first {
      assert EntryMatches(s, a, first[a]);
    } else if ScopeOf(a) in s.idempotency.vals {
      var b := AskedBy(s.idempotency.vals[ScopeOf(a)]);
      assert ScopeMatches(s, first, ScopeOf(a));
      assert EntryMatches(s, b, first[b]);
      ScopeIsInjective(a, b);
    }
  }

  lemma CreateRefines(s: State, first: Firsts, options: Options, q: Request, id: string, now: int)
    requires Matches(s, first) && ColonKeys.ColonFree(q.environmentId)
    requires Enabled(s, Event(CreateOp(q, id), now))
    ensures var (first', answer) := Ask(first, q, id, Permitted(options, RequestKind(q)),
                                        HasRoom(s, options, RequestKind(q)));
            && AnswerOf(Create(s, options, q, id, now)) == answer
            && Matches(Next(s, options, Event(CreateOp(q, id), now)), first')
  {
    hide Matches, ValidRequest, HasRoom, PrintOf, Stored;
    TakenScope(s, first, AskedOf(q));
    if Create(s, options, q, id, now).Ok? && AskedOf(q) !in first {
      var r := NewResource(q, id, now);
      assert AskedBy(r) == AskedOf(q);
      NewEntryMatches(s, first, r, PrintOf(q));
    }
  }

  lemma OnlyOnePut(s: State, t: State, kind: Kind, id: string, r: Resource, k: Kind, i: string)
    requires OnePut(s, t, kind, id, r) && !(k == kind && i == id)
    ensures i in Table(t, k).vals <==> i in Table(s, k).vals
    ensures i in Table(s, k).vals ==> Table(t, k).vals[i] == Table(s, k).vals[i]
  {
  }

  lemma OldEntryMatches(s: State, r: Resource, mark: Fingerprint, b: Asked, entry: (Fingerprint, string))
    requires EntryMatches(s, b, entry) && ColonKeys.ColonFree(r.environmentId)
    requires r.id !in Table(s, KindOf(r.detail)).vals && AskedBy(r) != b
    ensures EntryMatches(Stored(s, KindOf(r.detail), r, ScopeOf(AskedBy(r)), mark), b, entry)
  {
    var kind, scope := KindOf(r.detail), ScopeOf(AskedBy(r));
    StoredIsOnePut(s, kind, r, scope, mark);
    ScopeIsInjective(AskedBy(r), b);
    OnlyOnePut(s, Stored(s, kind, r, scope, mark), kind, r.id, r, b.kind, entry.1);
  }

  lemma OwnEntryMatches(s: State, r: Resource, mark: Fingerprint)
    requires ColonKeys.ColonFree(r.environmentId)
    ensures EntryMatches(Stored(s, KindOf(r.detail), r, ScopeOf(AskedBy(r)), mark), AskedBy(r), (mark, r.id))
  {
    hide JsMap.OrderedMap.Valid, JsMap.Distinct, ScopeOf;
  }

  lemma OldResourceMatches(s: State, first: Firsts, r: Resource, mark: Fingerprint, k: Kind, i: string)
    requires Matches(s, first) && AskedBy(r) !in first && !(k == KindOf(r.detail) && i == r.id)
    requires i in Table(Stored(s, KindOf(r.detail), r, ScopeOf(AskedBy(r)), mark), k).vals
    ensures ResourceMatches(Stored(s, KindOf(r.detail), r, ScopeOf(AskedBy(r)), mark),
                            first[AskedBy(r) := (mark, r.id)], k, i)
  {
    hide Stored, OnePut;
    var kind, scope := KindOf(r.detail), ScopeOf(AskedBy(r));
    StoredIsOnePut(s, kind, r, scope, mark);
    OnlyOnePut(s, Stored(s, kind, r, scope, mark), kind, r.id, r, k, i);
    assert ResourceMatches(s, first, k, i);
  }

  lemma ScopesMatch(s: State, first: Firsts, r: Resource, mark: Fingerprint, scope: string)
    requires Matches(s, first)
    requires scope in Stored(s, KindOf(r.detail), r, ScopeOf(AskedBy(r)), mark).idempotency.vals
    ensures ScopeMatches(Stored(s, KindOf(r.detail), r, ScopeOf(AskedBy(r)), mark), first[AskedBy(r) := (mark, r.id)],
                         scope)
  {
    hide Stored, OnePut;
    StoredIsOnePut(s, KindOf(r.detail), r, ScopeOf(AskedBy(r)), mark);
    if scope != ScopeOf(AskedBy(r)) {
      assert ScopeMatches(s, first, scope);
    }
  }

  lemma OwnResourceMatches(s: State, first: Firsts, r: Resource, mark: Fingerprint)
    ensures r.id in Table(Stored(s, KindOf(r.detail), r, ScopeOf(AskedBy(r)), mark), KindOf(r.detail)).vals
    ensures ResourceMatches(Stored(s, KindOf(r.detail), r, ScopeOf(AskedBy(r)), mark),
                            first[AskedBy(r) := (mark, r.id)], KindOf(r.detail), r.id)
  {
    hide Stored;
    StoredIsOnePut(s, KindOf(r.detail), r, ScopeOf(AskedBy(r)), mark);
  }

  lemma EntryOf(s: State, first: Firsts, a: Asked)
    requires Matches(s, first) && a in first
    ensures EntryMatches(s, a, first[a])
  {
    assert EntryMatches(s, a, first[a]);
  }

  lemma NewEntryMatches(s: State, first: Firsts, r: Resource, mark: Fingerprint)
    requires Matches(s, first) && ColonKeys.ColonFree(r.environmentId)
    requires r.id !in Table(s, KindOf(r.detail)).vals && AskedBy(r) !in first
    ensures Matches(Stored(s, KindOf(r.detail), r, ScopeOf(AskedBy(r)), mark), first[AskedBy(r) := (mark, r.id)])
  {
    hide EntryMatches, ScopeMatches, ResourceMatches, Stored, ScopeOf;
    var t := Stored(s, KindOf(r.detail), r, ScopeOf(AskedBy(r)), mark);
    var first' := first[AskedBy(r) := (mark, r.id)];
    forall b | b in first'
      ensures EntryMatches(t, b, first'[b])
    {
      if b == AskedBy(r) {
        OwnEntryMatches(s, r, mark);
      } else {
        EntryOf(s, first, b);
        OldEntryMatches(s, r, mark, b, first[b]);
      }
    }
    forall scope | scope in t.idempotency.vals
      ensures ScopeMatches(t, first', scope)
    {
      ScopesMatch(s, first, r, mark, scope);
    }
    forall k, i | i in Table(t, k).vals
      ensures ResourceMatches(t, first', k, i)
    {
      if k == KindOf(r.detail) && i == r.id {
        OwnResourceMatches(s, first, r, mark);
      } else {
        OldResourceMatches(s, first, r, mark, k, i);
      }
    }
  }

  lemma EntrySurvives(s: State, t: State, a: Asked, entry: (Fingerprint, string))
    requires EntryMatches(s, a, entry) && AllEvolve(s, t)
    requires t.idempotency == s.idempotency && t.fingerprints == s.fingerprints
    ensures EntryMatches(t, a, entry)
  {
    assert Evolves(Table(s, a.kind).vals[entry.1], Table(t, a.kind).vals[entry.1]);
  }

  lemma SameIds(s: State, options: Options, e: Event, kind: Kind)
    requires !e.op.CreateOp?
    ensures Table(Next(s, options, e), kind).vals.Keys == Table(s, kind).vals.Keys
    ensures Next(s, options, e).idempotency == s.idempotency && Next(s, options, e).fingerprints == s.fingerprints
  {
  }

  lemma OthersMatch(s: State, first: Firsts, options: Options, e: Event)
    requires TablesOk(s) && WithinQuota(s, options) && Matches(s, first) && !e.op.CreateOp?
    ensures Matches(Next(s, options, e), first)
  {
    var t := Next(s, options, e);
    TablesStep(s, options, e);
    SameIds(s, options, e, CallKind);
    forall a | a in first
      ensures EntryMatches(t, a, first[a])
    {
      assert EntryMatches(s, a, first[a]);
      EntrySurvives(s, t, a, first[a]);
    }
    forall scope | scope in t.idempotency.vals
      ensures ScopeMatches(t, first, scope)
    {
      assert ScopeMatches(s, first, scope);
    }
    forall kind, id | id in Table(t, kind).vals
      ensures ResourceMatches(t, first, kind, id)
    {
      SameIds(s, options, e, kind);
      assert ResourceMatches(s, first, kind, id);
      assert Evolves(Table(s, kind).vals[id], Table(t, kind).vals[id]);
    }
  }

  function NextFirsts(first: Firsts, s: State, options: Options, e: Event): Firsts {
    if e.op.CreateOp? then
      Ask(first, e.op.request, e.op.id, Permitted(options, RequestKind(e.op.request)),
          HasRoom(s, options, RequestKind(e.op.request))).0
    else first
  }

  /** Entries are never changed. */
  ghost predicate Keeps(first: Firsts, later: Firsts) {
    forall a :: a in first ==> a in later && later[a] == first[a]
  }

  /** The first-come table after a run of the code. */
  ghost function FirstsAfter(s: State, first: Firsts, options: Options, events: seq<Event>): Firsts
    decreases |events|
  {
    if events == [] then first
    else FirstsAfter(Next(s, options, events[0]), NextFirsts(first, s, options, events[0]), options, events[1..])
  }

  ghost predicate ColonFreeEnvironments(events: seq<Event>) {
    forall i :: 0 <= i < |events| && events[i].op.CreateOp? ==> ColonKeys.ColonFree(events[i].op.request.environmentId)
  }

  lemma MatchesStep(s: State, first: Firsts, options: Options, e: Event)
    requires TablesOk(s) && WithinQuota(s, options) && Matches(s, first) && Enabled(s, e)
    requires e.op.CreateOp? ==> ColonKeys.ColonFree(e.op.request.environmentId)
    ensures Matches(Next(s, options, e), NextFirsts(first, s, options, e))
    ensures Keeps(first, NextFirsts(first, s, options, e))
  {
    if e.op.CreateOp? {
      CreateRefines(s, first, options, e.op.request, e.op.id, e.now);
    } else {
      OthersMatch(s, first, options, e);
    }
  }

  lemma {:induction false} MatchesRun(s: State, first: Firsts, options: Options, events: seq<Event>, t: State)
    requires TablesOk(s) && WithinQuota(s, options) && Matches(s, first)
    requires Reaches(s, options, events, t) && ColonFreeEnvironments(events)
    ensures Matches(t, FirstsAfter(s, first, options, events))
    ensures Keeps(first, FirstsAfter(s, first, options, events))
    decreases |events|
  {
    if events != [] {
      var e := events[0];
      MatchesStep(s, first, options, e);
      TablesStep(s, options, e);
      MatchesRun(Next(s, options, e), NextFirsts(first, s, options, e), options, events[1..], t);
    }
  }

  lemma InitialMatches()
    ensures Matches(Initial(), map[])
  {
    forall kind
      ensures Table(Initial(), kind).vals == map[]
    {
    }
  }

  /** Main result.  For environments without ':' creation refines the first-come table: after any run the answer to a
      request is the table's answer, and the table, the idempotency entries and the resources stay in one-to-one
      correspondence. */
  lemma CreationRefinesFirsts(options: Options, events: seq<Event>, s: State, q: Request, id: string, now: int)
    requires Reaches(Initial(), options, events, s) && ColonFreeEnvironments(events)
    requires ColonKeys.ColonFree(q.environmentId)
    requires Enabled(s, Event(CreateOp(q, id), now))
    ensures var first := FirstsAfter(Initial(), map[], options, events);
            && Matches(s, first)
            && AnswerOf(Create(s, options, q, id, now)) ==
               Ask(first, q, id, Permitted(options, RequestKind(q)), HasRoom(s, options, RequestKind(q))).1
  {
    InitialOk(options);
    InitialMatches();
    MatchesRun(Initial(), map[], options, events, s);
    CreateRefines(s, FirstsAfter(Initial(), map[], options, events), options, q, id, now);
  }

  /** A create that succeeds leaves its request in the first-come table, under the id it answered. */
  lemma CreateEnters(s: State, first: Firsts, options: Options, q: Request, id: string, now: int)
    requires Matches(s, first) && ColonKeys.ColonFree(q.environmentId)
    requires Enabled(s, Event(CreateOp(q, id), now)) && Create(s, options, q, id, now).Ok?
    ensures var first' := NextFirsts(first, s, options, Event(CreateOp(q, id), now));
            AskedOf(q) in first' && first'[AskedOf(q)] == (PrintOf(q), Create(s, options, q, id, now).value.1.id)
  {
    hide Matches, ValidRequest, HasRoom, PrintOf, Create;
    CreateRefines(s, first, options, q, id, now);
  }

  /** A request found in the first-come table is answered from it, and changes nothing. */
  lemma EntryAnswers(s: State, first: Firsts, options: Options, q: Request, id: string, now: int)
    requires Matches(s, first) && ColonKeys.ColonFree(q.environmentId) && Permitted(options, RequestKind(q))
    requires ValidRequest(q)
    requires AskedOf(q) in first
    ensures var r := Create(s, options, q, id, now);
            if first[AskedOf(q)].0 == PrintOf(q) then r.Ok? && r.value.0 == s && r.value.1.id == first[AskedOf(q)].1
            else r == Err(Conflict)
  {
    hide Matches, ValidRequest, HasRoom, PrintOf, Stored;
    TakenScope(s, first, AskedOf(q));
  }

  lemma OkMeansPermitted(s: State, options: Options, q: Request, id: string, now: int)
    requires Create(s, options, q, id, now).Ok?
    ensures Permitted(options, RequestKind(q))
    ensures Create(s, options, q, id, now).value.0 == Next(s, options, Event(CreateOp(q, id), now))
  {
  }

  /** Main result: once a request was given an id, every later valid request for the same kind, environment and key is
      given that id again if its fingerprint is the same and is refused otherwise, and changes nothing. */
  lemma FirstRequestWins(options: Options, events: seq<Event>, s: State, q: Request, id: string, now: int,
                         later: seq<Event>, t: State, q': Request, id': string, now': int)
    requires Reaches(Initial(), options, events, s) && ColonFreeEnvironments(events)
    requires Enabled(s, Event(CreateOp(q, id), now)) && ColonKeys.ColonFree(q.environmentId)
    requires Create(s, options, q, id, now).Ok?
    requires Reaches(Create(s, options, q, id, now).value.0, options, later, t) && ColonFreeEnvironments(later)
    requires AskedOf(q') == AskedOf(q) && ValidRequest(q')
    ensures var r := Create(t, options, q', id', now');
            if PrintOf(q') == PrintOf(q)
            then r.Ok? && r.value.0 == t && r.value.1.id == Create(s, options, q, id, now).value.1.id
            else r == Err(Conflict)
  {
    hide TablesOk, WithinQuota, AllEvolve, Matches, ValidRequest, HasRoom, PrintOf, Create, Next, Enabled, NextFirsts,
         ColonFreeEnvironments, ColonKeys.ColonFree;
    InitialOk(options);
    InitialMatches();
    TablesRun(Initial(), options, events, s);
    MatchesRun(Initial(), map[], options, events, s);
    var first := FirstsAfter(Initial(), map[], options, events);
    var e := Event(CreateOp(q, id), now);
    var first' := NextFirsts(first, s, options, e);
    OkMeansPermitted(s, options, q, id, now);
    CreateEnters(s, first, options, q, id, now);
    MatchesStep(s, first, options, e);
    TablesStep(s, options, e);
    MatchesRun(Next(s, options, e), first', options, later, t);
    EntryAnswers(t, FirstsAfter(Next(s, options, e), first', options, later), options, q', id', now');
  }

  /** Without that restriction the claim fails: environment "a:b" with key "c" is answered with the job that
      environment "a" created under key "b:c". */
  lemma ColonInEnvironmentCrossesOver(id: string, id': string)
    requires id != "" && id' != "" && id' != id
    ensures var options := Options(true, true, true, None, None);
            var mine := IngressRequest("a", "room", "b:c", "rtmp", None);
            var theirs := IngressRequest("a:b", "room", "c", "rtmp", None);
            Create(Initial(), options, mine, id, 0).Ok? &&
            (var s := Create(Initial(), options, mine, id, 0).value.0;
             && Create(s, options, theirs, id', 1).Ok?
             && Create(s, options, theirs, id', 1).value.1.environmentId == "a")
  {
    var mine := IngressRequest("a", "room", "b:c", "rtmp", None);
    var theirs := IngressRequest("a:b", "room", "c", "rtmp", None);
    assert RequestScope(mine) == "ingress:a:b:c" == RequestScope(theirs);
    assert HasRoom(Initial(), Options(true, true, true, None, None), IngressKind);
  }

  /* ----- snapshots ----- */

  lemma ListsMatch(table: JsMap.Map<string, Resource>, kind: Kind)
    requires TableOk(kind, table.vals)
    ensures ById(JsMap.Values(table)) == JsMap.Entries(table) && GoodList(JsMap.Values(table))
  {
    forall i | 0 <= i < |table.keys|
      ensures JsMap.Values(table)[i].id == table.keys[i] != ""
      ensures ResourceOk(kind, table.keys[i], JsMap.Values(table)[i])
    {
      assert table.keys[i] in table.keys;
    }
    assert ById(JsMap.Values(table)) == JsMap.Entries(table);
    JsMap.EntriesRoundTrip(table);
  }

  /** Main result: the snapshot of every reachable state is accepted and restores to exactly that state. */
  lemma SnapshotRestores(options: Options, events: seq<Event>, s: State)
    requires Reaches(Initial(), options, events, s)
    ensures Acceptable(SnapshotOf(s)) && Restored(SnapshotOf(s)) == s
  {
    InitialOk(options);
    TablesRun(Initial(), options, events, s);
    assert TableOk(CallKind, Table(s, CallKind).vals) && TableOk(IngressKind, Table(s, IngressKind).vals)
           && TableOk(EgressKind, Table(s, EgressKind).vals);
    ListsMatch(s.calls, CallKind);
    ListsMatch(s.ingress, IngressKind);
    ListsMatch(s.egress, EgressKind);
    forall i | 0 <= i < |s.egress.keys|
      ensures EgressAcceptable(JsMap.Values(s.egress)[i])
    {
      assert s.egress.keys[i] in s.egress.keys;
      assert ResourceOk(EgressKind, s.egress.keys[i], s.egress.vals[s.egress.keys[i]]);
    }
    JsMap.EntriesRoundTrip(s.calls);
    JsMap.EntriesRoundTrip(s.ingress);
    JsMap.EntriesRoundTrip(s.egress);
    JsMap.EntriesRoundTrip(s.idempotency);
    JsMap.EntriesRoundTrip(s.fingerprints);
    JsMap.EntriesRoundTrip(s.operationResults);
  }

  /** And the other way: a restored control takes the snapshot it was restored from. */
  lemma RestoredTakesSameSnapshot(p: Snapshot)
    requires Acceptable(p)
    ensures SnapshotOf(Restored(p)) == p
  {
    ListOfRestored(p.calls);
    ListOfRestored(p.ingress);
    ListOfRestored(p.egress);
    JsMap.ListRoundTrip(p.idempotency);
    JsMap.ListRoundTrip(p.fingerprints);
    JsMap.ListRoundTrip(p.operationResults);
  }

  lemma ListOfRestored(resources: seq<Resource>)
    requires GoodList(resources)
    ensures JsMap.Values(JsMap.FromEntries(ById(resources))) == resources
  {
    var m := JsMap.FromEntries(ById(resources));
    JsMap.ListRoundTrip(ById(resources));
    forall i | 0 <= i < |resources|
      ensures JsMap.Values(m)[i] == resources[i]
    {
      assert JsMap.Entries(m)[i] == ById(resources)[i];
    }
  }
}
