/** MediaOpsControl: the class whose methods update the six maps in place. */
module MediaControl {
  import opened Common
  import opened Text
  import opened MediaOps
  import JsMap

  /** What a method does when the operation on values comes out as `expected`. */
  ghost predicate DoneAs(
      before: State, expected: Result<(State, Resource), Error>, after: State, r: Result<Resource, Error>) {
    match expected
    case Ok(pair) => after == pair.0 && r == Ok(pair.1)
    case Err(e) => after == before && r == Err(e)
  }

  lemma PutTwice(s: State, kind: Kind, id: string, a: Resource, b: Resource)
    ensures Put(Put(s, kind, id, a), kind, id, b) == Put(s, kind, id, b)
  {
    assert Table(s, kind).vals[id := a][id := b] == Table(s, kind).vals[id := b];
  }

  function ActiveAmong(keys: seq<string>, vals: map<string, Resource>): set<string> {
    set id | id in keys && id in vals && CountsAsActive(vals[id].status)
  }

  lemma OneMoreActive(table: JsMap.Map<string, Resource>, i: nat)
    requires i < |table.keys|
    ensures table.keys[i] in table.vals
    ensures |ActiveAmong(table.keys[..i + 1], table.vals)| ==
            |ActiveAmong(table.keys[..i], table.vals)| + if CountsAsActive(table.vals[table.keys[i]].status) then 1
                                                         else 0
  {
    var id := table.keys[i];
    assert id in table.keys;
    JsMap.DistinctAt(table.keys, i);
    assert table.keys[..i + 1] == table.keys[..i] + [id];
    var before, after := ActiveAmong(table.keys[..i], table.vals), ActiveAmong(table.keys[..i + 1], table.vals);
    assert after == if CountsAsActive(table.vals[id].status) then before + {id} else before;
  }

  class MediaOpsControl {
    const options: Options
    var calls: JsMap.Map<string, Resource>
    var ingress: JsMap.Map<string, Resource>
    var egress: JsMap.Map<string, Resource>
    var idempotency: JsMap.Map<string, Resource>
    var fingerprints: JsMap.Map<string, Fingerprint>
    var operationResults: JsMap.Map<string, Resource>

    ghost function View(): State
      reads this
    {
      State(calls, ingress, egress, idempotency, fingerprints, operationResults)
    }

    constructor (options: Options)
      ensures this.options == options && View() == Initial()
    {
      this.options := options;
      calls, ingress, egress := JsMap.Empty(), JsMap.Empty(), JsMap.Empty();
      idempotency, fingerprints, operationResults := JsMap.Empty(), JsMap.Empty(), JsMap.Empty();
    }

    method TableOf(kind: Kind) returns (table: JsMap.Map<string, Resource>)
      ensures table == Table(View(), kind)
    {
      match kind
      case CallKind => table := calls;
      case IngressKind => table := ingress;
      case EgressKind => table := egress;
    }

    method SetIn(kind: Kind, id: string, r: Resource)
      modifies this
      ensures View() == Put(old(View()), kind, id, r)
    {
      match kind
      case CallKind => calls := JsMap.Set(calls, id, r);
      case IngressKind => ingress := JsMap.Set(ingress, id, r);
      case EgressKind => egress := JsMap.Set(egress, id, r);
    }

    /** The count taken by enforceActiveLimit. */
    method CountActive(table: JsMap.Map<string, Resource>) returns (active: nat)
      ensures active == |ActiveIds(table.vals)|
    {
      active := 0;
      for i := 0 to |table.keys|
        invariant active == |ActiveAmong(table.keys[..i], table.vals)|
      {
        OneMoreActive(table, i);
        if CountsAsActive(table.vals[table.keys[i]].status) {
          active := active + 1;
        }
      }
      assert table.keys[..|table.keys|] == table.keys;
      assert ActiveAmong(table.keys, table.vals) == ActiveIds(table.vals);
    }

    method EnforceActiveLimit(kind: Kind) returns (room: bool)
      ensures room == HasRoom(View(), options, kind)
    {
      var limit := Limit(options, kind);
      room := true;
      if limit.Some? {
        var table := TableOf(kind);
        var active := CountActive(table);
        room := active < limit.value;
      }
    }

    method Store(kind: Kind, resource: Resource, scope: string, mark: Fingerprint)
      modifies this
      ensures View() == Stored(old(View()), kind, resource, scope, mark)
    {
      SetIn(kind, resource.id, resource);
      idempotency := JsMap.Set(idempotency, scope, resource);
      fingerprints := JsMap.Set(fingerprints, scope, mark);
    }

    method Create(q: Request, id: string, now: int) returns (r: Result<Resource, Error>)
      modifies this
      ensures DoneAs(old(View()), Apply(old(View()), options, CreateOp(q, id), now), View(), r)
    {
      var kind := RequestKind(q);
      if !Permitted(options, kind) {
        return Err(PolicyDisabled);
      }
      if !ValidRequest(q) {
        return Err(Conflict);
      }
      var scope := RequestScope(q);
      var cached := JsMap.Get(idempotency, scope);
      if cached.Some? {
        if JsMap.Get(fingerprints, scope) != Some(PrintOf(q)) {
          return Err(Conflict);
        }
        return Ok(cached.value);
      }
      var room := EnforceActiveLimit(kind);
      if !room {
        return Err(QuotaExceeded);
      }
      var resource := NewResource(q, id, now);
      Store(kind, resource, scope, PrintOf(q));
      r := Ok(resource);
    }

    method Lookup(kind: Kind, id: string) returns (r: Result<Resource, Error>)
      ensures r == Find(View(), kind, id)
    {
      var table := TableOf(kind);
      r := if id in table.vals then Ok(table.vals[id]) else Err(NotFound);
    }

    method Transition(kind: Kind, id: string, to: Status, now: int) returns (r: Result<Resource, Error>)
      modifies this
      ensures var current := Find(old(View()), kind, id);
              if current.Err? then r == current && View() == old(View())
              else r == Moved(current.value, to, now)
                   && View() == if r.Ok? then Put(old(View()), kind, id, r.value) else old(View())
    {
      var current := Lookup(kind, id);
      if current.Err? {
        return current;
      }
      if !CanMove(current.value.status, to) {
        return Err(Conflict);
      }
      var updated := current.value.(status := to, updatedAt := now);
      SetIn(kind, id, updated);
      r := Ok(updated);
    }

    method Activate(
        kind: Kind, id: string, providerId: string, objectUri: Option<string>, retentionExpiresAt: Option<DateText>,
        now: int)
        returns (r: Result<Resource, Error>)
      modifies this
      ensures var op := ActivateOp(kind, id, providerId, objectUri, retentionExpiresAt);
              DoneAs(old(View()), Apply(old(View()), options, op, now), View(), r)
    {
      if !Checked(providerId, 128) || !OptionalText(objectUri, 2048)
         || (retentionExpiresAt.Some? && !ValidDate(retentionExpiresAt.value)) {
        return Err(Conflict);
      }
      var current := Lookup(kind, id);
      if current.Err? {
        return current;
      }
      if current.value.status != Requested {
        return Err(Conflict);
      }
      var update := Update(Starting, Some(providerId), objectUri, retentionExpiresAt);
      var starting := Enriched(current.value, update).(status := Starting, updatedAt := now);
      var active := starting.(status := Active, updatedAt := now);
      SetIn(kind, id, active);
      r := Ok(active);
    }

    method Fail(kind: Kind, id: string, now: int) returns (r: Result<Resource, Error>)
      modifies this
      ensures DoneAs(old(View()), Apply(old(View()), options, FailOp(kind, id), now), View(), r)
    {
      r := Transition(kind, id, Failed, now);
    }

    method CompleteSipCall(id: string, now: int) returns (r: Result<Resource, Error>)
      modifies this
      ensures DoneAs(old(View()), Apply(old(View()), options, CompleteOp(id), now), View(), r)
    {
      r := Lookup(CallKind, id);
      if r.Err? || r.value.status == Completed {
        return;
      }
      r := Transition(CallKind, id, Completed, now);
    }

    method SetSipParticipantIdentity(id: string, participantIdentity: string, now: int)
        returns (r: Result<Resource, Error>)
      modifies this
      ensures DoneAs(old(View()), Apply(old(View()), options, ParticipantOp(id, participantIdentity), now), View(), r)
    {
      if !Checked(participantIdentity, 128) {
        return Err(Conflict);
      }
      var current := Lookup(CallKind, id);
      if current.Err? {
        return current;
      }
      var updated := Identified(current.value, participantIdentity, now);
      SetIn(CallKind, id, updated);
      r := Ok(updated);
    }

    method ApplyProviderStatus(kind: Kind, id: string, u: Update, now: int) returns (r: Result<Resource, Error>)
      modifies this
      ensures DoneAs(old(View()), Apply(old(View()), options, ReportOp(kind, id, u), now), View(), r)
    {
      hide JsMap.OrderedMap.Valid, JsMap.Distinct, ValidUpdate;
      if !ValidUpdate(u) {
        return Err(Conflict);
      }
      var current := Lookup(kind, id);
      if current.Err? {
        return current;
      }
      if (u.status == Starting || u.status == Active) && u.providerId.None? && current.value.providerId.None? {
        return Err(Conflict);
      }
      var transitioned := current;
      if current.value.status != u.status {
        transitioned := Transition(kind, id, u.status, now);
        if transitioned.Err? {
          return transitioned;
        }
      }
      var enriched := Enriched(transitioned.value, u);
      PutTwice(old(View()), kind, id, transitioned.value, enriched);
      SetIn(kind, id, enriched);
      r := Ok(enriched);
    }

    method MarkEgressDeleted(id: string, evidence: string, now: int) returns (r: Result<Resource, Error>)
      modifies this
      ensures DoneAs(old(View()), Apply(old(View()), options, DeleteOp(id, evidence), now), View(), r)
    {
      if !Checked(evidence, 128) {
        return Err(Conflict);
      }
      var current := Lookup(EgressKind, id);
      if current.Err? {
        return current;
      }
      var d := current.value.detail;
      if !d.EgressDetail? || d.objectUri.None? {
        return Err(Conflict);
      }
      if d.deletedAt.Some? {
        return current;
      }
      if !Terminal(current.value.status) {
        return Err(Conflict);
      }
      var updated := current.value.(updatedAt := now,
                                    detail := d.(deletedAt := Some(Iso(now)), deletionEvidenceUri := Some(evidence)));
      SetIn(EgressKind, id, updated);
      r := Ok(updated);
    }

    method SaveOperationResult(
        operation: string, environmentId: string, id: string, key: string, result: Resource, now: int)
        returns (r: Result<Resource, Error>)
      modifies this
      ensures DoneAs(old(View()), Apply(old(View()), options, SaveResultOp(operation, environmentId, id, key, result),
                                        now), View(), r)
    {
      if !Checked(environmentId, 128) || !Checked(id, 128) || !Checked(key, 128) {
        return Err(Conflict);
      }
      operationResults := JsMap.Set(operationResults, OperationKey(operation, environmentId, id, key), result);
      r := Ok(result);
    }

    method ListExpiredEgress(now: int) returns (ids: seq<string>)
      ensures ids == ExpiredIds(egress.keys, egress.vals, now)
    {
      ids := [];
      for i := 0 to |egress.keys|
        invariant ids == ExpiredIds(egress.keys[..i], egress.vals, now)
      {
        var id := egress.keys[i];
        assert id in egress.keys && egress.keys[..i + 1][..i] == egress.keys[..i];
        if Expired(egress.vals[id], now) {
          ids := ids + [id];
        }
      }
      assert egress.keys[..|egress.keys|] == egress.keys;
    }

    /** readEntries: a list read into a map, refused on a repeated key. */
    static method ReadEntries<V>(entries: seq<(string, V)>) returns (m: Option<JsMap.Map<string, V>>)
      ensures m.Some? <==> JsMap.DistinctKeys(entries)
      ensures m.Some? ==> m.value == JsMap.FromEntries(entries)
    {
      var result: JsMap.Map<string, V> := JsMap.Empty();
      for i := 0 to |entries|
        invariant JsMap.DistinctKeys(entries[..i]) && result == JsMap.FromEntries(entries[..i])
      {
        JsMap.ReadOneMore(entries, i);
        if entries[i].0 in result.vals {
          if JsMap.DistinctKeys(entries) {
            JsMap.DistinctPrefix(entries, i + 1);
          }
          return None;
        }
        result := JsMap.Set(result, entries[i].0, entries[i].1);
      }
      assert entries[..|entries|] == entries;
      m := Some(result);
    }

    static method NoEmptyId(resources: seq<Resource>) returns (ok: bool)
      ensures ok <==> forall i :: 0 <= i < |resources| ==> resources[i].id != ""
    {
      for i := 0 to |resources|
        invariant forall k :: 0 <= k < i ==> resources[k].id != ""
      {
        if resources[i].id == "" {
          return false;
        }
      }
      ok := true;
    }

    /** readMap: resources read by id, refused on an empty or repeated id. */
    static method ReadList(resources: seq<Resource>) returns (m: Option<JsMap.Map<string, Resource>>)
      ensures m.Some? <==> GoodList(resources)
      ensures m.Some? ==> m.value == JsMap.FromEntries(ById(resources))
    {
      var ok := NoEmptyId(resources);
      if !ok {
        return None;
      }
      m := ReadEntries(ById(resources));
    }

    static method CheckDeletions(jobs: seq<Resource>) returns (ok: bool)
      ensures ok <==> forall i :: 0 <= i < |jobs| ==> EgressAcceptable(jobs[i])
    {
      for i := 0 to |jobs|
        invariant forall k :: 0 <= k < i ==> EgressAcceptable(jobs[k])
      {
        if !EgressAcceptable(jobs[i]) {
          return false;
        }
      }
      ok := true;
    }

    method TakeSnapshot() returns (p: Snapshot)
      ensures p == SnapshotOf(View())
    {
      p := Snapshot(JsMap.Values(calls), JsMap.Values(ingress), JsMap.Values(egress),
                    JsMap.Entries(idempotency), JsMap.Entries(fingerprints), JsMap.Entries(operationResults));
    }

    /** All validation comes before the first clear, so a refused snapshot changes nothing. */
    method Restore(p: Snapshot) returns (accepted: bool)
      modifies this
      ensures accepted <==> Acceptable(p)
      ensures accepted ==> View() == Restored(p)
      ensures !accepted ==> View() == old(View())
    {
      hide JsMap.FromEntries, JsMap.DistinctKeys, GoodList, EgressAcceptable, ById;
      var newCalls := ReadList(p.calls);
      var newIngress := ReadList(p.ingress);
      var newEgress := ReadList(p.egress);
      if newCalls.None? || newIngress.None? || newEgress.None? {
        return false;
      }
      var deletionsOk := CheckDeletions(p.egress);
      if !deletionsOk {
        return false;
      }
      var newIdempotency := ReadEntries(p.idempotency);
      var newFingerprints := ReadEntries(p.fingerprints);
      var newResults := ReadEntries(p.operationResults);
      if newIdempotency.None? || newFingerprints.None? || newResults.None? {
        return false;
      }
      calls, ingress, egress := newCalls.value, newIngress.value, newEgress.value;
      idempotency, fingerprints, operationResults := newIdempotency.value, newFingerprints.value, newResults.value;
      accepted := true;
    }
  }
}
