/** AgentControlPlane: the class whose methods update the maps in place, and the claim loop it runs. */
module AgentPlane {
  import opened Common
  import opened Text
  import opened AgentControl
  import JsMap

  ghost predicate DoneAs(before: State, expected: Result<State, Error>, after: State, r: Result<(), Error>) {
    match expected
    case Ok(s) => after == s && r == Ok(())
    case Err(e) => after == before && r == Err(e)
  }

  /* ----- the order in which claimNextDispatch looks at its candidates ----- */

  /** The filter: queued dispatches of the environment, in insertion order. */
  function Candidates(keys: seq<string>, vals: map<string, Dispatch>, environmentId: string): (r: seq<string>)
    ensures forall k :: k in r <==> k in keys && k in vals && Waits(vals[k], environmentId)
  {
    if keys == [] then []
    else
      var last := |keys| - 1;
      assert forall k :: k in keys <==> k in keys[..last] || k == keys[last];
      Candidates(keys[..last], vals, environmentId) + if keys[last] in vals && Waits(vals[keys[last]], environmentId)
                                                      then [keys[last]] else []
  }

  predicate Sorted(ids: seq<string>, vals: map<string, Dispatch>) {
    && (forall i :: 0 <= i < |ids| ==> ids[i] in vals)
    && (forall i, j :: 0 <= i <= j < |ids| ==> vals[ids[i]].deadline <= vals[ids[j]].deadline)
  }

  function Insert(ids: seq<string>, x: string, vals: map<string, Dispatch>): (r: seq<string>)
    requires Sorted(ids, vals) && x in vals
    ensures Sorted(r, vals)
    ensures forall k :: k in r <==> k in ids || k == x
    ensures forall i :: 0 <= i < |r| ==> r[i] in ids || r[i] == x
  {
    if ids == [] then [x]
    else
      var last := |ids| - 1;
      if vals[ids[last]].deadline <= vals[x].deadline then ids + [x]
      else
        assert forall k :: k in ids <==> k in ids[..last] || k == ids[last];
        Insert(ids[..last], x, vals) + [ids[last]]
  }

  /** The stable sort by deadline. */
  function SortByDeadline(ids: seq<string>, vals: map<string, Dispatch>): (r: seq<string>)
    requires forall k :: k in ids ==> k in vals
    ensures Sorted(r, vals)
    ensures forall k :: k in r <==> k in ids
  {
    if ids == [] then []
    else
      var last := |ids| - 1;
      assert forall k :: k in ids <==> k in ids[..last] || k == ids[last];
      Insert(SortByDeadline(ids[..last], vals), ids[last], vals)
  }

  /** The first id in a list whose deadline has not passed. */
  function FirstUnexpired(ids: seq<string>, vals: map<string, Dispatch>, now: int): (r: Option<string>)
    ensures r.Some? ==> r.value in ids && r.value in vals && vals[r.value].deadline > now
  {
    if ids == [] then None
    else
      var last := |ids| - 1;
      var earlier := FirstUnexpired(ids[..last], vals, now);
      if earlier.Some? then earlier
      else if ids[last] in vals && vals[ids[last]].deadline > now then Some(ids[last]) else None
  }

  lemma LastIsLatest(ids: seq<string>, vals: map<string, Dispatch>, k: string)
    requires Sorted(ids, vals) && k in ids
    ensures ids[|ids| - 1] in vals && k in vals && vals[k].deadline <= vals[ids[|ids| - 1]].deadline
  {
    var i :| 0 <= i < |ids| && ids[i] == k;
    assert vals[ids[i]].deadline <= vals[ids[|ids| - 1]].deadline;
  }

  lemma FirstOfAppended(ids: seq<string>, x: string, vals: map<string, Dispatch>, now: int)
    ensures FirstUnexpired(ids + [x], vals, now) ==
            var f := FirstUnexpired(ids, vals, now);
            if f.Some? then f else if x in vals && vals[x].deadline > now then Some(x) else None
  {
    assert (ids + [x])[..|ids|] == ids;
  }

  lemma {:induction false} FirstOfInserted(ids: seq<string>, x: string, vals: map<string, Dispatch>, now: int)
    requires Sorted(ids, vals) && x in vals
    ensures FirstUnexpired(Insert(ids, x, vals), vals, now) ==
            var f := FirstUnexpired(ids, vals, now);
            if vals[x].deadline <= now then f
            else if f.Some? && vals[f.value].deadline <= vals[x].deadline then f else Some(x)
  {
    var f := FirstUnexpired(ids, vals, now);
    if ids == [] {
      FirstOfAppended([], x, vals, now);
    } else {
      var last := |ids| - 1;
      if f.Some? {
        LastIsLatest(ids, vals, f.value);
      }
      if vals[ids[last]].deadline <= vals[x].deadline {
        FirstOfAppended(ids, x, vals, now);
      } else {
        FirstOfInserted(ids[..last], x, vals, now);
        FirstOfAppended(Insert(ids[..last], x, vals), ids[last], vals, now);
      }
    }
  }

  /** Looking for the first unexpired candidate in sorted order finds the best dispatch. */
  lemma {:induction false} SortedSearchFindsBest(
      keys: seq<string>, vals: map<string, Dispatch>, environmentId: string, now: int)
    ensures FirstUnexpired(SortByDeadline(Candidates(keys, vals, environmentId), vals), vals, now) ==
              Best(keys, vals, environmentId, now)
  {
    if keys != [] {
      var last := |keys| - 1;
      SortedSearchFindsBest(keys[..last], vals, environmentId, now);
      var rest := Candidates(keys[..last], vals, environmentId);
      if keys[last] in vals && Waits(vals[keys[last]], environmentId) {
        assert (rest + [keys[last]])[..|rest|] == rest;
        FirstOfInserted(SortByDeadline(rest, vals), keys[last], vals, now);
      } else {
        assert rest + [] == rest;
      }
    }
  }

  lemma {:induction false} NoneUnexpired(ids: seq<string>, vals: map<string, Dispatch>, now: int)
    requires forall i :: 0 <= i < |ids| ==> ids[i] in vals && vals[ids[i]].deadline <= now
    ensures FirstUnexpired(ids, vals, now) == None
  {
    if ids != [] {
      NoneUnexpired(ids[..|ids| - 1], vals, now);
    }
  }

  lemma {:induction false} UnexpiredAt(ids: seq<string>, vals: map<string, Dispatch>, now: int, i: nat)
    requires i < |ids| && ids[i] in vals && vals[ids[i]].deadline > now
    requires forall j :: 0 <= j < i ==> ids[j] in vals && vals[ids[j]].deadline <= now
    ensures FirstUnexpired(ids, vals, now) == Some(ids[i])
  {
    var last := |ids| - 1;
    if i == last {
      NoneUnexpired(ids[..last], vals, now);
    } else {
      UnexpiredAt(ids[..last], vals, now, i);
    }
  }

  /** `now` has the sweep of the loop so far: the dispatches in `failed` are failed and nothing else is changed. */
  ghost predicate Swept(before: JsMap.Map<string, Dispatch>, failed: seq<string>, after: JsMap.Map<string, Dispatch>) {
    && after.keys == before.keys && after.vals.Keys == before.vals.Keys
    && forall k :: k in before.vals ==> after.vals[k] == if k in failed then before.vals[k].(status := Failed)
                                                         else before.vals[k]
  }

  lemma SweptIsExpired(
      before: JsMap.Map<string, Dispatch>, failed: seq<string>, after: JsMap.Map<string, Dispatch>,
      environmentId: string, now: int)
    requires Swept(before, failed, after)
    requires forall k :: k in before.vals ==> (k in failed <==>
                                                 Waits(before.vals[k], environmentId) && before.vals[k].deadline <= now)
    ensures after == Expired(before, environmentId, now)
  {
    assert after.vals == Expired(before, environmentId, now).vals;
  }

  function OpenAmong(keys: seq<string>, vals: map<string, Dispatch>, deploymentId: string): set<string> {
    set id | id in keys && id in vals && IsOpen(vals[id], deploymentId)
  }

  lemma OneMoreOpen(dispatches: JsMap.Map<string, Dispatch>, i: nat, deploymentId: string)
    requires i < |dispatches.keys|
    ensures dispatches.keys[i] in dispatches.vals
    ensures |OpenAmong(dispatches.keys[..i + 1], dispatches.vals, deploymentId)| ==
            |OpenAmong(dispatches.keys[..i], dispatches.vals, deploymentId)|
            + if IsOpen(dispatches.vals[dispatches.keys[i]], deploymentId) then 1 else 0
  {
    var id := dispatches.keys[i];
    assert id in dispatches.keys;
    JsMap.DistinctAt(dispatches.keys, i);
    assert dispatches.keys[..i + 1] == dispatches.keys[..i] + [id];
    var before := OpenAmong(dispatches.keys[..i], dispatches.vals, deploymentId);
    var after := OpenAmong(dispatches.keys[..i + 1], dispatches.vals, deploymentId);
    assert after == if IsOpen(dispatches.vals[id], deploymentId) then before + {id} else before;
  }

  lemma ExpiredComeFirst(ids: seq<string>, vals: map<string, Dispatch>, now: int, i: nat, k: string)
    requires Sorted(ids, vals) && i < |ids| && vals[ids[i]].deadline > now
    requires forall j :: 0 <= j < i ==> vals[ids[j]].deadline <= now
    ensures k in ids[..i] <==> k in ids && vals[k].deadline <= now
  {
    if k in ids && vals[k].deadline <= now {
      var j :| 0 <= j < |ids| && ids[j] == k;
      assert j < i;
      assert ids[..i][j] == k;
    }
  }

  lemma SweptNothing(before: JsMap.Map<string, Dispatch>)
    ensures Swept(before, [], before)
  {
  }

  lemma SweptOneMore(before: JsMap.Map<string, Dispatch>, ids: seq<string>, i: nat, after: JsMap.Map<string, Dispatch>)
    requires i < |ids| && ids[i] in before.vals && Swept(before, ids[..i], after)
    ensures ids[i] in after.vals && after.vals[ids[i]].deadline == before.vals[ids[i]].deadline
    ensures Swept(before, ids[..i + 1], JsMap.Set(after, ids[i], after.vals[ids[i]].(status := Failed)))
  {
    assert ids[..i + 1] == ids[..i] + [ids[i]];
  }

  lemma SweptAll(
      before: JsMap.Map<string, Dispatch>, ids: seq<string>, after: JsMap.Map<string, Dispatch>, environmentId: string,
      now: int)
    requires forall k :: k in ids <==> k in before.vals && Waits(before.vals[k], environmentId)
    requires forall j :: 0 <= j < |ids| ==> before.vals[ids[j]].deadline <= now
    requires Swept(before, ids, after)
    ensures after == Expired(before, environmentId, now)
  {
    SweptIsExpired(before, ids, after, environmentId, now);
  }

  /** When the loop meets the first candidate that is not expired, it has failed exactly the expired ones. */
  lemma SweptUpTo(
      before: JsMap.Map<string, Dispatch>, ids: seq<string>, i: nat, after: JsMap.Map<string, Dispatch>,
      environmentId: string, now: int)
    requires Sorted(ids, before.vals) && i < |ids| && before.vals[ids[i]].deadline > now
    requires forall k :: k in ids <==> k in before.vals && Waits(before.vals[k], environmentId)
    requires forall j :: 0 <= j < i ==> before.vals[ids[j]].deadline <= now
    requires Swept(before, ids[..i], after)
    ensures after == Expired(before, environmentId, now)
  {
    forall k | k in before.vals
      ensures k in ids[..i] <==> Waits(before.vals[k], environmentId) && before.vals[k].deadline <= now
    {
      ExpiredComeFirst(ids, before.vals, now, i, k);
    }
    SweptIsExpired(before, ids[..i], after, environmentId, now);
  }

  /** The loop over workers so far: the workers in `done` have let the dispatch go. */
  ghost predicate ReleasedAmong(
      before: JsMap.Map<string, Worker>, done: seq<string>, after: JsMap.Map<string, Worker>, id: string, now: int) {
    && after.keys == before.keys && after.vals.Keys == before.vals.Keys
    && forall k :: k in before.vals ==> after.vals[k] == if k in done then Released(before, id, now).vals[k]
                                                         else before.vals[k]
  }

  lemma ReleasedNone(before: JsMap.Map<string, Worker>, id: string, now: int)
    ensures ReleasedAmong(before, before.keys[..0], before, id, now)
  {
  }

  lemma ReleasedOneMore(
      before: JsMap.Map<string, Worker>, i: nat, after: JsMap.Map<string, Worker>, id: string, now: int)
    requires i < |before.keys| && ReleasedAmong(before, before.keys[..i], after, id, now)
    ensures after.keys == before.keys && after.keys[i] in after.vals
    ensures var key := after.keys[i];
            var w := after.vals[key];
            ReleasedAmong(before, before.keys[..i + 1],
                          if id in w.active
                          then JsMap.Set(after, key, w.(active := JsMap.Without(w.active, id), lastHeartbeatAt := now))
                          else after, id, now)
  {
    var key := before.keys[i];
    assert key in before.keys;
    JsMap.DistinctAt(before.keys, i);
    assert before.keys[..i + 1] == before.keys[..i] + [key];
  }

  lemma ReleasedEvery(before: JsMap.Map<string, Worker>, after: JsMap.Map<string, Worker>, id: string, now: int)
    requires ReleasedAmong(before, before.keys[..|before.keys|], after, id, now)
    ensures after == Released(before, id, now)
  {
    assert before.keys[..|before.keys|] == before.keys;
    assert after.vals == Released(before, id, now).vals;
  }

  class AgentControlPlane {
    var artifacts: set<string>
    var deployments: JsMap.Map<string, Deployment>
    var rules: JsMap.Map<string, Rule>
    var dispatches: JsMap.Map<string, Dispatch>
    var workers: JsMap.Map<string, Worker>

    ghost function View(): State
      reads this
    {
      State(artifacts, deployments, rules, dispatches, workers)
    }

    constructor ()
      ensures View() == Initial()
    {
      artifacts, deployments, rules := {}, JsMap.Empty(), JsMap.Empty();
      dispatches, workers := JsMap.Empty(), JsMap.Empty();
    }

    method RegisterRule(rule: Rule) returns (r: Result<(), Error>)
      modifies this
      ensures DoneAs(old(View()), AgentControl.RegisterRule(old(View()), rule), View(), r)
    {
      if !Checked(rule.environmentId, 256) || !Checked(rule.artifactId, 256) {
        return Err(Conflict);
      }
      if rule.artifactId !in artifacts {
        return Err(NotFound);
      }
      if rule.maxConcurrent < 1 || rule.maxConcurrent > 1000 {
        return Err(QuotaExceeded);
      }
      if rule.timeoutMs < 100 || rule.timeoutMs > 86400000 || !IsTrigger(rule.trigger) {
        return Err(Conflict);
      }
      rules := JsMap.Set(rules, rule.id, rule);
      r := Ok(());
    }

    method CreateDispatch(
        environmentId: string, deploymentId: string, room: string, deadline: Option<int>, id: string, now: int)
        returns (r: Result<(), Error>)
      modifies this
      ensures DoneAs(old(View()), NewDispatch(old(View()), environmentId, deploymentId, room, deadline, id, now),
                     View(), r)
    {
      if deploymentId !in deployments.vals {
        return Err(NotFound);
      }
      if !Checked(environmentId, 256) || !Checked(room, 256) {
        return Err(Conflict);
      }
      var d := deployments.vals[deploymentId];
      if d.environmentId != environmentId || d.status == DeploymentFailed || d.status == RolledBack {
        return Err(PolicyDenied);
      }
      if deadline.None? || deadline.value <= now {
        return Err(Conflict);
      }
      dispatches := JsMap.Set(dispatches, id, Dispatch(id, environmentId, deploymentId, room, Queued, deadline.value,
                                                       now));
      r := Ok(());
    }

    /** The count of a deployment's open dispatches taken by triggerDispatch. */
    method CountOpen(deploymentId: string) returns (n: nat)
      ensures n == |OpenIds(dispatches.vals, deploymentId)|
    {
      n := 0;
      for i := 0 to |dispatches.keys|
        invariant n == |OpenAmong(dispatches.keys[..i], dispatches.vals, deploymentId)|
      {
        OneMoreOpen(dispatches, i, deploymentId);
        if IsOpen(dispatches.vals[dispatches.keys[i]], deploymentId) {
          n := n + 1;
        }
      }
      assert dispatches.keys[..|dispatches.keys|] == dispatches.keys;
      assert OpenAmong(dispatches.keys, dispatches.vals, deploymentId) == OpenIds(dispatches.vals, deploymentId);
    }

    method TriggerDispatch(
        environmentId: string, trigger: string, room: string, deadline: Option<Option<int>>, id: string, now: int)
        returns (r: Result<(), Error>)
      modifies this
      ensures DoneAs(old(View()), Trigger(old(View()), environmentId, trigger, room, deadline, id, now), View(), r)
    {
      hide Checked, NewDispatch, FirstRule, FirstDeployment, OpenIds;
      if !Checked(environmentId, 256) || !Checked(room, 256) {
        return Err(Conflict);
      }
      var ruleId := FirstRule(rules.keys, rules.vals, environmentId, trigger);
      if ruleId.None? {
        return Err(NotFound);
      }
      var rule := rules.vals[ruleId.value];
      var deploymentId := FirstDeployment(deployments.keys, deployments.vals, environmentId, rule.artifactId);
      if deploymentId.None? {
        return Err(PolicyDenied);
      }
      var active := CountOpen(deploymentId.value);
      if active >= rule.maxConcurrent {
        return Err(QuotaExceeded);
      }
      r := CreateDispatch(environmentId, deploymentId.value, room,
                          if deadline.Some? then deadline.value else Some(now + rule.timeoutMs), id, now);
    }

    method RegisterWorker(id: string, environmentId: string, validRuntime: bool, capabilities: seq<string>, now: int)
        returns (r: Result<(), Error>)
      modifies this
      ensures DoneAs(old(View()),
                     AgentControl.RegisterWorker(old(View()), id, environmentId, validRuntime, capabilities, now),
                     View(), r)
    {
      if !Checked(id, 256) || !Checked(environmentId, 256) || !validRuntime {
        return Err(Conflict);
      }
      if |capabilities| > 64 || exists i :: 0 <= i < |capabilities| && !Checked(capabilities[i], 128) {
        return Err(Conflict);
      }
      if id in workers.vals && workers.vals[id].environmentId != environmentId {
        return Err(PolicyDenied);
      }
      var held := if id in workers.vals then workers.vals[id].active else [];
      workers := JsMap.Set(workers, id, Worker(id, environmentId, Ready, held, now));
      r := Ok(());
    }

    method AllReportable(environmentId: string, ids: seq<string>) returns (ok: bool)
      ensures ok <==> forall id :: id in ids ==> Reportable(View(), environmentId, id)
    {
      for i := 0 to |ids|
        invariant forall id :: id in ids[..i] ==> Reportable(View(), environmentId, id)
      {
        var id := ids[i];
        assert id in ids && ids[..i + 1] == ids[..i] + [id];
        if id !in dispatches.vals || dispatches.vals[id].environmentId != environmentId
           || !Active(dispatches.vals[id].status) {
          return false;
        }
      }
      assert ids[..|ids|] == ids;
      ok := true;
    }

    method HeartbeatWorker(workerId: string, ids: seq<string>, now: int) returns (r: Result<(), Error>)
      modifies this
      ensures DoneAs(old(View()), Heartbeat(old(View()), workerId, ids, now), View(), r)
    {
      hide Checked, ValidReport, Reportable;
      if !Checked(workerId, 256) || !ValidReport(ids) {
        return Err(Conflict);
      }
      if workerId !in workers.vals {
        return Err(NotFound);
      }
      var w := workers.vals[workerId];
      var reported := JsMap.Unique(ids);
      var ok := AllReportable(w.environmentId, reported);
      if !ok {
        return Err(PolicyDenied);
      }
      workers := JsMap.Set(workers, workerId, w.(status := Ready, active := reported, lastHeartbeatAt := now));
      r := Ok(());
    }

    method StartDispatch(workerId: string, id: string, now: int) returns (r: Result<(), Error>)
      modifies this
      ensures DoneAs(old(View()), Start(old(View()), workerId, id, now), View(), r)
    {
      if workerId !in workers.vals {
        return Err(NotFound);
      }
      var w := workers.vals[workerId];
      if w.status != Ready {
        return Err(PolicyDenied);
      }
      if id !in dispatches.vals {
        return Err(NotFound);
      }
      var d := dispatches.vals[id];
      if d.status != Queued {
        return Err(Conflict);
      }
      if d.environmentId != w.environmentId {
        return Err(PolicyDenied);
      }
      if d.deadline <= now {
        return Err(Conflict);
      }
      dispatches := JsMap.Set(dispatches, id, d.(status := Running));
      workers := JsMap.Set(workers, workerId, w.(active := With(w.active, id), lastHeartbeatAt := now));
      r := Ok(());
    }

    method FinishDispatch(workerId: string, id: string, status: DispatchStatus, now: int) returns (r: Result<(), Error>)
      modifies this
      ensures DoneAs(old(View()), Finish(old(View()), workerId, id, status, now), View(), r)
    {
      if workerId !in workers.vals || id !in dispatches.vals {
        return Err(NotFound);
      }
      var w, d := workers.vals[workerId], dispatches.vals[id];
      if !Active(d.status) {
        return Err(Conflict);
      }
      if d.environmentId != w.environmentId || id !in w.active {
        return Err(PolicyDenied);
      }
      dispatches := JsMap.Set(dispatches, id, d.(status := status));
      workers := JsMap.Set(workers, workerId, w.(active := JsMap.Without(w.active, id), lastHeartbeatAt := now));
      r := Ok(());
    }

    /** The loop of cancelDispatch over all workers. */
    method ReleaseEverywhere(id: string, now: int)
      modifies this`workers
      ensures workers == Released(old(workers), id, now)
    {
      hide ReleasedAmong, Released;
      ghost var before := workers;
      var keys := workers.keys;
      ReleasedNone(before, id, now);
      for i := 0 to |keys|
        invariant ReleasedAmong(before, before.keys[..i], workers, id, now)
      {
        ReleasedOneMore(before, i, workers, id, now);
        var key := keys[i];
        var w := workers.vals[key];
        if id in w.active {
          workers := JsMap.Set(workers, key, w.(active := JsMap.Without(w.active, id), lastHeartbeatAt := now));
        }
      }
      ReleasedEvery(before, workers, id, now);
    }

    method CancelDispatch(id: string, workerId: Option<string>, now: int) returns (r: Result<(), Error>)
      modifies this
      ensures DoneAs(old(View()), Cancel(old(View()), id, workerId, now), View(), r)
    {
      if id !in dispatches.vals {
        return Err(NotFound);
      }
      var d := dispatches.vals[id];
      if Terminal(d.status) {
        return Err(Conflict);
      }
      if workerId.Some? {
        if workerId.value !in workers.vals {
          return Err(NotFound);
        }
        var w := workers.vals[workerId.value];
        if w.environmentId != d.environmentId || id !in w.active {
          return Err(PolicyDenied);
        }
      }
      dispatches := JsMap.Set(dispatches, id, d.(status := Cancelled));
      ReleaseEverywhere(id, now);
      r := Ok(());
    }

    /** The loop of claimNextDispatch: candidates by deadline, failing expired ones until one is left to start. */
    method SweepAndPick(environmentId: string, now: int) returns (picked: Option<string>)
      modifies this`dispatches
      ensures dispatches == Expired(old(dispatches), environmentId, now)
      ensures picked == Best(old(dispatches).keys, old(dispatches).vals, environmentId, now)
    {
      hide Expired, Best, Candidates, SortByDeadline, FirstUnexpired, Sorted, Swept;
      ghost var before := dispatches;
      var candidates := SortByDeadline(Candidates(dispatches.keys, dispatches.vals, environmentId), dispatches.vals);
      SortedSearchFindsBest(before.keys, before.vals, environmentId, now);
      assert forall k :: k in candidates <==> k in before.vals && Waits(before.vals[k], environmentId);
      SweptNothing(before);
      var i := 0;
      while i < |candidates|
        invariant i <= |candidates| && Swept(before, candidates[..i], dispatches)
        invariant forall j :: 0 <= j < i ==> before.vals[candidates[j]].deadline <= now
      {
        var id := candidates[i];
        assert id in candidates;
        SweptOneMore(before, candidates, i, dispatches);
        if dispatches.vals[id].deadline > now {
          UnexpiredAt(candidates, before.vals, now, i);
          SweptUpTo(before, candidates, i, dispatches, environmentId, now);
          return Some(id);
        }
        dispatches := JsMap.Set(dispatches, id, dispatches.vals[id].(status := Failed));
        i := i + 1;
      }
      assert candidates[..i] == candidates;
      NoneUnexpired(candidates, before.vals, now);
      SweptAll(before, candidates, dispatches, environmentId, now);
      picked := None;
    }

    method ClaimNextDispatch(workerId: string, now: int) returns (r: Result<Option<string>, Error>)
      modifies this
      ensures match Claim(old(View()), workerId, now)
              case Ok(pair) => View() == pair.0 && r == Ok(pair.1)
              case Err(e) => View() == old(View()) && r == Err(e)
    {
      if workerId !in workers.vals {
        return Err(NotFound);
      }
      var w := workers.vals[workerId];
      if w.status != Ready {
        return Err(PolicyDenied);
      }
      var picked := SweepAndPick(w.environmentId, now);
      if picked.Some? {
        var started := StartDispatch(workerId, picked.value, now);
        assert started.Ok?;
      }
      r := Ok(picked);
    }
  }

}
