/**
 The agent control plane (controller.ts): deployments, dispatch rules, workers and the dispatches they claim.
 The state is a value and every operation a function on it; AgentPlane.dfy holds the class that updates its maps in
 place and AgentProofs.dfy what holds in every run.  A method reads the clock once.
 */
module AgentControl {
  import opened Common
  import opened Text
  import JsMap

  datatype Error = NotFound | Conflict | QuotaExceeded | PolicyDenied

  datatype DispatchStatus = Queued | Starting | Running | Draining | Completed | Failed | Cancelled

  predicate Terminal(s: DispatchStatus) {
    s.Completed? || s.Failed? || s.Cancelled?
  }

  predicate Active(s: DispatchStatus) {
    s.Starting? || s.Running? || s.Draining?
  }

  /** `deadline` is the time Date.parse gives for deadlineAt. */
  datatype Dispatch = Dispatch(
    id: string, environmentId: string, deploymentId: string, roomName: string, status: DispatchStatus, deadline: int,
    createdAt: int)

  datatype WorkerStatus = Ready | WorkerDraining | Offline

  datatype Worker = Worker(
      id: string, environmentId: string, status: WorkerStatus, active: seq<string>, lastHeartbeatAt: int)

  datatype DeploymentStatus = Draft | Canary | Live | DeploymentDraining | DeploymentFailed | RolledBack

  datatype Deployment = Deployment(
    id: string, environmentId: string, artifactId: string, desiredReplicas: int, observedReplicas: int, generation: int,
    status: DeploymentStatus)

  datatype Rule = Rule(
      id: string, environmentId: string, trigger: string, artifactId: string, maxConcurrent: int, timeoutMs: int,
      enabled: bool)

  datatype State = State(
    artifacts: set<string>,
    deployments: JsMap.Map<string, Deployment>,
    rules: JsMap.Map<string, Rule>,
    dispatches: JsMap.Map<string, Dispatch>,
    workers: JsMap.Map<string, Worker>)

  function Initial(): State {
    State({}, JsMap.Empty(), JsMap.Empty(), JsMap.Empty(), JsMap.Empty())
  }

  function PutDispatch(s: State, d: Dispatch): State {
    s.(dispatches := JsMap.Set(s.dispatches, d.id, d))
  }

  function PutWorker(s: State, w: Worker): State {
    s.(workers := JsMap.Set(s.workers, w.id, w))
  }

  /* ----- deployments and rules ----- */

  function Deploy(s: State, environmentId: string, artifactId: string, replicas: int, canaryPercent: int, id: string)
    : Result<State, Error>
  {
    if !Checked(environmentId, 256) then Err(Conflict)
    else if artifactId !in s.artifacts then Err(NotFound)
    else if replicas < 1 || replicas > 100 then Err(QuotaExceeded)
    else if canaryPercent < 0 || canaryPercent > 100 then Err(PolicyDenied)
    else Ok(s.(deployments := JsMap.Set(s.deployments, id,
                 Deployment(id, environmentId, artifactId, replicas, 0, 1,
                            if canaryPercent == 100 then Live else Canary))))
  }

  function Reconcile(s: State, id: string, observed: int): Result<State, Error> {
    if id !in s.deployments.vals then Err(NotFound)
    else if observed < 0 || observed > 100 then Err(QuotaExceeded)
    else
      var d := s.deployments.vals[id];
      Ok(s.(deployments := JsMap.Set(s.deployments, id,
              d.(observedReplicas := observed, status := if observed == d.desiredReplicas then Live else d.status))))
  }

  function Rollback(s: State, id: string): Result<State, Error> {
    if id !in s.deployments.vals then Err(NotFound)
    else
      var d := s.deployments.vals[id];
      Ok(s.(deployments := JsMap.Set(s.deployments, id, d.(status := RolledBack, generation := d.generation + 1))))
  }

  predicate IsTrigger(t: string) {
    t == "room_joined" || t == "track_published" || t == "data_received" || t == "scheduled"
  }

  function RegisterRule(s: State, rule: Rule): Result<State, Error> {
    if !Checked(rule.environmentId, 256) || !Checked(rule.artifactId, 256) then Err(Conflict)
    else if rule.artifactId !in s.artifacts then Err(NotFound)
    else if rule.maxConcurrent < 1 || rule.maxConcurrent > 1000 then Err(QuotaExceeded)
    else if rule.timeoutMs < 100 || rule.timeoutMs > 86400000 then Err(Conflict)
    else if !IsTrigger(rule.trigger) then Err(Conflict)
    else Ok(s.(rules := JsMap.Set(s.rules, rule.id, rule)))
  }

  /* ----- dispatching ----- */

  /** `deadline` is None when the text does not parse as a date. */
  function NewDispatch(
      s: State, environmentId: string, deploymentId: string, room: string, deadline: Option<int>, id: string, now: int)
    : Result<State, Error>
  {
    if deploymentId !in s.deployments.vals then Err(NotFound)
    else if !Checked(environmentId, 256) || !Checked(room, 256) then Err(Conflict)
    else
      var d := s.deployments.vals[deploymentId];
      if d.environmentId != environmentId || d.status.DeploymentFailed? || d.status.RolledBack? then Err(PolicyDenied)
      else if deadline.None? || deadline.value <= now then Err(Conflict)
      else Ok(PutDispatch(s, Dispatch(id, environmentId, deploymentId, room, Queued, deadline.value, now)))
  }

  predicate RuleMatches(r: Rule, environmentId: string, trigger: string) {
    r.environmentId == environmentId && r.trigger == trigger && r.enabled
  }

  /** The first key, in order, whose value matches. */
  function FirstRule(
      keys: seq<string>, vals: map<string, Rule>, environmentId: string, trigger: string): (r: Option<string>)
    ensures r.Some? ==> r.value in vals && RuleMatches(vals[r.value], environmentId, trigger)
  {
    if keys == [] then None
    else
      var last := |keys| - 1;
      var earlier := FirstRule(keys[..last], vals, environmentId, trigger);
      if earlier.Some? then earlier
      else if keys[last] in vals && RuleMatches(vals[keys[last]], environmentId, trigger) then Some(keys[last])
      else None
  }

  predicate DeploymentMatches(d: Deployment, environmentId: string, artifactId: string) {
    d.environmentId == environmentId && d.artifactId == artifactId && (d.status.Canary? || d.status.Live?)
  }

  function FirstDeployment(
      keys: seq<string>, vals: map<string, Deployment>, environmentId: string, artifactId: string): (r: Option<string>)
    ensures r.Some? ==> r.value in vals && DeploymentMatches(vals[r.value], environmentId, artifactId)
  {
    if keys == [] then None
    else
      var last := |keys| - 1;
      var earlier := FirstDeployment(keys[..last], vals, environmentId, artifactId);
      if earlier.Some? then earlier
      else if keys[last] in vals && DeploymentMatches(vals[keys[last]], environmentId, artifactId) then Some(keys[last])
      else None
  }

  predicate IsOpen(d: Dispatch, deploymentId: string) {
    d.deploymentId == deploymentId && !Terminal(d.status)
  }

  /** The dispatches of a deployment that are not terminal. */
  function OpenIds(dispatches: map<string, Dispatch>, deploymentId: string): set<string> {
    set id | id in dispatches && IsOpen(dispatches[id], deploymentId)
  }

  /** `deadline` is None for the rule's own timeout, Some(None) for a text that does not parse. */
  function Trigger(
      s: State, environmentId: string, trigger: string, room: string, deadline: Option<Option<int>>, id: string,
      now: int): Result<State, Error> {
    if !Checked(environmentId, 256) || !Checked(room, 256) then Err(Conflict)
    else
      var ruleId := FirstRule(s.rules.keys, s.rules.vals, environmentId, trigger);
      if ruleId.None? then Err(NotFound)
      else
        var rule := s.rules.vals[ruleId.value];
        var deploymentId := FirstDeployment(s.deployments.keys, s.deployments.vals, environmentId, rule.artifactId);
        if deploymentId.None? then Err(PolicyDenied)
        else if |OpenIds(s.dispatches.vals, deploymentId.value)| >= rule.maxConcurrent then Err(QuotaExceeded)
        else NewDispatch(s, environmentId, deploymentId.value, room,
                         if deadline.Some? then deadline.value else Some(now + rule.timeoutMs), id, now)
  }

  /* ----- workers ----- */

  function RegisterWorker(
      s: State, id: string, environmentId: string, validRuntime: bool, capabilities: seq<string>, now: int)
    : Result<State, Error>
  {
    if !Checked(id, 256) || !Checked(environmentId, 256) || !validRuntime then Err(Conflict)
    else if |capabilities| > 64 || exists i :: 0 <= i < |capabilities| && !Checked(capabilities[i], 128)
    then Err(Conflict)
    else if id in s.workers.vals && s.workers.vals[id].environmentId != environmentId then Err(PolicyDenied)
    else Ok(PutWorker(s, Worker(id, environmentId, Ready,
                                if id in s.workers.vals then s.workers.vals[id].active else [], now)))
  }

  predicate ReportableId(id: string) {
    0 < |id| <= 256 && ControlFree(id)
  }

  predicate ValidReport(ids: seq<string>) {
    |ids| <= 100 && forall i :: 0 <= i < |ids| ==> ReportableId(ids[i])
  }

  /** What a heartbeat may report: a started, unfinished dispatch of the worker's environment. */
  predicate Reportable(s: State, environmentId: string, id: string) {
    id in s.dispatches.vals && s.dispatches.vals[id].environmentId == environmentId
    && Active(s.dispatches.vals[id].status)
  }

  function Heartbeat(s: State, workerId: string, ids: seq<string>, now: int): Result<State, Error> {
    if !Checked(workerId, 256) then Err(Conflict)
    else if !ValidReport(ids) then Err(Conflict)
    else if workerId !in s.workers.vals then Err(NotFound)
    else
      var w := s.workers.vals[workerId];
      if exists id :: id in ids && !Reportable(s, w.environmentId, id) then Err(PolicyDenied)
      else Ok(s.(workers := JsMap.Set(s.workers, workerId,
                                      w.(status := Ready, active := JsMap.Unique(ids), lastHeartbeatAt := now))))
  }

  function With(ids: seq<string>, id: string): seq<string> {
    if id in ids then ids else ids + [id]
  }

  /** The effect of a start: the dispatch runs and its worker holds it. */
  function Started(s: State, workerId: string, id: string, now: int): State
    requires workerId in s.workers.vals && id in s.dispatches.vals
  {
    var w := s.workers.vals[workerId];
    s.(dispatches := JsMap.Set(s.dispatches, id, s.dispatches.vals[id].(status := Running)),
       workers := JsMap.Set(s.workers, workerId, w.(active := With(w.active, id), lastHeartbeatAt := now)))
  }

  function Start(s: State, workerId: string, id: string, now: int): Result<State, Error> {
    if workerId !in s.workers.vals then Err(NotFound)
    else if !s.workers.vals[workerId].status.Ready? then Err(PolicyDenied)
    else if id !in s.dispatches.vals then Err(NotFound)
    else
      var d := s.dispatches.vals[id];
      if !d.status.Queued? then Err(Conflict)
      else if d.environmentId != s.workers.vals[workerId].environmentId then Err(PolicyDenied)
      else if d.deadline <= now then Err(Conflict)
      else Ok(Started(s, workerId, id, now))
  }

  /** completeDispatch and failDispatch */
  function Finish(s: State, workerId: string, id: string, status: DispatchStatus, now: int): Result<State, Error> {
    if workerId !in s.workers.vals then Err(NotFound)
    else if id !in s.dispatches.vals then Err(NotFound)
    else
      var w, d := s.workers.vals[workerId], s.dispatches.vals[id];
      if !Active(d.status) then Err(Conflict)
      else if d.environmentId != w.environmentId || id !in w.active then Err(PolicyDenied)
      else Ok(s.(dispatches := JsMap.Set(s.dispatches, id, d.(status := status)),
                 workers := JsMap.Set(s.workers, workerId,
                                      w.(active := JsMap.Without(w.active, id), lastHeartbeatAt := now))))
  }

  /** Every worker that holds `id` lets it go. */
  function Released(workers: JsMap.Map<string, Worker>, id: string, now: int): (r: JsMap.Map<string, Worker>)
    ensures r.keys == workers.keys && r.vals.Keys == workers.vals.Keys
  {
    JsMap.OrderedMap(workers.keys, map k | k in workers.vals ::
      var w := workers.vals[k]; if id in w.active then w.(active := JsMap.Without(w.active, id), lastHeartbeatAt := now)
                                else w)
  }

  function Cancel(s: State, id: string, workerId: Option<string>, now: int): Result<State, Error> {
    if id !in s.dispatches.vals then Err(NotFound)
    else
      var d := s.dispatches.vals[id];
      if Terminal(d.status) then Err(Conflict)
      else if workerId.Some? && workerId.value !in s.workers.vals then Err(NotFound)
      else if workerId.Some? && (s.workers.vals[workerId.value].environmentId != d.environmentId
                                 || id !in s.workers.vals[workerId.value].active) then Err(PolicyDenied)
      else Ok(s.(dispatches := JsMap.Set(s.dispatches, id, d.(status := Cancelled)),
                 workers := Released(s.workers, id, now)))
  }

  /* ----- claiming ----- */

  predicate Waits(d: Dispatch, environmentId: string) {
    d.environmentId == environmentId && d.status.Queued?
  }

  /** The queued dispatches of the environment whose deadline has passed, failed. */
  function Expired(
      dispatches: JsMap.Map<string, Dispatch>, environmentId: string, now: int): (r: JsMap.Map<string, Dispatch>)
    ensures r.keys == dispatches.keys && r.vals.Keys == dispatches.vals.Keys
  {
    JsMap.OrderedMap(dispatches.keys, map k | k in dispatches.vals ::
      var d := dispatches.vals[k]; if Waits(d, environmentId) && d.deadline <= now then d.(status := Failed) else d)
  }

  predicate Claimable(vals: map<string, Dispatch>, k: string, environmentId: string, now: int) {
    k in vals && Waits(vals[k], environmentId) && vals[k].deadline > now
  }

  /** The claimable dispatch with the smallest deadline, the earliest inserted among equals. */
  function Best(keys: seq<string>, vals: map<string, Dispatch>, environmentId: string, now: int): (r: Option<string>)
    ensures r.Some? ==> r.value in keys && Claimable(vals, r.value, environmentId, now)
  {
    if keys == [] then None
    else
      var last := |keys| - 1;
      var best := Best(keys[..last], vals, environmentId, now);
      if !Claimable(vals, keys[last], environmentId, now) then best
      else if best.Some? && vals[best.value].deadline <= vals[keys[last]].deadline then best
      else Some(keys[last])
  }

  /** claimNextDispatch: the state after it, and the dispatch it hands out. */
  function Claim(s: State, workerId: string, now: int): Result<(State, Option<string>), Error> {
    if workerId !in s.workers.vals then Err(NotFound)
    else if !s.workers.vals[workerId].status.Ready? then Err(PolicyDenied)
    else
      var environmentId := s.workers.vals[workerId].environmentId;
      var swept := s.(dispatches := Expired(s.dispatches, environmentId, now));
      var best := Best(s.dispatches.keys, s.dispatches.vals, environmentId, now);
      if best.None? then Ok((swept, None)) else Ok((Started(swept, workerId, best.value, now), best))
  }
}
