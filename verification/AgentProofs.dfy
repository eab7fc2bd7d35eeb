/** What claiming means, and what every run of the agent control plane keeps. */
module AgentProofs {
  import opened Common
  import opened Text
  import opened AgentControl
  import JsMap

  /* ----- claimNextDispatch against its declarative description ----- */

  ghost predicate Precedes(keys: seq<string>, a: string, b: string) {
    exists i, j :: 0 <= i <= j < |keys| && keys[i] == a && keys[j] == b
  }

  /** No claimable dispatch has an earlier deadline, and none with the same deadline was inserted earlier. */
  ghost predicate IsBest(keys: seq<string>, vals: map<string, Dispatch>, environmentId: string, now: int, id: string) {
    && id in keys && Claimable(vals, id, environmentId, now)
    && forall k :: k in keys && Claimable(vals, k, environmentId, now) ==>
         vals[id].deadline < vals[k].deadline || (vals[id].deadline == vals[k].deadline && Precedes(keys, id, k))
  }

  lemma PrecedesLast(keys: seq<string>, a: string)
    requires keys != [] && a in keys
    ensures Precedes(keys, a, keys[|keys| - 1])
  {
    var i :| 0 <= i < |keys| && keys[i] == a;
  }

  lemma PrecedesExtends(keys: seq<string>, n: nat, a: string, b: string)
    requires n <= |keys| && Precedes(keys[..n], a, b)
    ensures Precedes(keys, a, b)
  {
    var i, j :| 0 <= i <= j < n && keys[..n][i] == a && keys[..n][j] == b;
    assert keys[i] == a && keys[j] == b;
  }

  lemma {:induction false} BestIsLeast(keys: seq<string>, vals: map<string, Dispatch>, environmentId: string, now: int)
    ensures var best := Best(keys, vals, environmentId, now);
            && (best.Some? ==> IsBest(keys, vals, environmentId, now, best.value))
            && (best.None? ==> forall k :: k in keys ==> !Claimable(vals, k, environmentId, now))
  {
    if keys != [] {
      var last := |keys| - 1;
      BestIsLeast(keys[..last], vals, environmentId, now);
      var earlier := Best(keys[..last], vals, environmentId, now);
      var best := Best(keys, vals, environmentId, now);
      forall k | best.Some? && k in keys && Claimable(vals, k, environmentId, now)
        ensures vals[best.value].deadline < vals[k].deadline
             || (vals[best.value].deadline == vals[k].deadline && Precedes(keys, best.value, k))
      {
        if k == keys[last] {
          PrecedesLast(keys, best.value);
        } else {
          assert k in keys[..last];
          if best == earlier && Precedes(keys[..last], best.value, k) {
            PrecedesExtends(keys, last, best.value, k);
          }
        }
      }
    }
  }

  lemma PrecedesBothWays(keys: seq<string>, a: string, b: string)
    requires JsMap.Distinct(keys) && Precedes(keys, a, b) && Precedes(keys, b, a)
    ensures a == b
  {
    var i, j :| 0 <= i <= j < |keys| && keys[i] == a && keys[j] == b;
    var k, l :| 0 <= k <= l < |keys| && keys[k] == b && keys[l] == a;
  }

  /** The description fixes the dispatch: the claim hands out an id exactly when that id is best, and none exactly when
      nothing is claimable. */
  lemma BestIff(dispatches: JsMap.Map<string, Dispatch>, environmentId: string, now: int, id: string)
    ensures Best(dispatches.keys, dispatches.vals, environmentId, now) == Some(id)
       <==> IsBest(dispatches.keys, dispatches.vals, environmentId, now, id)
    ensures Best(dispatches.keys, dispatches.vals, environmentId, now) == None
       <==> forall k :: k in dispatches.vals ==> !Claimable(dispatches.vals, k, environmentId, now)
  {
    var keys, vals := dispatches.keys, dispatches.vals;
    BestIsLeast(keys, vals, environmentId, now);
    var best := Best(keys, vals, environmentId, now);
    if IsBest(keys, vals, environmentId, now, id) && best.Some? && best.value != id {
      if Precedes(keys, id, best.value) && Precedes(keys, best.value, id) {
        PrecedesBothWays(keys, id, best.value);
      }
    }
  }

  /** Main result.  A claim fails exactly the queued dispatches of the worker's environment whose deadline has passed,
      starts exactly the best of the others for this worker, and changes no other dispatch and no other worker. */
  lemma ClaimMeetsDescription(s: State, workerId: string, now: int)
    requires workerId in s.workers.vals && s.workers.vals[workerId].status.Ready?
    ensures Claim(s, workerId, now).Ok?
    ensures var environmentId := s.workers.vals[workerId].environmentId;
            var (t, picked) := Claim(s, workerId, now).value;
            && t.dispatches.keys == s.dispatches.keys && t.dispatches.vals.Keys == s.dispatches.vals.Keys
            && (forall k :: k in s.dispatches.vals ==>
                  t.dispatches.vals[k] ==
                    if picked == Some(k) then s.dispatches.vals[k].(status := Running)
                    else if Waits(s.dispatches.vals[k], environmentId) && s.dispatches.vals[k].deadline <= now
                    then s.dispatches.vals[k].(status := Failed)
                    else s.dispatches.vals[k])
            && (picked.Some? ==> IsBest(s.dispatches.keys, s.dispatches.vals, environmentId, now, picked.value))
            && (picked.None? <==> forall k :: k in s.dispatches.vals ==>
                  !Claimable(s.dispatches.vals, k, environmentId, now))
    ensures var (t, picked) := Claim(s, workerId, now).value;
            && t.workers.keys == s.workers.keys
            && (forall w :: w in s.workers.vals ==>
                  && w in t.workers.vals
                  && t.workers.vals[w].active ==
                     (if w == workerId && picked.Some? then With(s.workers.vals[w].active, picked.value)
                      else s.workers.vals[w].active))
            && t.rules == s.rules && t.deployments == s.deployments && t.artifacts == s.artifacts
  {
    var environmentId := s.workers.vals[workerId].environmentId;
    var best := Best(s.dispatches.keys, s.dispatches.vals, environmentId, now);
    BestIff(s.dispatches, environmentId, now, if best.Some? then best.value else "");
  }

  /* ----- runs ----- */

  datatype Op =
    | AddArtifact(artifactId: string)
    | AddDeployment(environmentId: string, artifactId: string, replicas: int, canaryPercent: int, id: string)
    | Observe(id: string, observed: int)
    | RollBack(id: string)
    | AddRule(rule: Rule)
    | AddDispatch(environmentId: string, deploymentId: string, room: string, deadline: Option<int>, id: string)
    | TriggerRule(environmentId: string, trigger: string, room: string, due: Option<Option<int>>, id: string)
    | AddWorker(id: string, environmentId: string, validRuntime: bool, capabilities: seq<string>)
    | Beat(workerId: string, ids: seq<string>)
    | StartOne(workerId: string, id: string)
    | FinishOne(workerId: string, id: string, completed: bool)
    | CancelOne(id: string, holder: Option<string>)
    | ClaimOne(workerId: string)

  datatype Event = Event(op: Op, now: int)

  function Apply(s: State, e: Event): Result<State, Error> {
    match e.op
    case AddArtifact(a) => Ok(s.(artifacts := s.artifacts + {a}))
    case AddDeployment(env, artifact, replicas, canary, id) => Deploy(s, env, artifact, replicas, canary, id)
    case Observe(id, observed) => Reconcile(s, id, observed)
    case RollBack(id) => Rollback(s, id)
    case AddRule(rule) => RegisterRule(s, rule)
    case AddDispatch(env, deployment, room, deadline, id) => NewDispatch(s, env, deployment, room, deadline, id, e.now)
    case TriggerRule(env, trigger, room, due, id) => Trigger(s, env, trigger, room, due, id, e.now)
    case AddWorker(id, env, ok, capabilities) => RegisterWorker(s, id, env, ok, capabilities, e.now)
    case Beat(w, ids) => Heartbeat(s, w, ids, e.now)
    case StartOne(w, id) => Start(s, w, id, e.now)
    case FinishOne(w, id, completed) => Finish(s, w, id, if completed then Completed else Failed, e.now)
    case CancelOne(id, holder) => Cancel(s, id, holder, e.now)
    case ClaimOne(w) => (match Claim(s, w, e.now) case Ok(pair) => Ok(pair.0) case Err(error) => Err(error))
  }

  /** Ids made by randomUUID are new. */
  predicate Enabled(s: State, e: Event) {
    match e.op
    case AddDeployment(_, _, _, _, id) => id !in s.deployments.vals
    case AddRule(rule) => rule.id !in s.rules.vals
    case AddDispatch(_, _, _, _, id) => id !in s.dispatches.vals
    case TriggerRule(_, _, _, _, id) => id !in s.dispatches.vals
    case _ => true
  }

  function Next(s: State, e: Event): State {
    var r := Apply(s, e);
    if r.Ok? then r.value else s
  }

  ghost predicate Reaches(s: State, events: seq<Event>, t: State)
    decreases |events|
  {
    if events == [] then s == t else Enabled(s, events[0]) && Reaches(Next(s, events[0]), events[1..], t)
  }

  /* ----- dispatches only move forward ----- */

  function Rank(s: DispatchStatus): nat {
    if s.Queued? then 0 else if Terminal(s) then 2 else 1
  }

  predicate Evolves(a: Dispatch, b: Dispatch) {
    && b == a.(status := b.status)
    && Rank(a.status) <= Rank(b.status) && (Terminal(a.status) ==> b.status == a.status)
  }

  /** Dispatches are never removed, never go back to the queue, and end for good. */
  ghost predicate AllEvolve(s: State, t: State) {
    forall k {:trigger Evolves(s.dispatches.vals[k], t.dispatches.vals[k])} {:trigger k in t.dispatches.vals} ::
      k in s.dispatches.vals ==> k in t.dispatches.vals && Evolves(s.dispatches.vals[k], t.dispatches.vals[k])
  }

  /** Nothing in the code sets starting or draining, so a dispatch waits, runs or has ended. */
  predicate Definite(d: Dispatch) {
    d.status.Queued? || d.status.Running? || Terminal(d.status)
  }

  /** What worker w holds: each id once, naming a dispatch of w's environment that has left the queue. */
  ghost predicate HoldsOk(s: State, w: Worker) {
    && JsMap.Distinct(w.active)
    && forall id :: id in w.active ==>
         id in s.dispatches.vals && s.dispatches.vals[id].environmentId == w.environmentId
         && !s.dispatches.vals[id].status.Queued?
  }

  ghost predicate Inv(s: State) {
    && (forall k :: k in s.dispatches.vals ==> Definite(s.dispatches.vals[k]))
    && (forall k :: k in s.workers.vals ==> HoldsOk(s, s.workers.vals[k]))
  }

  lemma {:induction false} HoldsOkEvolves(s: State, t: State, w: Worker)
    requires AllEvolve(s, t) && HoldsOk(s, w)
    ensures HoldsOk(t, w)
  {
    forall id | id in w.active
      ensures id in t.dispatches.vals && t.dispatches.vals[id].environmentId == w.environmentId
      ensures !t.dispatches.vals[id].status.Queued?
    {
      assert Evolves(s.dispatches.vals[id], t.dispatches.vals[id]);
    }
  }

  /** How a step changed the workers: each keeps what it held or holds what HoldsOk allows. */
  lemma InvFrom(s: State, t: State)
    requires Inv(s) && AllEvolve(s, t)
    requires forall k :: k in t.dispatches.vals ==> Definite(t.dispatches.vals[k])
    requires forall k :: k in t.workers.vals ==>
               (k in s.workers.vals && t.workers.vals[k] == s.workers.vals[k]) || HoldsOk(t, t.workers.vals[k])
    ensures Inv(t)
  {
    forall k | k in t.workers.vals
      ensures HoldsOk(t, t.workers.vals[k])
    {
      if k in s.workers.vals && t.workers.vals[k] == s.workers.vals[k] {
        HoldsOkEvolves(s, t, s.workers.vals[k]);
      }
    }
  }

  /** The operations that leave dispatches and workers alone. */
  predicate Elsewhere(op: Op) {
    op.AddArtifact? || op.AddDeployment? || op.Observe? || op.RollBack? || op.AddRule?
  }

  lemma ElsewhereKeeps(s: State, e: Event)
    requires Elsewhere(e.op)
    ensures Next(s, e).dispatches == s.dispatches && Next(s, e).workers == s.workers
  {
  }

  lemma NewDispatchKeeps(
      s: State, environmentId: string, deploymentId: string, room: string, deadline: Option<int>, id: string, now: int)
    requires Inv(s) && id !in s.dispatches.vals
    requires NewDispatch(s, environmentId, deploymentId, room, deadline, id, now).Ok?
    ensures var t := NewDispatch(s, environmentId, deploymentId, room, deadline, id, now).value;
            Inv(t) && AllEvolve(s, t)
  {
    var t := NewDispatch(s, environmentId, deploymentId, room, deadline, id, now).value;
    assert AllEvolve(s, t);
    InvFrom(s, t);
  }

  lemma WithDistinct(ids: seq<string>, id: string)
    requires JsMap.Distinct(ids)
    ensures JsMap.Distinct(With(ids, id)) && forall i :: i in With(ids, id) <==> i in ids || i == id
  {
    assert (ids + [id])[..|ids|] == ids;
  }

  lemma StartedKeeps(s: State, workerId: string, id: string, now: int)
    requires Inv(s) && workerId in s.workers.vals && id in s.dispatches.vals
    requires s.dispatches.vals[id].status.Queued?
    requires s.dispatches.vals[id].environmentId == s.workers.vals[workerId].environmentId
    ensures var t := Started(s, workerId, id, now); Inv(t) && AllEvolve(s, t)
  {
    var t := Started(s, workerId, id, now);
    assert AllEvolve(s, t);
    var w := s.workers.vals[workerId];
    assert HoldsOk(s, w);
    WithDistinct(w.active, id);
    HoldsOkEvolves(s, t, w);
    assert HoldsOk(t, t.workers.vals[workerId]);
    InvFrom(s, t);
  }

  lemma SweptKeeps(s: State, environmentId: string, now: int)
    requires Inv(s)
    ensures var t := s.(dispatches := Expired(s.dispatches, environmentId, now)); Inv(t) && AllEvolve(s, t)
  {
    var t := s.(dispatches := Expired(s.dispatches, environmentId, now));
    assert AllEvolve(s, t);
    InvFrom(s, t);
  }

  lemma AllEvolveTransitive(s: State, t: State, u: State)
    requires AllEvolve(s, t) && AllEvolve(t, u)
    ensures AllEvolve(s, u)
  {
    forall k | k in s.dispatches.vals
      ensures k in u.dispatches.vals && Evolves(s.dispatches.vals[k], u.dispatches.vals[k])
    {
      assert Evolves(s.dispatches.vals[k], t.dispatches.vals[k]);
      assert Evolves(t.dispatches.vals[k], u.dispatches.vals[k]);
    }
  }

  lemma ClaimKeeps(s: State, workerId: string, now: int)
    requires Inv(s) && Claim(s, workerId, now).Ok?
    ensures var t := Claim(s, workerId, now).value.0; Inv(t) && AllEvolve(s, t)
  {
    hide Inv, AllEvolve, Expired, Started;
    var environmentId := s.workers.vals[workerId].environmentId;
    var swept := s.(dispatches := Expired(s.dispatches, environmentId, now));
    SweptKeeps(s, environmentId, now);
    var best := Best(s.dispatches.keys, s.dispatches.vals, environmentId, now);
    if best.Some? {
      BestUnswept(s, environmentId, now, best.value);
      StartedKeeps(swept, workerId, best.value, now);
      AllEvolveTransitive(s, swept, Claim(s, workerId, now).value.0);
    }
  }

  lemma BestUnswept(s: State, environmentId: string, now: int, id: string)
    requires Best(s.dispatches.keys, s.dispatches.vals, environmentId, now) == Some(id)
    ensures var swept := Expired(s.dispatches, environmentId, now);
            id in s.dispatches.vals && id in swept.vals && swept.vals[id] == s.dispatches.vals[id]
            && swept.vals[id].status.Queued? && swept.vals[id].environmentId == environmentId
  {
  }

  lemma FinishKeeps(s: State, workerId: string, id: string, status: DispatchStatus, now: int)
    requires Inv(s) && Terminal(status) && Finish(s, workerId, id, status, now).Ok?
    ensures var t := Finish(s, workerId, id, status, now).value; Inv(t) && AllEvolve(s, t)
  {
    var t := Finish(s, workerId, id, status, now).value;
    assert AllEvolve(s, t);
    var w := s.workers.vals[workerId];
    HoldsOkEvolves(s, t, w);
    assert HoldsOk(t, t.workers.vals[workerId]);
    InvFrom(s, t);
  }

  lemma CancelKeeps(s: State, id: string, holder: Option<string>, now: int)
    requires Inv(s) && Cancel(s, id, holder, now).Ok?
    ensures var t := Cancel(s, id, holder, now).value; Inv(t) && AllEvolve(s, t)
  {
    var t := Cancel(s, id, holder, now).value;
    assert AllEvolve(s, t);
    forall k | k in t.workers.vals
      ensures HoldsOk(t, t.workers.vals[k])
    {
      HoldsOkEvolves(s, t, s.workers.vals[k]);
    }
    InvFrom(s, t);
  }

  lemma HeldBefore(s: State, w: Worker)
    requires Inv(s)
    requires w.active == [] || exists k :: k in s.workers.vals && s.workers.vals[k].active == w.active
                                           && s.workers.vals[k].environmentId == w.environmentId
    ensures HoldsOk(s, w)
  {
  }

  lemma HoldsOkSame(s: State, t: State, w: Worker)
    requires t.dispatches == s.dispatches && HoldsOk(s, w)
    ensures HoldsOk(t, w)
  {
  }

  lemma RegisterKeeps(
      s: State, id: string, environmentId: string, validRuntime: bool, capabilities: seq<string>, now: int)
    requires Inv(s) && RegisterWorker(s, id, environmentId, validRuntime, capabilities, now).Ok?
    ensures var t := RegisterWorker(s, id, environmentId, validRuntime, capabilities, now).value;
            Inv(t) && t.dispatches == s.dispatches
  {
    hide Checked, HoldsOk;
    var t := RegisterWorker(s, id, environmentId, validRuntime, capabilities, now).value;
    HeldBefore(s, t.workers.vals[id]);
    HoldsOkSame(s, t, t.workers.vals[id]);
    SameDispatches(s, t);
    InvFrom(s, t);
  }

  lemma HeartbeatKeeps(s: State, workerId: string, ids: seq<string>, now: int)
    requires Inv(s) && Heartbeat(s, workerId, ids, now).Ok?
    ensures var t := Heartbeat(s, workerId, ids, now).value; Inv(t) && t.dispatches == s.dispatches
  {
    hide Checked, ValidReport;
    var t := Heartbeat(s, workerId, ids, now).value;
    forall id | id in JsMap.Unique(ids)
      ensures Reportable(s, s.workers.vals[workerId].environmentId, id)
    {
    }
    assert HoldsOk(t, t.workers.vals[workerId]);
    SameDispatches(s, t);
    InvFrom(s, t);
  }

  lemma SameDispatches(s: State, t: State)
    requires t.dispatches == s.dispatches
    ensures AllEvolve(s, t)
  {
  }

  lemma WorkersKeep(s: State, e: Event)
    requires Inv(s) && (e.op.AddWorker? || e.op.Beat?)
    ensures Inv(Next(s, e)) && Next(s, e).dispatches == s.dispatches
  {
    hide Inv, RegisterWorker, Heartbeat;
    if Apply(s, e).Ok? {
      match e.op
      case AddWorker(id, env, ok, capabilities) => RegisterKeeps(s, id, env, ok, capabilities, e.now);
      case Beat(w, ids) => HeartbeatKeeps(s, w, ids, e.now);
    }
  }

  lemma SameDispatchesEvolve(s: State, t: State)
    requires t.dispatches == s.dispatches
    ensures AllEvolve(s, t)
    ensures Inv(s) && t.workers == s.workers ==> Inv(t)
  {
    if Inv(s) && t.workers == s.workers {
      assert AllEvolve(s, t);
      InvFrom(s, t);
    }
  }

  lemma InvStep(s: State, e: Event)
    requires Inv(s) && Enabled(s, e)
    ensures Inv(Next(s, e)) && AllEvolve(s, Next(s, e))
  {
    hide Inv, AllEvolve;
    SameDispatchesEvolve(s, s);
    if Apply(s, e).Ok? {
      DispatchStep(s, e);
    }
  }

  lemma DispatchStep(s: State, e: Event)
    requires Inv(s) && Enabled(s, e) && Apply(s, e).Ok?
    ensures Inv(Apply(s, e).value) && AllEvolve(s, Apply(s, e).value)
  {
    hide Inv, AllEvolve, NewDispatch, Trigger, Start, Finish, Cancel, Claim, RegisterWorker, Heartbeat, Deploy,
         Reconcile, Rollback, RegisterRule;
    match e.op
    case AddDispatch(env, deployment, room, deadline, id) =>
      NewDispatchKeeps(s, env, deployment, room, deadline, id, e.now);
    case TriggerRule(env, trigger, room, due, id) =>
      TriggerIsNewDispatch(s, env, trigger, room, due, id, e.now);
    case StartOne(w, id) =>
      StartKeeps(s, w, id, e.now);
    case FinishOne(w, id, completed) =>
      FinishKeeps(s, w, id, if completed then Completed else Failed, e.now);
    case CancelOne(id, holder) =>
      CancelKeeps(s, id, holder, e.now);
    case ClaimOne(w) =>
      ClaimKeeps(s, w, e.now);
    case _ =>
      if Elsewhere(e.op) {
        ElsewhereKeeps(s, e);
      } else {
        WorkersKeep(s, e);
      }
      SameDispatchesEvolve(s, Next(s, e));
  }

  lemma StartKeeps(s: State, workerId: string, id: string, now: int)
    requires Inv(s) && Start(s, workerId, id, now).Ok?
    ensures Inv(Start(s, workerId, id, now).value) && AllEvolve(s, Start(s, workerId, id, now).value)
  {
    hide Inv, AllEvolve, Started;
    StartedKeeps(s, workerId, id, now);
  }

  lemma TriggerIsNewDispatch(
      s: State, environmentId: string, trigger: string, room: string, due: Option<Option<int>>, id: string, now: int)
    requires Inv(s) && id !in s.dispatches.vals && Trigger(s, environmentId, trigger, room, due, id, now).Ok?
    ensures var t := Trigger(s, environmentId, trigger, room, due, id, now).value; Inv(t) && AllEvolve(s, t)
  {
    hide Inv, AllEvolve, Checked, OpenIds, NewDispatch;
    var rule := s.rules.vals[FirstRule(s.rules.keys, s.rules.vals, environmentId, trigger).value];
    var deploymentId := FirstDeployment(s.deployments.keys, s.deployments.vals, environmentId, rule.artifactId).value;
    NewDispatchKeeps(s, environmentId, deploymentId, room, if due.Some? then due.value
                                                           else Some(now + rule.timeoutMs), id, now);
  }

  lemma {:induction false} InvRun(s: State, events: seq<Event>, t: State)
    requires Inv(s) && Reaches(s, events, t)
    ensures Inv(t) && AllEvolve(s, t)
    decreases |events|
  {
    if events != [] {
      InvStep(s, events[0]);
      InvRun(Next(s, events[0]), events[1..], t);
      AllEvolveTransitive(s, Next(s, events[0]), t);
    }
  }

  /** Main result: after any run a worker's list names each id once, and only dispatches of its own environment that
      have left the queue. */
  lemma ListsNameStartedDispatches(events: seq<Event>, t: State, w: string)
    requires Reaches(Initial(), events, t) && w in t.workers.vals
    ensures JsMap.Distinct(t.workers.vals[w].active)
    ensures forall id :: id in t.workers.vals[w].active ==>
              id in t.dispatches.vals && t.dispatches.vals[id].environmentId == t.workers.vals[w].environmentId
              && !t.dispatches.vals[id].status.Queued?
  {
    InvRun(Initial(), events, t);
    assert HoldsOk(t, t.workers.vals[w]);
  }

  /** The dispatch a step starts, by startDispatch or by a claim. */
  predicate Starts(s: State, e: Event, id: string) {
    || (e.op.StartOne? && e.op.id == id && Apply(s, e).Ok?)
    || (e.op.ClaimOne? && Claim(s, e.op.workerId, e.now).Ok? && Claim(s, e.op.workerId, e.now).value.1 == Some(id))
  }

  /** Main result: a dispatch is started at most once in a run, and a dispatch that has ended stays as it ended. */
  lemma StartedAtMostOnce(events: seq<Event>, s: State, e: Event, later: seq<Event>, t: State, e': Event, id: string)
    requires Reaches(Initial(), events, s) && Enabled(s, e) && Starts(s, e, id)
    requires Reaches(Next(s, e), later, t)
    ensures !Starts(t, e', id)
  {
    hide Inv, Starts, Next, Enabled;
    InvRun(Initial(), events, s);
    InvStep(s, e);
    InvRun(Next(s, e), later, t);
    StartsFromQueue(s, e, id);
    assert Evolves(Next(s, e).dispatches.vals[id], t.dispatches.vals[id]);
    if Starts(t, e', id) {
      StartsFromQueue(t, e', id);
    }
  }

  lemma ClaimStarts(s: State, workerId: string, now: int, id: string)
    requires Claim(s, workerId, now).Ok? && Claim(s, workerId, now).value.1 == Some(id)
    ensures id in s.dispatches.vals && s.dispatches.vals[id].status.Queued?
    ensures var t := Claim(s, workerId, now).value.0; id in t.dispatches.vals && t.dispatches.vals[id].status.Running?
  {
    hide Expired;
    BestUnswept(s, s.workers.vals[workerId].environmentId, now, id);
  }

  lemma StartsFromQueue(s: State, e: Event, id: string)
    requires Starts(s, e, id)
    ensures id in s.dispatches.vals && s.dispatches.vals[id].status.Queued?
    ensures id in Next(s, e).dispatches.vals && Next(s, e).dispatches.vals[id].status.Running?
  {
    hide Claim;
    if e.op.ClaimOne? {
      ClaimStarts(s, e.op.workerId, e.now, id);
    }
  }

  lemma EndedStaysEnded(events: seq<Event>, s: State, later: seq<Event>, t: State, id: string)
    requires Reaches(Initial(), events, s) && Reaches(s, later, t)
    requires id in s.dispatches.vals && Terminal(s.dispatches.vals[id].status)
    ensures id in t.dispatches.vals && t.dispatches.vals[id] == s.dispatches.vals[id]
  {
    InvRun(Initial(), events, s);
    InvRun(s, later, t);
    assert Evolves(s.dispatches.vals[id], t.dispatches.vals[id]);
  }

  /* ----- who holds a dispatch ----- */

  predicate HeldBy(s: State, w: string, id: string) {
    w in s.workers.vals && id in s.workers.vals[w].active
  }

  /** Each dispatch has at most one holder, and every held dispatch is running. */
  ghost predicate Exclusive(s: State) {
    && (forall a, b, id :: HeldBy(s, a, id) && HeldBy(s, b, id) ==> a == b)
    && (forall a, id :: HeldBy(s, a, id) ==> id in s.dispatches.vals && s.dispatches.vals[id].status.Running?)
  }

  /** What a caller can check before a heartbeat: no reported dispatch is on another worker's list. */
  ghost predicate ReportsOnlyFree(s: State, workerId: string, ids: seq<string>) {
    forall b, id :: id in ids && HeldBy(s, b, id) ==> b == workerId
  }

  /** Main result: from an exclusive state a heartbeat keeps exclusivity exactly when it reports nothing another worker
      holds.  (The code itself only checks environment and status.) */
  lemma HeartbeatExclusiveIff(s: State, workerId: string, ids: seq<string>, now: int)
    requires Inv(s) && Exclusive(s) && Heartbeat(s, workerId, ids, now).Ok?
    ensures Exclusive(Heartbeat(s, workerId, ids, now).value) <==> ReportsOnlyFree(s, workerId, ids)
  {
    hide Checked, ValidReport;
    var t := Heartbeat(s, workerId, ids, now).value;
    assert forall id :: id in ids <==> HeldBy(t, workerId, id);
    assert forall b, id :: b != workerId ==> (HeldBy(t, b, id) <==> HeldBy(s, b, id));
    forall id | id in ids
      ensures s.dispatches.vals[id].status.Running?
    {
      assert Reportable(s, s.workers.vals[workerId].environmentId, id);
    }
    if Exclusive(t) {
      forall b, id | id in ids && HeldBy(s, b, id)
        ensures b == workerId
      {
        assert HeldBy(t, workerId, id);
        assert b != workerId ==> HeldBy(t, b, id);
      }
    }
  }

  /** Without that condition nothing protects a holder: any other registered worker of the environment can report its
      running dispatch, is believed, and both then hold it. */
  lemma AnyWorkerCanReportAHeldDispatch(s: State, a: string, b: string, id: string, now: int)
    requires Inv(s) && Exclusive(s) && HeldBy(s, a, id)
    requires b != a && b in s.workers.vals && s.workers.vals[b].environmentId == s.workers.vals[a].environmentId
    requires Checked(b, 256) && ReportableId(id)
    ensures Heartbeat(s, b, [id], now).Ok?
    ensures var t := Heartbeat(s, b, [id], now).value; HeldBy(t, a, id) && HeldBy(t, b, id)
  {
    hide Checked, ReportableId, Exclusive;
    assert s.dispatches.vals[id].status.Running? by { HeldRuns(s, a, id); }
    assert HoldsOk(s, s.workers.vals[a]);
    assert Reportable(s, s.workers.vals[b].environmentId, id);
    assert ValidReport([id]);
    assert forall i :: i in [id] ==> i == id;
    assert id in [id];
  }

  /** A dispatch is made and started by worker a; worker b belongs to the same environment. */
  function OneHolder(): (r: seq<Event>)
    ensures |r| == 6
  {
    [Event(AddArtifact("x"), 0), Event(AddDeployment("e", "x", 1, 100, "p"), 0),
     Event(AddDispatch("e", "p", "r", Some(10), "d"), 0),
     Event(AddWorker("a", "e", true, []), 0), Event(AddWorker("b", "e", true, []), 0), Event(StartOne("a", "d"), 0)]
  }

  const Home := Deployment("p", "e", "x", 1, 0, 1, Live)

  function Idle(id: string): Worker {
    Worker(id, "e", Ready, [], 0)
  }

  function With1(): State {
    Initial().(artifacts := {"x"})
  }

  function With2(): State {
    With1().(deployments := JsMap.Set(With1().deployments, "p", Home))
  }

  function With3(): State {
    PutDispatch(With2(), Dispatch("d", "e", "p", "r", Queued, 10, 0))
  }

  function With4(): State {
    PutWorker(With3(), Idle("a"))
  }

  function With5(): State {
    PutWorker(With4(), Idle("b"))
  }

  lemma LetterChecked(s: string)
    requires |s| == 1 && 'a' <= s[0] <= 'z'
    ensures Checked(s, 256) && ReportableId(s)
  {
  }

  lemma Deploying()
    ensures Next(Initial(), OneHolder()[0]) == With1() && Enabled(Initial(), OneHolder()[0])
    ensures Next(With1(), OneHolder()[1]) == With2() && Enabled(With1(), OneHolder()[1])
  {
    LetterChecked("e");
    hide Checked, JsMap.OrderedMap.Valid, JsMap.Distinct;
    assert {} + {"x"} == {"x"};
  }

  lemma Queueing()
    ensures Next(With2(), OneHolder()[2]) == With3() && Enabled(With2(), OneHolder()[2])
  {
    LetterChecked("e");
    LetterChecked("r");
    hide Checked, JsMap.OrderedMap.Valid, JsMap.Distinct;
  }

  lemma Registering(s: State, id: string)
    requires id !in s.workers.vals && |id| == 1 && 'a' <= id[0] <= 'z'
    ensures Next(s, Event(AddWorker(id, "e", true, []), 0)) == PutWorker(s, Idle(id))
  {
    LetterChecked(id);
    LetterChecked("e");
    hide Checked, JsMap.OrderedMap.Valid, JsMap.Distinct, PutWorker;
  }

  lemma TwoIdle()
    ensures With5().dispatches.vals == map["d" := Dispatch("d", "e", "p", "r", Queued, 10, 0)]
    ensures With5().workers.vals == map["a" := Idle("a"), "b" := Idle("b")] && "a" != "b"
    ensures With3().workers.vals == map[] && With4().workers.vals.Keys == {"a"}
  {
    hide JsMap.OrderedMap.Valid, JsMap.Distinct;
    assert "a"[0] != "b"[0];
  }

  lemma StartingFrom(s: State)
    requires s.dispatches.vals == map["d" := Dispatch("d", "e", "p", "r", Queued, 10, 0)]
    requires s.workers.vals == map["a" := Idle("a"), "b" := Idle("b")] && "a" != "b"
    ensures var t := Next(s, Event(StartOne("a", "d"), 0));
            && "b" in t.workers.vals && t.workers.vals["b"].environmentId == "e" && HeldBy(t, "a", "d")
            && Reportable(t, "e", "d")
  {
    hide JsMap.OrderedMap.Valid, JsMap.Distinct;
    assert With([], "d") == ["d"];
  }

  lemma BeatAccepted(s: State, b: string, id: string, now: int)
    requires b in s.workers.vals && Reportable(s, s.workers.vals[b].environmentId, id) && Checked(b, 256)
    requires ReportableId(id)
    ensures Heartbeat(s, b, [id], now).Ok?
    ensures var t := Heartbeat(s, b, [id], now).value;
            HeldBy(t, b, id) && forall a :: a != b && HeldBy(s, a, id) ==> HeldBy(t, a, id)
  {
    hide Checked, ReportableId, Reportable, JsMap.OrderedMap.Valid, JsMap.Distinct;
    assert id in [id] && forall i :: i in [id] ==> i == id;
    assert ValidReport([id]);
  }

  lemma {:induction false} ReachesMore(s: State, events: seq<Event>, m: State, e: Event)
    requires Reaches(s, events, m) && Enabled(m, e)
    ensures Reaches(s, events + [e], Next(m, e))
    decreases |events|
  {
    hide Next, Enabled;
    if events == [] {
      assert ([] + [e])[1..] == [] && ([] + [e])[0] == e;
    } else {
      ReachesMore(Next(s, events[0]), events[1..], m, e);
      assert (events + [e])[1..] == events[1..] + [e] && (events + [e])[0] == events[0];
    }
  }

  lemma WorkersRegister()
    ensures Next(With3(), OneHolder()[3]) == With4() && Enabled(With3(), OneHolder()[3])
    ensures Next(With4(), OneHolder()[4]) == With5() && Enabled(With4(), OneHolder()[4])
    ensures Enabled(With5(), OneHolder()[5])
  {
    hide With3, With4, With5, Next, JsMap.OrderedMap.Valid, JsMap.Distinct;
    TwoIdle();
    Registering(With3(), "a");
    Registering(With4(), "b");
    WithWorkers();
  }

  lemma WithWorkers()
    ensures With4() == PutWorker(With3(), Idle("a")) && With5() == PutWorker(With4(), Idle("b"))
  {
    hide With3, PutWorker;
  }

  lemma HolderReached()
    ensures Reaches(Initial(), OneHolder(), Next(With5(), OneHolder()[5]))
  {
    var e := OneHolder();
    Deploying();
    Queueing();
    WorkersRegister();
    StartsEmpty();
    hide *;
    ReachesMore(Initial(), [], Initial(), e[0]);
    ReachesMore(Initial(), [] + [e[0]], With1(), e[1]);
    ReachesMore(Initial(), [] + [e[0]] + [e[1]], With2(), e[2]);
    ReachesMore(Initial(), [] + [e[0]] + [e[1]] + [e[2]], With3(), e[3]);
    ReachesMore(Initial(), [] + [e[0]] + [e[1]] + [e[2]] + [e[3]], With4(), e[4]);
    ReachesMore(Initial(), [] + [e[0]] + [e[1]] + [e[2]] + [e[3]] + [e[4]], With5(), e[5]);
    assert [] + [e[0]] + [e[1]] + [e[2]] + [e[3]] + [e[4]] + [e[5]] == e;
  }

  lemma StartsEmpty()
    ensures Reaches(Initial(), [], Initial())
  {
  }

  /** A run from an empty plane to two workers holding one dispatch: the other worker need only report it. */
  lemma TwoHoldersRun() returns (t: State)
    ensures Reaches(Initial(), OneHolder() + [Event(Beat("b", ["d"]), 0)], t) && HeldBy(t, "a", "d")
    ensures HeldBy(t, "b", "d")
  {
    hide Reaches, HeldBy, Reportable, Heartbeat, Checked, ReportableId, OneHolder, With3, With4, With5, Start;
    HolderReached();
    TwoIdle();
    LastIsStart();
    var s := Next(With5(), OneHolder()[5]);
    StartingFrom(With5());
    LetterChecked("b");
    LetterChecked("d");
    BeatAccepted(s, "b", "d", 0);
    t := Next(s, Event(Beat("b", ["d"]), 0));
    ReachesMore(Initial(), OneHolder(), s, Event(Beat("b", ["d"]), 0));
  }

  lemma LastIsStart()
    ensures OneHolder()[5] == Event(StartOne("a", "d"), 0)
  {
  }

  lemma HeldRuns(s: State, a: string, id: string)
    requires Exclusive(s) && HeldBy(s, a, id)
    ensures id in s.dispatches.vals && s.dispatches.vals[id].status.Running?
  {
  }

  /** A step that only takes holds away, or gives w holds nobody else has, of running dispatches. */
  lemma ExclusiveFrom(s: State, t: State, w: string, gained: set<string>)
    requires Exclusive(s)
    requires forall b, id :: HeldBy(t, b, id) ==> HeldBy(s, b, id) || (b == w && id in gained)
    requires forall b, id :: id in gained && HeldBy(s, b, id) ==> b == w
    requires forall b, id :: HeldBy(t, b, id) ==> id in t.dispatches.vals && t.dispatches.vals[id].status.Running?
    ensures Exclusive(t)
  {
  }

  lemma StartedExclusive(s: State, workerId: string, id: string, now: int)
    requires Exclusive(s) && workerId in s.workers.vals && id in s.dispatches.vals
    requires s.dispatches.vals[id].status.Queued?
    ensures Exclusive(Started(s, workerId, id, now))
  {
    ExclusiveFrom(s, Started(s, workerId, id, now), workerId, {id});
  }

  lemma SweptExclusive(s: State, environmentId: string, now: int)
    requires Exclusive(s)
    ensures Exclusive(s.(dispatches := Expired(s.dispatches, environmentId, now)))
  {
    var t := s.(dispatches := Expired(s.dispatches, environmentId, now));
    assert forall b, id :: HeldBy(t, b, id) <==> HeldBy(s, b, id);
    ExclusiveFrom(s, t, "", {});
  }

  lemma ClaimExclusive(s: State, workerId: string, now: int)
    requires Exclusive(s) && Claim(s, workerId, now).Ok?
    ensures Exclusive(Claim(s, workerId, now).value.0)
  {
    hide Exclusive, Expired, Started;
    var environmentId := s.workers.vals[workerId].environmentId;
    SweptExclusive(s, environmentId, now);
    var best := Best(s.dispatches.keys, s.dispatches.vals, environmentId, now);
    if best.Some? {
      BestUnswept(s, environmentId, now, best.value);
      StartedExclusive(s.(dispatches := Expired(s.dispatches, environmentId, now)), workerId, best.value, now);
    }
  }

  lemma FinishExclusive(s: State, workerId: string, id: string, status: DispatchStatus, now: int)
    requires Exclusive(s) && Finish(s, workerId, id, status, now).Ok?
    ensures Exclusive(Finish(s, workerId, id, status, now).value)
  {
    var t := Finish(s, workerId, id, status, now).value;
    assert HeldBy(s, workerId, id);
    forall b, i | HeldBy(t, b, i)
      ensures HeldBy(s, b, i) && i != id
    {
      assert b != workerId ==> HeldBy(s, b, i);
    }
    ExclusiveFrom(s, t, "", {});
  }

  lemma CancelExclusive(s: State, id: string, holder: Option<string>, now: int)
    requires Exclusive(s) && Cancel(s, id, holder, now).Ok?
    ensures Exclusive(Cancel(s, id, holder, now).value)
  {
    var t := Cancel(s, id, holder, now).value;
    forall b, i | HeldBy(t, b, i)
      ensures HeldBy(s, b, i) && i != id
    {
    }
    ExclusiveFrom(s, t, "", {});
  }

  /** A new dispatch, or a step that touches neither dispatches in being nor lists. */
  lemma SameListsExclusive(s: State, t: State)
    requires Exclusive(s)
    requires forall k :: k in s.dispatches.vals ==>
               k in t.dispatches.vals && t.dispatches.vals[k] == s.dispatches.vals[k]
    requires forall b, id :: HeldBy(t, b, id) ==> HeldBy(s, b, id)
    ensures Exclusive(t)
  {
    ExclusiveFrom(s, t, "", {});
  }

  /** The steps that add no hold: everything but starts, claims, finishes, cancels and heartbeats. */
  lemma QuietExclusive(s: State, e: Event)
    requires Exclusive(s) && Enabled(s, e)
    requires Elsewhere(e.op) || e.op.AddDispatch? || e.op.TriggerRule? || e.op.AddWorker?
    ensures Exclusive(Next(s, e))
  {
    hide Exclusive, Checked;
    var t := Next(s, e);
    if Elsewhere(e.op) {
      ElsewhereKeeps(s, e);
    }
    forall b, id | HeldBy(t, b, id)
      ensures HeldBy(s, b, id)
    {
    }
    SameListsExclusive(s, t);
  }

  lemma ExclusiveStep(s: State, e: Event)
    requires Inv(s) && Exclusive(s) && Enabled(s, e)
    requires e.op.Beat? && Apply(s, e).Ok? ==> ReportsOnlyFree(s, e.op.workerId, e.op.ids)
    ensures Exclusive(Next(s, e))
  {
    hide Inv, Exclusive, Claim, Finish, Cancel, Start, Heartbeat, NewDispatch, Trigger, ReportsOnlyFree;
    if Apply(s, e).Ok? {
      match e.op
      case StartOne(w, id) =>
        StartIsStarted(s, w, id, e.now);
        StartedExclusive(s, w, id, e.now);
      case ClaimOne(w) => ClaimExclusive(s, w, e.now);
      case FinishOne(w, id, completed) => FinishExclusive(s, w, id, if completed then Completed else Failed, e.now);
      case CancelOne(id, holder) => CancelExclusive(s, id, holder, e.now);
      case Beat(w, ids) => HeartbeatExclusiveIff(s, w, ids, e.now);
      case _ => QuietExclusive(s, e);
    }
  }

  lemma StartIsStarted(s: State, workerId: string, id: string, now: int)
    requires Start(s, workerId, id, now).Ok?
    ensures workerId in s.workers.vals && id in s.dispatches.vals && s.dispatches.vals[id].status.Queued?
    ensures Start(s, workerId, id, now).value == Started(s, workerId, id, now)
  {
  }

  /** Along the run every heartbeat that is accepted reports nothing another worker holds at that moment. */
  ghost predicate FreeReports(s: State, events: seq<Event>)
    decreases |events|
  {
    events != [] ==>
      && (events[0].op.Beat? && Apply(s, events[0]).Ok? ==> ReportsOnlyFree(s, events[0].op.workerId, events[0].op.ids))
      && FreeReports(Next(s, events[0]), events[1..])
  }

  lemma {:induction false} ExclusiveRun(s: State, events: seq<Event>, t: State)
    requires Inv(s) && Exclusive(s) && Reaches(s, events, t) && FreeReports(s, events)
    ensures Exclusive(t)
    decreases |events|
  {
    hide Inv, Exclusive, Next, ReportsOnlyFree;
    if events != [] {
      ExclusiveStep(s, events[0]);
      InvStep(s, events[0]);
      ExclusiveRun(Next(s, events[0]), events[1..], t);
    }
  }

  /** Main result: in a run whose accepted heartbeats report nothing another worker holds, no dispatch ever has two
      holders and every held dispatch is running. */
  lemma HoldersAreExclusive(events: seq<Event>, t: State)
    requires Reaches(Initial(), events, t) && FreeReports(Initial(), events)
    ensures Exclusive(t)
  {
    ExclusiveRun(Initial(), events, t);
  }

  /* ----- rule concurrency ----- */

  lemma {:induction false} FirstRuleIsEarliest(
      keys: seq<string>, vals: map<string, Rule>, environmentId: string, trigger: string, k: string)
    requires k in keys && k in vals && RuleMatches(vals[k], environmentId, trigger)
    ensures var r := FirstRule(keys, vals, environmentId, trigger);
            r.Some? && r.value in keys && Precedes(keys, r.value, k)
  {
    var last := |keys| - 1;
    if k in keys[..last] {
      FirstRuleIsEarliest(keys[..last], vals, environmentId, trigger, k);
      PrecedesExtends(keys, last, FirstRule(keys, vals, environmentId, trigger).value, k);
    } else {
      var earlier := FirstRule(keys[..last], vals, environmentId, trigger);
      FirstRuleIsAKey(keys, vals, environmentId, trigger);
      PrecedesLast(keys, FirstRule(keys, vals, environmentId, trigger).value);
    }
  }

  lemma {:induction false} FirstRuleIsAKey(
      keys: seq<string>, vals: map<string, Rule>, environmentId: string, trigger: string)
    ensures FirstRule(keys, vals, environmentId, trigger).Some? ==>
              FirstRule(keys, vals, environmentId, trigger).value in keys
  {
    if keys != [] {
      FirstRuleIsAKey(keys[..|keys| - 1], vals, environmentId, trigger);
    }
  }

  ghost predicate RuleAllows(s: State, d: Deployment, n: nat) {
    exists r :: r in s.rules.vals && s.rules.vals[r].environmentId == d.environmentId
                && s.rules.vals[r].artifactId == d.artifactId
                && n <= s.rules.vals[r].maxConcurrent
  }

  /** A deployment with open dispatches has a rule of its environment and artifact that allows that many. */
  ghost predicate WithinRules(s: State) {
    && (forall k :: k in s.dispatches.vals ==> s.dispatches.vals[k].deploymentId in s.deployments.vals)
    && (forall k :: k in s.deployments.vals && OpenIds(s.dispatches.vals, k) != {} ==>
          RuleAllows(s, s.deployments.vals[k], |OpenIds(s.dispatches.vals, k)|))
  }

  /** Rules and deployments stay, and deployments keep their environment and artifact. */
  ghost predicate RulesGrow(s: State, t: State) {
    && (forall r :: r in s.rules.vals ==> r in t.rules.vals && t.rules.vals[r] == s.rules.vals[r])
    && (forall k :: k in s.deployments.vals ==>
          && k in t.deployments.vals
          && t.deployments.vals[k].environmentId == s.deployments.vals[k].environmentId
          && t.deployments.vals[k].artifactId == s.deployments.vals[k].artifactId)
  }

  lemma RuleStillAllows(s: State, t: State, k: string, n: nat, m: nat)
    requires RulesGrow(s, t) && k in s.deployments.vals && RuleAllows(s, s.deployments.vals[k], n) && m <= n
    ensures RuleAllows(t, t.deployments.vals[k], m)
  {
    var r :| r in s.rules.vals && s.rules.vals[r].environmentId == s.deployments.vals[k].environmentId
             && s.rules.vals[r].artifactId == s.deployments.vals[k].artifactId && n <= s.rules.vals[r].maxConcurrent;
    assert r in t.rules.vals && t.rules.vals[r] == s.rules.vals[r];
  }

  /** Without new dispatches the open ones can only become fewer. */
  lemma WithinRulesFrom(s: State, t: State)
    requires WithinRules(s) && AllEvolve(s, t) && RulesGrow(s, t) && t.dispatches.vals.Keys == s.dispatches.vals.Keys
    ensures WithinRules(t)
  {
    forall k
      ensures OpenIds(t.dispatches.vals, k) <= OpenIds(s.dispatches.vals, k)
    {
      forall id | id in OpenIds(t.dispatches.vals, k)
        ensures id in OpenIds(s.dispatches.vals, k)
      {
        assert Evolves(s.dispatches.vals[id], t.dispatches.vals[id]);
      }
    }
    forall id | id in t.dispatches.vals
      ensures t.dispatches.vals[id].deploymentId in t.deployments.vals
    {
      assert Evolves(s.dispatches.vals[id], t.dispatches.vals[id]);
    }
    forall k | k in t.deployments.vals && OpenIds(t.dispatches.vals, k) != {}
      ensures RuleAllows(t, t.deployments.vals[k], |OpenIds(t.dispatches.vals, k)|)
    {
      var id :| id in OpenIds(t.dispatches.vals, k);
      assert id in OpenIds(s.dispatches.vals, k);
      SubsetSize(OpenIds(t.dispatches.vals, k), OpenIds(s.dispatches.vals, k));
      RuleStillAllows(s, t, k, |OpenIds(s.dispatches.vals, k)|, |OpenIds(t.dispatches.vals, k)|);
    }
  }

  /** A dispatch made by a rule goes to a deployment that has room for it under that rule. */
  lemma TriggerAdds(
      s: State, environmentId: string, trigger: string, room: string, due: Option<Option<int>>, id: string, now: int)
    requires Trigger(s, environmentId, trigger, room, due, id, now).Ok?
    ensures var t := Trigger(s, environmentId, trigger, room, due, id, now).value;
            && id in t.dispatches.vals && t == PutDispatch(s, t.dispatches.vals[id])
            && t.dispatches.vals[id].id == id && t.dispatches.vals[id].status.Queued?
            && t.dispatches.vals[id].deploymentId in s.deployments.vals
            && RuleAllows(s, s.deployments.vals[t.dispatches.vals[id].deploymentId],
                          |OpenIds(s.dispatches.vals, t.dispatches.vals[id].deploymentId)| + 1)
  {
    hide Checked, OpenIds;
    var rule := FirstRule(s.rules.keys, s.rules.vals, environmentId, trigger).value;
    assert rule in s.rules.vals;
  }

  lemma OneMoreOpen(s: State, d: Dispatch, k: string)
    requires d.id !in s.dispatches.vals && !Terminal(d.status)
    ensures OpenIds(PutDispatch(s, d).dispatches.vals, k) == OpenIds(s.dispatches.vals, k) + if d.deploymentId ==
              k then {d.id} else {}
    ensures d.id !in OpenIds(s.dispatches.vals, k) && PutDispatch(s, d).rules == s.rules
  {
  }

  lemma RuleAllowsSame(s: State, t: State, d: Deployment, n: nat)
    requires t.rules == s.rules
    ensures RuleAllows(t, d, n) <==> RuleAllows(s, d, n)
  {
  }

  lemma AddWithinAt(s: State, d: Dispatch, k: string)
    requires d.id !in s.dispatches.vals && !Terminal(d.status) && d.deploymentId in s.deployments.vals
    requires k in s.deployments.vals
    requires OpenIds(s.dispatches.vals, k) != {} ==>
               RuleAllows(s, s.deployments.vals[k], |OpenIds(s.dispatches.vals, k)|)
    requires k == d.deploymentId ==> RuleAllows(s, s.deployments.vals[k], |OpenIds(s.dispatches.vals, k)| + 1)
    ensures var t := PutDispatch(s, d);
            OpenIds(t.dispatches.vals, k) != {} ==>
              RuleAllows(t, s.deployments.vals[k], |OpenIds(t.dispatches.vals, k)|)
  {
    hide *;
    var t := PutDispatch(s, d);
    OneMoreOpen(s, d, k);
    RuleAllowsSame(s, t, s.deployments.vals[k], |OpenIds(t.dispatches.vals, k)|);
  }

  lemma AddWithinRules(s: State, d: Dispatch)
    requires WithinRules(s) && d.id !in s.dispatches.vals && !Terminal(d.status) && d.deploymentId in s.deployments.vals
    requires RuleAllows(s, s.deployments.vals[d.deploymentId], |OpenIds(s.dispatches.vals, d.deploymentId)| + 1)
    ensures WithinRules(PutDispatch(s, d))
  {
    hide RuleAllows, OpenIds, Terminal;
    forall k | k in s.deployments.vals
      ensures var t := PutDispatch(s, d);
              OpenIds(t.dispatches.vals, k) != {} ==>
                RuleAllows(t, s.deployments.vals[k], |OpenIds(t.dispatches.vals, k)|)
    {
      AddWithinAt(s, d, k);
    }
  }

  lemma TriggerWithinRules(
      s: State, environmentId: string, trigger: string, room: string, due: Option<Option<int>>, id: string, now: int)
    requires WithinRules(s) && id !in s.dispatches.vals && Trigger(s, environmentId, trigger, room, due, id, now).Ok?
    ensures WithinRules(Trigger(s, environmentId, trigger, room, due, id, now).value)
  {
    hide Trigger, OpenIds, Terminal, WithinRules, RuleAllows;
    var t := Trigger(s, environmentId, trigger, room, due, id, now).value;
    TriggerAdds(s, environmentId, trigger, room, due, id, now);
    QueuedIsOpen(t.dispatches.vals[id]);
    AddWithinRules(s, t.dispatches.vals[id]);
  }

  lemma QueuedIsOpen(d: Dispatch)
    requires d.status.Queued?
    ensures !Terminal(d.status)
  {
  }

  lemma NewDeploymentWithinRules(
      s: State, environmentId: string, artifactId: string, replicas: int, canaryPercent: int, id: string)
    requires WithinRules(s) && id !in s.deployments.vals
    requires Deploy(s, environmentId, artifactId, replicas, canaryPercent, id).Ok?
    ensures WithinRules(Deploy(s, environmentId, artifactId, replicas, canaryPercent, id).value)
  {
    hide Checked;
    var t := Deploy(s, environmentId, artifactId, replicas, canaryPercent, id).value;
    assert OpenIds(t.dispatches.vals, id) == {};
    forall k | k in t.deployments.vals && OpenIds(t.dispatches.vals, k) != {}
      ensures RuleAllows(t, t.deployments.vals[k], |OpenIds(t.dispatches.vals, k)|)
    {
      assert RuleAllows(s, s.deployments.vals[k], |OpenIds(s.dispatches.vals, k)|);
    }
  }

  lemma DeploymentGrowsRules(s: State, t: State, id: string, d: Deployment)
    requires t.rules == s.rules && t.deployments.vals == s.deployments.vals[id := d]
    requires id in s.deployments.vals ==>
               d.environmentId == s.deployments.vals[id].environmentId
               && d.artifactId == s.deployments.vals[id].artifactId
    ensures RulesGrow(s, t)
  {
  }

  lemma RuleGrowsRules(s: State, t: State, id: string, rule: Rule)
    requires t.deployments == s.deployments && id !in s.rules.vals && t.rules.vals == s.rules.vals[id := rule]
    ensures RulesGrow(s, t)
  {
  }

  lemma ElsewhereGrowsRules(s: State, e: Event)
    requires Enabled(s, e) && Elsewhere(e.op)
    ensures RulesGrow(s, Next(s, e))
  {
    hide Checked, IsTrigger, RulesGrow;
    var t := Next(s, e);
    if t.rules == s.rules && t.deployments == s.deployments {
      StaysGrown(s, t);
    } else if e.op.AddRule? {
      RuleGrowsRules(s, t, e.op.rule.id, e.op.rule);
    } else {
      DeploymentGrowsRules(s, t, e.op.id, t.deployments.vals[e.op.id]);
    }
  }

  lemma StaysGrown(s: State, t: State)
    requires t.rules == s.rules && t.deployments == s.deployments
    ensures RulesGrow(s, t)
  {
  }

  ghost predicate SameSetup(s: State, t: State) {
    t.rules == s.rules && t.deployments == s.deployments && t.dispatches.vals.Keys == s.dispatches.vals.Keys
  }

  lemma StartLeavesRules(s: State, w: string, id: string, now: int)
    ensures Start(s, w, id, now).Ok? ==> SameSetup(s, Start(s, w, id, now).value)
    ensures Claim(s, w, now).Ok? ==> SameSetup(s, Claim(s, w, now).value.0)
  {
    hide Best, With;
  }

  lemma EndLeavesRules(s: State, w: string, id: string, status: DispatchStatus, holder: Option<string>, now: int)
    ensures Finish(s, w, id, status, now).Ok? ==> SameSetup(s, Finish(s, w, id, status, now).value)
    ensures Cancel(s, id, holder, now).Ok? ==> SameSetup(s, Cancel(s, id, holder, now).value)
  {
    hide JsMap.Without, Released;
  }

  lemma WorkLeavesRules(s: State, e: Event)
    requires !Elsewhere(e.op) && !e.op.AddDispatch? && !e.op.TriggerRule?
    ensures SameSetup(s, Next(s, e))
  {
    hide SameSetup, Start, Claim, Finish, Cancel, RegisterWorker, Heartbeat;
    StaysSame(s);
    match e.op
    case StartOne(w, id) => StartLeavesRules(s, w, id, e.now);
    case ClaimOne(w) => StartLeavesRules(s, w, "", e.now);
    case FinishOne(w, id, completed) => EndLeavesRules(s, w, id, if completed then Completed else Failed, None, e.now);
    case CancelOne(id, holder) => EndLeavesRules(s, "", id, Failed, holder, e.now);
    case AddWorker(id, env, ok, capabilities) => RegisterLeavesRules(s, id, env, ok, capabilities, e.now);
    case Beat(w, ids) => HeartbeatLeavesRules(s, w, ids, e.now);
  }

  lemma StaysSame(s: State)
    ensures SameSetup(s, s)
  {
  }

  lemma RegisterLeavesRules(
      s: State, id: string, environmentId: string, validRuntime: bool, capabilities: seq<string>, now: int)
    ensures var r := RegisterWorker(s, id, environmentId, validRuntime, capabilities, now);
            r.Ok? ==> SameSetup(s, r.value)
  {
    hide Checked;
  }

  lemma HeartbeatLeavesRules(s: State, w: string, ids: seq<string>, now: int)
    ensures Heartbeat(s, w, ids, now).Ok? ==> SameSetup(s, Heartbeat(s, w, ids, now).value)
  {
    hide Checked, ValidReport, Reportable, JsMap.Unique;
  }

  lemma OtherStepsGrowRules(s: State, e: Event)
    requires Enabled(s, e) && !e.op.AddDispatch? && !e.op.TriggerRule?
    ensures RulesGrow(s, Next(s, e)) && Next(s, e).dispatches.vals.Keys == s.dispatches.vals.Keys
  {
    hide Next, Enabled;
    if Elsewhere(e.op) {
      ElsewhereGrowsRules(s, e);
      ElsewhereKeeps(s, e);
    } else {
      WorkLeavesRules(s, e);
    }
  }

  lemma WithinRulesStep(s: State, e: Event)
    requires Inv(s) && WithinRules(s) && Enabled(s, e) && !e.op.AddDispatch?
    ensures WithinRules(Next(s, e))
  {
    hide WithinRules, Inv, RulesGrow, AllEvolve, Trigger, Deploy;
    if Apply(s, e).Ok? {
      match e.op
      case TriggerRule(env, trigger, room, due, id) => TriggerWithinRules(s, env, trigger, room, due, id, e.now);
      case AddDeployment(env, artifact, replicas, canary, id) =>
        NewDeploymentWithinRules(s, env, artifact, replicas, canary, id);
      case _ =>
        InvStep(s, e);
        OtherStepsGrowRules(s, e);
        WithinRulesFrom(s, Next(s, e));
    }
  }

  lemma {:induction false} WithinRulesRun(s: State, events: seq<Event>, t: State)
    requires Inv(s) && WithinRules(s) && Reaches(s, events, t)
    requires forall i :: 0 <= i < |events| ==> !events[i].op.AddDispatch?
    ensures WithinRules(t)
    decreases |events|
  {
    hide WithinRules, Inv, Next;
    if events != [] {
      WithinRulesStep(s, events[0]);
      InvStep(s, events[0]);
      WithinRulesRun(Next(s, events[0]), events[1..], t);
    }
  }

  /** Main result: when dispatches are made by rules only, a deployment's open dispatches never outnumber the largest
      maxConcurrent among the rules of its environment and artifact. */
  lemma RuleConcurrencyHolds(events: seq<Event>, t: State, deploymentId: string)
    requires Reaches(Initial(), events, t) && forall i :: 0 <= i < |events| ==> !events[i].op.AddDispatch?
    requires deploymentId in t.deployments.vals && OpenIds(t.dispatches.vals, deploymentId) != {}
    ensures RuleAllows(t, t.deployments.vals[deploymentId], |OpenIds(t.dispatches.vals, deploymentId)|)
  {
    WithinRulesRun(Initial(), events, t);
  }
}
