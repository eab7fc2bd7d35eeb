/**
 What each operation of the agent control plane accepts and does, stated on its tables, and over runs: what starts a
 dispatch and what ends it.
 */
module AgentEffects {
  import opened Common
  import opened Text
  import opened AgentControl
  import opened AgentProofs
  import JsMap

  /** The setup of environments: what dispatching and working leave alone. */
  ghost predicate SetupStays(s: State, t: State) {
    t.artifacts == s.artifacts && t.deployments == s.deployments && t.rules == s.rules
  }

  /** One dispatch takes a status and nothing else about dispatches changes. */
  ghost predicate OnlyStatus(s: State, t: State, id: string, status: DispatchStatus) {
    && id in s.dispatches.vals && t.dispatches.keys == s.dispatches.keys
    && t.dispatches.vals == s.dispatches.vals[id := s.dispatches.vals[id].(status := status)]
  }

  /** A worker's list gains or loses at most one id and its heartbeat is now. */
  ghost predicate ListBecomes(a: Worker, b: Worker, gained: Option<string>, lost: Option<string>, now: int) {
    && b.id == a.id && b.environmentId == a.environmentId && b.status == a.status && b.lastHeartbeatAt == now
    && (forall x :: x in b.active <==> (x in a.active || gained == Some(x)) && lost != Some(x))
    && (JsMap.Distinct(a.active) ==> JsMap.Distinct(b.active))
  }

  ghost predicate OnlyWorker(s: State, t: State, w: string) {
    && w in s.workers.vals && w in t.workers.vals && t.workers.keys == s.workers.keys
    && t.workers.vals == s.workers.vals[w := t.workers.vals[w]]
  }

  /** Main result: a dispatch is started exactly by a ready worker of its environment, from the queue and before its
      deadline; it then runs and is on that worker's list. */
  lemma StartIff(s: State, w: string, id: string, now: int)
    ensures var r := Start(s, w, id, now);
            var known := w in s.workers.vals && id in s.dispatches.vals;
            && (r.Ok? <==>
                  && known && s.workers.vals[w].status == Ready && s.dispatches.vals[id].status == Queued
                  && s.dispatches.vals[id].environmentId == s.workers.vals[w].environmentId
                  && now < s.dispatches.vals[id].deadline)
            && (r == Err(NotFound) <==>
                  w !in s.workers.vals || (s.workers.vals[w].status == Ready && id !in s.dispatches.vals))
            && (r == Err(Conflict) <==>
                  && known && s.workers.vals[w].status == Ready
                  && (s.dispatches.vals[id].status != Queued
                      || (s.dispatches.vals[id].environmentId == s.workers.vals[w].environmentId
                          && s.dispatches.vals[id].deadline <= now)))
            && r != Err(QuotaExceeded)
            && (r.Ok? ==>
                  && OnlyStatus(s, r.value, id, Running) && OnlyWorker(s, r.value, w) && SetupStays(s, r.value)
                  && ListBecomes(s.workers.vals[w], r.value.workers.vals[w], Some(id), None, now))
  {
    hide JsMap.OrderedMap.Valid;
    if Start(s, w, id, now).Ok? {
      WithDistinctList(s.workers.vals[w].active, id);
    }
  }

  lemma WithDistinctList(ids: seq<string>, id: string)
    ensures JsMap.Distinct(ids) ==> JsMap.Distinct(With(ids, id))
    ensures forall x :: x in With(ids, id) <==> x in ids || x == id
  {
  }

  /** Main result: completing and failing are for a worker of the dispatch's environment that holds it, while it runs;
      it ends as asked and leaves that worker's list. */
  lemma FinishIff(s: State, w: string, id: string, completed: bool, now: int)
    ensures var r := Apply(s, Event(FinishOne(w, id, completed), now));
            && (r.Ok? <==>
                  && w in s.workers.vals && id in s.dispatches.vals
                  && s.dispatches.vals[id].status != Queued && !Terminal(s.dispatches.vals[id].status)
                  && s.dispatches.vals[id].environmentId == s.workers.vals[w].environmentId
                  && id in s.workers.vals[w].active)
            && (r == Err(NotFound) <==> w !in s.workers.vals || id !in s.dispatches.vals)
            && (r == Err(Conflict) <==>
                  && w in s.workers.vals && id in s.dispatches.vals
                  && (s.dispatches.vals[id].status == Queued || Terminal(s.dispatches.vals[id].status)))
            && r != Err(QuotaExceeded)
            && (r.Ok? ==>
                  && OnlyStatus(s, r.value, id, if completed then Completed else Failed)
                  && OnlyWorker(s, r.value, w) && SetupStays(s, r.value)
                  && ListBecomes(s.workers.vals[w], r.value.workers.vals[w], None, Some(id), now))
  {
    hide JsMap.OrderedMap.Valid, JsMap.Distinct, JsMap.Without;
  }

  /** Main result: a dispatch that has not ended is cancelled by anyone, or by a worker only if it holds it, and leaves
      every list it is on. */
  lemma CancelIff(s: State, id: string, holder: Option<string>, now: int)
    ensures var r := Cancel(s, id, holder, now);
            && (r.Ok? <==>
                  && id in s.dispatches.vals && !Terminal(s.dispatches.vals[id].status)
                  && (holder.Some? ==>
                        && HeldBy(s, holder.value, id)
                        && s.workers.vals[holder.value].environmentId == s.dispatches.vals[id].environmentId))
            && (r == Err(Conflict) <==> id in s.dispatches.vals && Terminal(s.dispatches.vals[id].status))
            && (r == Err(NotFound) <==>
                  || id !in s.dispatches.vals
                  || (!Terminal(s.dispatches.vals[id].status) && holder.Some? && holder.value !in s.workers.vals))
            && r != Err(QuotaExceeded)
            && (r.Ok? ==>
                  && OnlyStatus(s, r.value, id, Cancelled) && SetupStays(s, r.value)
                  && r.value.workers.vals.Keys == s.workers.vals.Keys
                  && forall w :: w in s.workers.vals ==>
                       if HeldBy(s, w, id)
                       then ListBecomes(s.workers.vals[w], r.value.workers.vals[w], None, Some(id), now)
                       else r.value.workers.vals[w] == s.workers.vals[w])
  {
    hide JsMap.OrderedMap.Valid, JsMap.Distinct, JsMap.Without;
  }

  /** Main result: a heartbeat is taken exactly when it reports at most 100 well formed ids of running dispatches of the
      worker's environment; the list is then those ids, each once, and the worker is ready. */
  lemma HeartbeatIff(s: State, w: string, ids: seq<string>, now: int)
    ensures var r := Heartbeat(s, w, ids, now);
            && (r.Ok? <==>
                  && Checked(w, 256) && w in s.workers.vals && |ids| <= 100
                  && forall id :: id in ids ==>
                       && 0 < |id| <= 256 && ControlFree(id) && id in s.dispatches.vals
                       && s.dispatches.vals[id].environmentId == s.workers.vals[w].environmentId
                       && s.dispatches.vals[id].status != Queued && !Terminal(s.dispatches.vals[id].status))
            && (r == Err(Conflict) <==>
                  !Checked(w, 256) || |ids| > 100 || exists id :: id in ids && !(0 < |id| <= 256 && ControlFree(id)))
            && (r == Err(NotFound) <==>
                  && Checked(w, 256) && w !in s.workers.vals && |ids| <= 100
                  && forall id :: id in ids ==> 0 < |id| <= 256 && ControlFree(id))
            && r != Err(QuotaExceeded)
            && (r.Ok? ==>
                  && r.value.dispatches == s.dispatches && OnlyWorker(s, r.value, w) && SetupStays(s, r.value)
                  && (var a, b := s.workers.vals[w], r.value.workers.vals[w];
                      && b == a.(status := Ready, active := b.active, lastHeartbeatAt := now)
                      && JsMap.Distinct(b.active) && forall x :: x in b.active <==> x in ids))
  {
    hide JsMap.OrderedMap.Valid, JsMap.Distinct, Checked, ControlFree;
    if Heartbeat(s, w, ids, now).Ok? {
      assert forall id :: id in ids ==> Reportable(s, s.workers.vals[w].environmentId, id);
    }
    if w in s.workers.vals && forall id :: id in ids ==> Reportable(s, s.workers.vals[w].environmentId, id) {
      assert (forall id :: id in ids ==> ReportableId(id)) <==>
             (forall i :: 0 <= i < |ids| ==> ReportableId(ids[i]));
    }
  }

  /** A worker registers with well formed data, and again only for its own environment; it keeps what it holds. */
  lemma RegistrationIff(s: State, id: string, environmentId: string, validRuntime: bool, caps: seq<string>, now: int)
    ensures var r := RegisterWorker(s, id, environmentId, validRuntime, caps, now);
            && (r.Ok? <==>
                  && Checked(id, 256) && Checked(environmentId, 256) && validRuntime && |caps| <= 64
                  && (forall i :: 0 <= i < |caps| ==> Checked(caps[i], 128))
                  && (id in s.workers.vals ==> s.workers.vals[id].environmentId == environmentId))
            && (r == Err(PolicyDenied) <==>
                  && Checked(id, 256) && Checked(environmentId, 256) && validRuntime && |caps| <= 64
                  && (forall i :: 0 <= i < |caps| ==> Checked(caps[i], 128))
                  && id in s.workers.vals && s.workers.vals[id].environmentId != environmentId)
            && (r.Ok? || r == Err(PolicyDenied) || r == Err(Conflict))
            && (r.Ok? ==>
                  && r.value.dispatches == s.dispatches && SetupStays(s, r.value) && id in r.value.workers.vals
                  && r.value.workers.vals == s.workers.vals[id := r.value.workers.vals[id]]
                  && (var b := r.value.workers.vals[id];
                      && b.id == id && b.environmentId == environmentId && b.status == Ready && b.lastHeartbeatAt == now
                      && b.active == if id in s.workers.vals then s.workers.vals[id].active else []))
  {
    hide JsMap.OrderedMap.Valid, JsMap.Distinct, Checked;
  }

  /** A dispatch is queued for a deployment of its environment that has neither failed nor been rolled back, with a
      deadline still to come. */
  lemma DispatchIff(s: State, environmentId: string, deploymentId: string, room: string, deadline: Option<int>,
                    id: string, now: int)
    ensures var r := NewDispatch(s, environmentId, deploymentId, room, deadline, id, now);
            && (r.Ok? <==>
                  && Checked(environmentId, 256) && Checked(room, 256) && deploymentId in s.deployments.vals
                  && s.deployments.vals[deploymentId].environmentId == environmentId
                  && s.deployments.vals[deploymentId].status != DeploymentFailed
                  && s.deployments.vals[deploymentId].status != RolledBack
                  && deadline.Some? && now < deadline.value)
            && (r == Err(NotFound) <==> deploymentId !in s.deployments.vals)
            && (r == Err(PolicyDenied) <==>
                  && Checked(environmentId, 256) && Checked(room, 256) && deploymentId in s.deployments.vals
                  && (s.deployments.vals[deploymentId].environmentId != environmentId
                      || s.deployments.vals[deploymentId].status == DeploymentFailed
                      || s.deployments.vals[deploymentId].status == RolledBack))
            && r != Err(QuotaExceeded)
            && (r.Ok? ==>
                  && SetupStays(s, r.value) && r.value.workers == s.workers && id in r.value.dispatches.vals
                  && r.value.dispatches.vals == s.dispatches.vals[id := r.value.dispatches.vals[id]]
                  && (var d := r.value.dispatches.vals[id];
                      && d.id == id && d.environmentId == environmentId && d.deploymentId == deploymentId
                      && d.roomName == room && d.status == Queued && d.deadline == deadline.value
                      && d.createdAt == now))
  {
    hide JsMap.OrderedMap.Valid, JsMap.Distinct, Checked;
  }

  /** The n-th rule is the one a trigger goes by: it matches and none before it does. */
  ghost predicate GoverningRule(s: State, environmentId: string, trigger: string, n: nat) {
    && n < |s.rules.keys| && IsRuleFor(s, s.rules.keys[n], environmentId, trigger)
    && forall i :: 0 <= i < n ==> !IsRuleFor(s, s.rules.keys[i], environmentId, trigger)
  }

  predicate IsRuleFor(s: State, k: string, environmentId: string, trigger: string) {
    && k in s.rules.vals && s.rules.vals[k].environmentId == environmentId && s.rules.vals[k].trigger == trigger
    && s.rules.vals[k].enabled
  }

  ghost predicate GoverningDeployment(s: State, environmentId: string, artifactId: string, n: nat) {
    && n < |s.deployments.keys| && IsDeploymentFor(s, s.deployments.keys[n], environmentId, artifactId)
    && forall i :: 0 <= i < n ==> !IsDeploymentFor(s, s.deployments.keys[i], environmentId, artifactId)
  }

  predicate IsDeploymentFor(s: State, k: string, environmentId: string, artifactId: string) {
    && k in s.deployments.vals && s.deployments.vals[k].environmentId == environmentId
    && s.deployments.vals[k].artifactId == artifactId
    && (s.deployments.vals[k].status == Canary || s.deployments.vals[k].status == Live)
  }

  lemma {:induction false} FirstRuleAt(s: State, environmentId: string, trigger: string, n: nat)
    requires n <= |s.rules.keys|
    ensures var r := FirstRule(s.rules.keys[..n], s.rules.vals, environmentId, trigger);
            && (r.Some? ==> exists i: nat :: i < n && GoverningRule(s, environmentId, trigger, i)
                                             && s.rules.keys[i] == r.value)
            && (r.None? ==> forall i :: 0 <= i < n ==> !IsRuleFor(s, s.rules.keys[i], environmentId, trigger))
  {
    hide JsMap.OrderedMap.Valid, JsMap.Distinct;
    if n > 0 {
      var keys := s.rules.keys[..n];
      assert keys[..n - 1] == s.rules.keys[..n - 1] && keys[n - 1] == s.rules.keys[n - 1];
      FirstRuleAt(s, environmentId, trigger, n - 1);
      if FirstRule(keys[..n - 1], s.rules.vals, environmentId, trigger).None?
         && IsRuleFor(s, keys[n - 1], environmentId, trigger) {
        assert GoverningRule(s, environmentId, trigger, n - 1);
      }
    }
  }

  lemma {:induction false} FirstDeploymentAt(s: State, environmentId: string, artifactId: string, n: nat)
    requires n <= |s.deployments.keys|
    ensures var r := FirstDeployment(s.deployments.keys[..n], s.deployments.vals, environmentId, artifactId);
            && (r.Some? ==> exists i: nat :: i < n && GoverningDeployment(s, environmentId, artifactId, i)
                                             && s.deployments.keys[i] == r.value)
            && (r.None? ==> forall i :: 0 <= i < n ==>
                              !IsDeploymentFor(s, s.deployments.keys[i], environmentId, artifactId))
  {
    hide JsMap.OrderedMap.Valid, JsMap.Distinct;
    if n > 0 {
      var keys := s.deployments.keys[..n];
      assert keys[..n - 1] == s.deployments.keys[..n - 1] && keys[n - 1] == s.deployments.keys[n - 1];
      FirstDeploymentAt(s, environmentId, artifactId, n - 1);
      if FirstDeployment(keys[..n - 1], s.deployments.vals, environmentId, artifactId).None?
         && IsDeploymentFor(s, keys[n - 1], environmentId, artifactId) {
        assert GoverningDeployment(s, environmentId, artifactId, n - 1);
      }
    }
  }

  /** The dispatches of a deployment that wait or run. */
  ghost function OpenCount(s: State, deploymentId: string): nat {
    |set k | k in s.dispatches.vals && s.dispatches.vals[k].deploymentId == deploymentId
             && (s.dispatches.vals[k].status == Queued || Active(s.dispatches.vals[k].status))|
  }

  lemma OpenCountIs(s: State, deploymentId: string)
    ensures OpenCount(s, deploymentId) == |OpenIds(s.dispatches.vals, deploymentId)|
  {
    assert (set k | k in s.dispatches.vals && s.dispatches.vals[k].deploymentId == deploymentId
                    && (s.dispatches.vals[k].status == Queued || Active(s.dispatches.vals[k].status)))
        == OpenIds(s.dispatches.vals, deploymentId);
  }

  /** Main result: with the governing rule and the governing deployment of its artifact, a trigger queues a dispatch for
      that deployment exactly when the deployment has fewer open dispatches than the rule allows and the deadline, which
      is by default the rule's timeout from now, is still to come. */
  lemma TriggerIff(s: State, environmentId: string, trigger: string, room: string, due: Option<Option<int>>,
                   id: string, now: int, n: nat, m: nat)
    requires GoverningRule(s, environmentId, trigger, n)
    requires GoverningDeployment(s, environmentId, s.rules.vals[s.rules.keys[n]].artifactId, m)
    ensures var rule, k := s.rules.vals[s.rules.keys[n]], s.deployments.keys[m];
            var deadline := if due.Some? then due.value else Some(now + rule.timeoutMs);
            var r := Trigger(s, environmentId, trigger, room, due, id, now);
            && (r.Ok? <==>
                  && Checked(environmentId, 256) && Checked(room, 256) && OpenCount(s, k) < rule.maxConcurrent
                  && deadline.Some? && now < deadline.value)
            && (r.Ok? ==> r == NewDispatch(s, environmentId, k, room, deadline, id, now))
            && (r == Err(QuotaExceeded) <==>
                  Checked(environmentId, 256) && Checked(room, 256) && OpenCount(s, k) >= rule.maxConcurrent)
            && (r.Ok? || r == Err(QuotaExceeded) || r == Err(Conflict))
  {
    hide JsMap.OrderedMap.Valid, JsMap.Distinct, Checked, OpenIds, OpenCount;
    var rules, deployments := s.rules.keys, s.deployments.keys;
    var artifactId := s.rules.vals[rules[n]].artifactId;
    assert rules[..|rules|] == rules && deployments[..|deployments|] == deployments;
    FirstRuleAt(s, environmentId, trigger, |rules|);
    FirstDeploymentAt(s, environmentId, artifactId, |deployments|);
    OpenCountIs(s, deployments[m]);
  }

  /** Without them it is refused. */
  lemma TriggerNeedsBoth(s: State, environmentId: string, trigger: string, room: string, due: Option<Option<int>>,
                         id: string, now: int)
    requires Trigger(s, environmentId, trigger, room, due, id, now).Ok?
    ensures exists n: nat, m: nat ::
              GoverningRule(s, environmentId, trigger, n)
              && GoverningDeployment(s, environmentId, s.rules.vals[s.rules.keys[n]].artifactId, m)
  {
    hide JsMap.OrderedMap.Valid, JsMap.Distinct, Checked, OpenIds;
    var rules, deployments := s.rules.keys, s.deployments.keys;
    assert rules[..|rules|] == rules && deployments[..|deployments|] == deployments;
    FirstRuleAt(s, environmentId, trigger, |rules|);
    var n: nat :| n < |rules| && GoverningRule(s, environmentId, trigger, n)
                  && rules[n] == FirstRule(rules, s.rules.vals, environmentId, trigger).value;
    FirstDeploymentAt(s, environmentId, s.rules.vals[rules[n]].artifactId, |deployments|);
  }

  lemma TriggerRefused(s: State, environmentId: string, trigger: string, room: string, due: Option<Option<int>>,
                       id: string, now: int)
    ensures var r := Trigger(s, environmentId, trigger, room, due, id, now);
            && (!Checked(environmentId, 256) || !Checked(room, 256) ==> r == Err(Conflict))
            && (r == Err(NotFound) <==>
                  && Checked(environmentId, 256) && Checked(room, 256)
                  && forall k :: k in s.rules.vals ==> !IsRuleFor(s, k, environmentId, trigger))
  {
    hide JsMap.OrderedMap.Valid, JsMap.Distinct, Checked, OpenIds;
    var rules := s.rules.keys;
    assert rules[..|rules|] == rules;
    FirstRuleAt(s, environmentId, trigger, |rules|);
    InOrder(s.rules);
    var first := FirstRule(rules, s.rules.vals, environmentId, trigger);
    if first.Some? {
      assert IsRuleFor(s, first.value, environmentId, trigger);
    }
  }

  lemma TriggerUnserved(s: State, environmentId: string, trigger: string, room: string, due: Option<Option<int>>,
                        id: string, now: int, n: nat)
    requires GoverningRule(s, environmentId, trigger, n) && Checked(environmentId, 256) && Checked(room, 256)
    ensures Trigger(s, environmentId, trigger, room, due, id, now) == Err(PolicyDenied) <==>
              forall k :: k in s.deployments.vals ==>
                            !IsDeploymentFor(s, k, environmentId, s.rules.vals[s.rules.keys[n]].artifactId)
  {
    hide JsMap.OrderedMap.Valid, JsMap.Distinct, Checked, OpenIds;
    var rules, deployments := s.rules.keys, s.deployments.keys;
    assert rules[..|rules|] == rules && deployments[..|deployments|] == deployments;
    FirstRuleAt(s, environmentId, trigger, |rules|);
    InOrder(s.deployments);
    var artifactId := s.rules.vals[rules[n]].artifactId;
    FirstDeploymentAt(s, environmentId, artifactId, |deployments|);
    var first := FirstDeployment(deployments, s.deployments.vals, environmentId, artifactId);
    if first.Some? {
      assert IsDeploymentFor(s, first.value, environmentId, artifactId);
    }
  }

  lemma InOrder<V>(m: JsMap.Map<string, V>)
    ensures forall k :: k in m.vals ==> exists i :: 0 <= i < |m.keys| && m.keys[i] == k
    ensures forall i :: 0 <= i < |m.keys| ==> m.keys[i] in m.vals
  {
    forall k | k in m.vals
      ensures exists i :: 0 <= i < |m.keys| && m.keys[i] == k
    {
      assert k in m.keys;
    }
    assert forall i :: 0 <= i < |m.keys| ==> m.keys[i] in m.keys;
  }

  lemma RuleIff(s: State, rule: Rule)
    ensures var r := RegisterRule(s, rule);
            && (r.Ok? <==>
                  && Checked(rule.environmentId, 256) && Checked(rule.artifactId, 256) && rule.artifactId in s.artifacts
                  && 1 <= rule.maxConcurrent <= 1000 && 100 <= rule.timeoutMs <= 86400000
                  && rule.trigger in {"room_joined", "track_published", "data_received", "scheduled"})
            && (r == Err(NotFound) <==>
                  Checked(rule.environmentId, 256) && Checked(rule.artifactId, 256) && rule.artifactId !in s.artifacts)
            && (r == Err(QuotaExceeded) <==>
                  && Checked(rule.environmentId, 256) && Checked(rule.artifactId, 256)
                  && rule.artifactId in s.artifacts && !(1 <= rule.maxConcurrent <= 1000))
            && r != Err(PolicyDenied)
            && (r.Ok? ==> r.value.rules.vals == s.rules.vals[rule.id := rule] && r.value == s.(rules := r.value.rules))
  {
    hide JsMap.OrderedMap.Valid, JsMap.Distinct, Checked;
  }

  lemma DeployIff(s: State, environmentId: string, artifactId: string, replicas: int, canaryPercent: int, id: string)
    ensures var r := Deploy(s, environmentId, artifactId, replicas, canaryPercent, id);
            && (r.Ok? <==>
                  && Checked(environmentId, 256) && artifactId in s.artifacts && 1 <= replicas <= 100
                  && 0 <= canaryPercent <= 100)
            && (r == Err(Conflict) <==> !Checked(environmentId, 256))
            && (r == Err(NotFound) <==> Checked(environmentId, 256) && artifactId !in s.artifacts)
            && (r == Err(QuotaExceeded) <==>
                  Checked(environmentId, 256) && artifactId in s.artifacts && !(1 <= replicas <= 100))
            && (r.Ok? ==>
                  && r.value == s.(deployments := r.value.deployments) && id in r.value.deployments.vals
                  && r.value.deployments.vals == s.deployments.vals[id := r.value.deployments.vals[id]]
                  && (var d := r.value.deployments.vals[id];
                      && d.id == id && d.environmentId == environmentId && d.artifactId == artifactId
                      && d.desiredReplicas == replicas && d.observedReplicas == 0 && d.generation == 1
                      && (canaryPercent == 100 ==> d.status == Live) && (canaryPercent < 100 ==> d.status == Canary)))
  {
    hide JsMap.OrderedMap.Valid, JsMap.Distinct, Checked;
  }

  /** A deployment with all its replicas goes live, whatever it was; a rollback counts a generation and stops it. */
  lemma ObserveAndRollBackIff(s: State, id: string, observed: int)
    ensures var r, b := Reconcile(s, id, observed), Rollback(s, id);
            && (r.Ok? <==> id in s.deployments.vals && 0 <= observed <= 100)
            && (r.Err? ==> r.error == if id in s.deployments.vals then QuotaExceeded else NotFound)
            && (b.Ok? <==> id in s.deployments.vals)
            && (b.Err? ==> b.error == NotFound)
            && (r.Ok? ==>
                  && r.value == s.(deployments := r.value.deployments)
                  && id in r.value.deployments.vals
                  && r.value.deployments.vals == s.deployments.vals[id := r.value.deployments.vals[id]]
                  && (var d, e := s.deployments.vals[id], r.value.deployments.vals[id];
                      && e == d.(observedReplicas := observed, status := e.status)
                      && (observed == d.desiredReplicas ==> e.status == Live)
                      && (observed != d.desiredReplicas ==> e.status == d.status)))
            && (b.Ok? ==>
                  && b.value == s.(deployments := b.value.deployments)
                  && b.value.deployments.vals ==
                     s.deployments.vals[id := s.deployments.vals[id].(status := RolledBack,
                                                                      generation := s.deployments.vals[id].generation
                                                                      + 1)])
  {
    hide JsMap.OrderedMap.Valid, JsMap.Distinct;
  }

  /* ----- what starts and what ends a dispatch ----- */

  /** Main result: a dispatch is only ever started before its deadline, for a ready worker of its environment, which
      holds it from then on. */
  lemma StartsInTime(s: State, e: Event, id: string)
    requires Starts(s, e, id)
    ensures var w := e.op.workerId;
            && w in s.workers.vals && s.workers.vals[w].status == Ready && id in s.dispatches.vals
            && s.dispatches.vals[id].environmentId == s.workers.vals[w].environmentId
            && e.now < s.dispatches.vals[id].deadline && HeldBy(Next(s, e), w, id)
  {
    hide JsMap.OrderedMap.Valid, JsMap.Distinct, Claim, Start;
    var w := e.op.workerId;
    if e.op.StartOne? {
      StartIff(s, w, id, e.now);
    } else {
      ClaimNeedsReady(s, w, e.now);
      ClaimMeetsDescription(s, w, e.now);
      ClaimStarts(s, w, e.now, id);
    }
  }

  /** A claim is for registered and ready workers. */
  lemma ClaimNeedsReady(s: State, w: string, now: int)
    ensures Claim(s, w, now).Ok? <==> w in s.workers.vals && s.workers.vals[w].status == Ready
    ensures Claim(s, w, now) == Err(NotFound) <==> w !in s.workers.vals
    ensures Claim(s, w, now) == Err(PolicyDenied) <==> w in s.workers.vals && s.workers.vals[w].status != Ready
  {
    hide JsMap.OrderedMap.Valid, JsMap.Distinct, Expired, Best, Started;
  }

  ghost predicate NewStatus(s: State, e: Event, id: string) {
    && id in s.dispatches.vals && id in Next(s, e).dispatches.vals
    && Next(s, e).dispatches.vals[id].status != s.dispatches.vals[id].status
  }

  /** What changes a dispatch's status, by the status it takes. */
  ghost predicate Explained(s: State, e: Event, id: string, status: DispatchStatus)
    requires id in s.dispatches.vals
  {
    var d := s.dispatches.vals[id];
    match status
    case Running => Starts(s, e, id)
    case Completed => e.op.FinishOne? && e.op.id == id && e.op.completed && HeldBy(s, e.op.workerId, id)
    case Cancelled => e.op.CancelOne? && e.op.id == id
    case Failed =>
      || (e.op.FinishOne? && e.op.id == id && !e.op.completed && HeldBy(s, e.op.workerId, id))
      || (e.op.ClaimOne? && d.status == Queued && d.deadline <= e.now && e.op.workerId in s.workers.vals
          && s.workers.vals[e.op.workerId].environmentId == d.environmentId)
    case _ => false
  }

  lemma QuietStatus(s: State, e: Event, id: string)
    requires Enabled(s, e) && id in s.dispatches.vals
    requires !e.op.StartOne? && !e.op.FinishOne? && !e.op.CancelOne? && !e.op.ClaimOne?
    ensures !NewStatus(s, e, id)
  {
    hide JsMap.OrderedMap.Valid, JsMap.Distinct, Checked, FirstRule, FirstDeployment, OpenIds, ValidReport, Reportable;
  }

  /** Main result: every change of a dispatch's status has its cause: it runs because it was started, completes because
      a worker that holds it says so, is cancelled by request, and fails because its holder says so or because its
      deadline passed in the queue. */
  lemma EveryChangeHasACause(s: State, e: Event, id: string)
    requires Enabled(s, e) && NewStatus(s, e, id)
    ensures Explained(s, e, id, Next(s, e).dispatches.vals[id].status)
  {
    hide JsMap.OrderedMap.Valid, JsMap.Distinct, Start, Finish, Cancel, Claim, OnlyWorker, ListBecomes, SetupStays;
    match e.op
    case StartOne(w, i) => StartIff(s, w, i, e.now);
    case FinishOne(w, i, completed) => FinishIff(s, w, i, completed, e.now);
    case CancelOne(i, holder) => CancelIff(s, i, holder, e.now);
    case ClaimOne(w) =>
      if Claim(s, w, e.now).Ok? {
        ClaimNeedsReady(s, w, e.now);
        ClaimMeetsDescription(s, w, e.now);
      }
    case _ => QuietStatus(s, e, id);
  }

  /** The dispatch was started by some step of the run. */
  ghost predicate StartedIn(s: State, events: seq<Event>, id: string)
    decreases |events|
  {
    events != [] && (Starts(s, events[0], id) || StartedIn(Next(s, events[0]), events[1..], id))
  }

  predicate HasRun(s: State, id: string) {
    id in s.dispatches.vals
    && (s.dispatches.vals[id].status == Running || s.dispatches.vals[id].status == Completed)
  }

  lemma {:induction false} RanBefore(s: State, events: seq<Event>, t: State, id: string)
    requires Inv(s) && Reaches(s, events, t) && HasRun(t, id)
    ensures HasRun(s, id) || StartedIn(s, events, id)
    decreases |events|
  {
    hide Inv, Next, Enabled, Starts;
    if events != [] {
      var e := events[0];
      InvStep(s, e);
      RanBefore(Next(s, e), events[1..], t, id);
      if HasRun(Next(s, e), id) {
        RunsBecauseStarted(s, e, id);
      }
    }
  }

  lemma RunsBecauseStarted(s: State, e: Event, id: string)
    requires Inv(s) && Enabled(s, e) && HasRun(Next(s, e), id)
    ensures HasRun(s, id) || Starts(s, e, id)
  {
    hide Inv, Next, Starts, Enabled;
    if id !in s.dispatches.vals {
      NewIsQueued(s, e, id);
    } else if Next(s, e).dispatches.vals[id].status != s.dispatches.vals[id].status {
      EveryChangeHasACause(s, e, id);
      if Next(s, e).dispatches.vals[id].status == Completed {
        HeldHasRun(s, e.op.workerId, id, e);
      }
    }
  }

  lemma NewIsQueued(s: State, e: Event, id: string)
    requires Enabled(s, e) && id !in s.dispatches.vals && id in Next(s, e).dispatches.vals
    ensures Next(s, e).dispatches.vals[id].status == Queued
  {
    hide JsMap.OrderedMap.Valid, JsMap.Distinct, Checked, FirstRule, FirstDeployment, OpenIds, ValidReport, Reportable,
         Claim, Start, Finish;
    match e.op
    case StartOne(w, i) => StartIff(s, w, i, e.now);
    case FinishOne(w, i, completed) => FinishIff(s, w, i, completed, e.now);
    case ClaimOne(w) =>
      if Claim(s, w, e.now).Ok? {
        ClaimNeedsReady(s, w, e.now);
        ClaimMeetsDescription(s, w, e.now);
      }
    case _ =>
  }

  lemma HeldHasRun(s: State, w: string, id: string, e: Event)
    requires Inv(s) && HeldBy(s, w, id) && Next(s, e) != s && e.op == FinishOne(w, id, true)
    ensures HasRun(s, id)
  {
    hide JsMap.OrderedMap.Valid, JsMap.Distinct, Finish;
    FinishIff(s, w, id, true, e.now);
    assert HoldsOk(s, s.workers.vals[w]);
    assert Definite(s.dispatches.vals[id]);
  }

  /** Main result: in every run a dispatch that runs or has completed was started by a step of the run; with
      StartedAtMostOnce, by exactly one. */
  lemma CompletedWasStarted(events: seq<Event>, t: State, id: string)
    requires Reaches(Initial(), events, t) && HasRun(t, id)
    ensures StartedIn(Initial(), events, id)
  {
    RanBefore(Initial(), events, t, id);
  }
}
