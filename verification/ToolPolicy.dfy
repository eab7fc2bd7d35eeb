/**
 The tool policy engine (tool-policy.ts).  `authorize` checks the policy at once, joins the run in flight for its
 key if there is one, and otherwise starts a run.  Every `await` of a run is a step boundary: between two steps any
 number of other calls and runs may move, and each awaited call may succeed or throw.
 */
module ToolPolicy {
  import opened Common
  import ColonKeys

  type Value = nat
  type RunId = nat

  datatype Policy = Policy(
    toolId: string, allowedRoles: set<string>, requiresExplicitApproval: bool, idempotencyRequired: bool)

  datatype Context = Context(roles: seq<string>, explicitApproval: bool, idempotencyKey: string, traceId: string)

  datatype Denial = KeyRequired | InvalidContext | ApprovalRequired | RoleNotAllowed

  predicate Allows(policy: Policy, roles: seq<string>) {
    exists i :: 0 <= i < |roles| && roles[i] in policy.allowedRoles
  }

  function Denied(policy: Policy, context: Context): Option<Denial> {
    if policy.idempotencyRequired && |context.idempotencyKey| == 0 then Some(KeyRequired)
    else if |context.idempotencyKey| > 128 || |context.traceId| == 0 || |context.traceId| > 256
    then Some(InvalidContext)
    else if policy.requiresExplicitApproval && !context.explicitApproval then Some(ApprovalRequired)
    else if !Allows(policy, context.roles) then Some(RoleNotAllowed)
    else None
  }

  /** The four things a call must have, each on its own. */
  predicate HasKey(policy: Policy, context: Context) {
    policy.idempotencyRequired ==> context.idempotencyKey != ""
  }

  predicate InRange(context: Context) {
    |context.idempotencyKey| <= 128 && 1 <= |context.traceId| <= 256
  }

  predicate IsApproved(policy: Policy, context: Context) {
    policy.requiresExplicitApproval ==> context.explicitApproval
  }

  predicate HasRole(policy: Policy, context: Context) {
    exists role :: role in context.roles && role in policy.allowedRoles
  }

  predicate MayRun(policy: Policy, context: Context) {
    HasKey(policy, context) && InRange(context) && IsApproved(policy, context) && HasRole(policy, context)
  }

  /** A call is let through exactly when it has all four, and otherwise told the first it lacks. */
  lemma DeniedIff(policy: Policy, context: Context)
    ensures Denied(policy, context).None? <==> MayRun(policy, context)
    ensures Denied(policy, context) == Some(KeyRequired) <==> !HasKey(policy, context)
    ensures Denied(policy, context) == Some(InvalidContext) <==> HasKey(policy, context) && !InRange(context)
    ensures Denied(policy, context) == Some(ApprovalRequired) <==>
              HasKey(policy, context) && InRange(context) && !IsApproved(policy, context)
    ensures Denied(policy, context) == Some(RoleNotAllowed) <==>
              HasKey(policy, context) && InRange(context) && IsApproved(policy, context) && !HasRole(policy, context)
  {
    if HasRole(policy, context) {
      var role :| role in context.roles && role in policy.allowedRoles;
      var i :| 0 <= i < |context.roles| && context.roles[i] == role;
    }
    if Allows(policy, context.roles) {
      var i :| 0 <= i < |context.roles| && context.roles[i] in policy.allowedRoles;
      assert context.roles[i] in context.roles;
    }
  }

  function Key(policy: Policy, context: Context): string {
    ColonKeys.Join(policy.toolId, context.idempotencyKey)
  }

  /** Where a run is: the last two are settled promises, every other phase is an await. */
  datatype Phase =
    | Replaying
    | Reading
    | ReplayingStored(value: Value)
    | Executing
    | Storing(value: Value)
    | Auditing(value: Value)
    | Fulfilled(value: Value)
    | Rejected

  predicate Settled(phase: Phase) {
    phase.Fulfilled? || phase.Rejected?
  }

  /** `cleared` once the run's `finally` has removed it from the in-flight table. */
  datatype Run = Run(key: string, phase: Phase, cleared: bool)

  datatype Call = Call(policy: Policy, context: Context, run: RunId)

  /** `calls` lists the authorized calls with the run each awaits, and `executed` the key of every successful execute.
      */
  datatype Engine = Engine(
    completed: map<string, Value>,
    inFlight: map<string, RunId>,
    runs: seq<Run>,
    calls: seq<Call>,
    executed: seq<string>)

  const Initial := Engine(map[], map[], [], [], [])

  datatype StoreReply = Found(value: Value) | Missing | ReadFailed

  datatype Step =
    | Authorize(policy: Policy, context: Context)
    | Read(run: RunId, reply: StoreReply)
    | Execute(run: RunId, result: Option<Value>)
    | Put(run: RunId, ok: bool)
    | Audit(run: RunId, ok: bool)
    | Clear(run: RunId)

  predicate Enabled(e: Engine, step: Step) {
    match step
    case Authorize(_, _) => true
    case Read(r, _) => r < |e.runs| && e.runs[r].phase.Reading?
    case Execute(r, _) => r < |e.runs| && e.runs[r].phase.Executing?
    case Put(r, _) => r < |e.runs| && e.runs[r].phase.Storing?
    case Audit(r, _) =>
      r < |e.runs| && (e.runs[r].phase.Replaying? || e.runs[r].phase.ReplayingStored? || e.runs[r].phase.Auditing?)
                        && (e.runs[r].phase.Replaying? ==> e.runs[r].key in e.completed)
    case Clear(r) => r < |e.runs| && Settled(e.runs[r].phase) && !e.runs[r].cleared
  }

  function At(e: Engine, r: RunId, phase: Phase): Engine
    requires r < |e.runs|
  {
    e.(runs := e.runs[r := e.runs[r].(phase := phase)])
  }

  function Next(e: Engine, step: Step): Engine
    requires Enabled(e, step)
  {
    match step
    case Authorize(policy, context) =>
      var key := Key(policy, context);
      if Denied(policy, context).Some? then e
      else if key in e.inFlight then e.(calls := e.calls + [Call(policy, context, e.inFlight[key])])
      else
        var phase := if key in e.completed then Replaying else Reading;
        e.(runs := e.runs + [Run(key, phase, false)],
           inFlight := e.inFlight[key := |e.runs|],
           calls := e.calls + [Call(policy, context, |e.runs|)])
    case Read(r, reply) =>
      (match reply
       case Found(v) => At(e, r, ReplayingStored(v)).(completed := e.completed[e.runs[r].key := v])
       case Missing => At(e, r, Executing)
       case ReadFailed => At(e, r, Rejected))
    case Execute(r, result) =>
      if result.None? then At(e, r, Rejected)
      else At(e, r, Storing(result.value)).(
           completed := e.completed[e.runs[r].key := result.value],
           executed := e.executed + [e.runs[r].key])
    case Put(r, ok) => At(e, r, if ok then Auditing(e.runs[r].phase.value) else Rejected)
    case Audit(r, ok) =>
      At(e, r,
         if !ok then Rejected
         else if e.runs[r].phase.Replaying? then Fulfilled(e.completed[e.runs[r].key])
         else Fulfilled(e.runs[r].phase.value))
    case Clear(r) =>
      e.(runs := e.runs[r := e.runs[r].(cleared := true)], inFlight := e.inFlight - {e.runs[r].key})
  }

  /** ToolPolicyEngine, one method for each stretch of code between two awaits. */
  class ToolPolicyEngine {
    var completed: map<string, Value>
    var inFlight: map<string, RunId>
    var runs: seq<Run>
    var calls: seq<Call>
    var executed: seq<string>

    ghost function View(): Engine
      reads this
    {
      Engine(completed, inFlight, runs, calls, executed)
    }

    constructor ()
      ensures View() == Initial
    {
      completed, inFlight, runs, calls, executed := map[], map[], [], [], [];
    }

    method Authorize(policy: Policy, context: Context) returns (run: Result<RunId, Denial>)
      modifies this
      ensures View() == Next(old(View()), Step.Authorize(policy, context))
      ensures run.Ok? <==> MayRun(policy, context)
      ensures run == Err(KeyRequired) <==> !HasKey(policy, context)
      ensures run == Err(InvalidContext) <==> HasKey(policy, context) && !InRange(context)
      ensures run == Err(ApprovalRequired) <==>
                HasKey(policy, context) && InRange(context) && !IsApproved(policy, context)
      ensures run.Err? ==> View() == old(View())
      ensures run.Ok? ==> |calls| == |old(calls)| + 1 && calls[|calls| - 1] == Call(policy, context, run.value)
    {
      DeniedIff(policy, context);
      var denial := Denied(policy, context);
      if denial.Some? {
        return Err(denial.value);
      }
      var key := Key(policy, context);
      if key in inFlight {
        run := Ok(inFlight[key]);
      } else {
        run := Ok(|runs|);
        inFlight := inFlight[key := |runs|];
        runs := runs + [Run(key, if key in completed then Replaying else Reading, false)];
      }
      calls := calls + [Call(policy, context, run.value)];
    }

    method SetPhase(r: RunId, phase: Phase)
      requires r < |runs|
      modifies this`runs
      ensures runs == old(runs)[r := old(runs)[r].(phase := phase)]
    {
      runs := runs[r := runs[r].(phase := phase)];
    }

    method AfterRead(r: RunId, reply: StoreReply)
      requires Enabled(View(), Read(r, reply))
      modifies this
      ensures View() == Next(old(View()), Read(r, reply))
    {
      match reply
      case Found(v) =>
        completed := completed[runs[r].key := v];
        SetPhase(r, ReplayingStored(v));
      case Missing =>
        SetPhase(r, Executing);
      case ReadFailed =>
        SetPhase(r, Rejected);
    }

    method AfterExecute(r: RunId, result: Option<Value>)
      requires Enabled(View(), Execute(r, result))
      modifies this
      ensures View() == Next(old(View()), Execute(r, result))
    {
      if result.Some? {
        completed := completed[runs[r].key := result.value];
        executed := executed + [runs[r].key];
        SetPhase(r, Storing(result.value));
      } else {
        SetPhase(r, Rejected);
      }
    }

    method AfterPut(r: RunId, ok: bool)
      requires Enabled(View(), Put(r, ok))
      modifies this
      ensures View() == Next(old(View()), Put(r, ok))
    {
      if ok {
        SetPhase(r, Auditing(runs[r].phase.value));
      } else {
        SetPhase(r, Rejected);
      }
    }

    method AfterAudit(r: RunId, ok: bool)
      requires Enabled(View(), Audit(r, ok))
      modifies this
      ensures View() == Next(old(View()), Audit(r, ok))
    {
      if !ok {
        SetPhase(r, Rejected);
      } else if runs[r].phase.Replaying? {
        SetPhase(r, Fulfilled(completed[runs[r].key]));
      } else {
        SetPhase(r, Fulfilled(runs[r].phase.value));
      }
    }

    method Finally(r: RunId)
      requires Enabled(View(), Clear(r))
      modifies this
      ensures View() == Next(old(View()), Clear(r))
    {
      inFlight := inFlight - {runs[r].key};
      runs := runs[r := runs[r].(cleared := true)];
    }
  }

  ghost predicate Reaches(e: Engine, steps: seq<Step>, f: Engine)
    decreases |steps|
  {
    if steps == [] then e == f
    else Enabled(e, steps[0]) && Reaches(Next(e, steps[0]), steps[1..], f)
  }

  ghost predicate RunOk(e: Engine, r: RunId)
    requires r < |e.runs|
  {
    var run := e.runs[r];
    && (run.cleared <==> !(run.key in e.inFlight && e.inFlight[run.key] == r))
    && (run.cleared ==> Settled(run.phase))
    && match run.phase
       case Replaying => run.key in e.completed
       case Reading => run.key !in e.completed
       case Executing => run.key !in e.completed
       case Rejected => true
       case _ => run.key in e.completed && e.completed[run.key] == run.phase.value
  }

  ghost predicate Inv(e: Engine) {
    && (forall r :: 0 <= r < |e.runs| ==> RunOk(e, r))
    && (forall k :: k in e.inFlight ==> e.inFlight[k] < |e.runs| && e.runs[e.inFlight[k]].key == k)
    && (forall c :: 0 <= c < |e.calls| ==>
          && e.calls[c].run < |e.runs|
          && Denied(e.calls[c].policy, e.calls[c].context).None?
          && e.runs[e.calls[c].run].key == Key(e.calls[c].policy, e.calls[c].context))
    && (forall i :: 0 <= i < |e.executed| ==> e.executed[i] in e.completed)
    && (forall i, j :: 0 <= i < j < |e.executed| ==> e.executed[i] != e.executed[j])
  }

  /** Nothing settled is ever changed, and a completed result is written once. */
  ghost predicate Extends(e: Engine, f: Engine) {
    && (forall k :: k in e.completed ==> k in f.completed && f.completed[k] == e.completed[k])
    && |e.runs| <= |f.runs|
    && (forall r :: 0 <= r < |e.runs| ==>
          f.runs[r].key == e.runs[r].key && (Settled(e.runs[r].phase) ==> f.runs[r].phase == e.runs[r].phase))
    && e.calls <= f.calls
    && e.executed <= f.executed
  }

  lemma AuthorizeKeeps(e: Engine, policy: Policy, context: Context)
    requires Inv(e)
    ensures Inv(Next(e, Authorize(policy, context))) && Extends(e, Next(e, Authorize(policy, context)))
  {
    var f := Next(e, Authorize(policy, context));
    forall r | 0 <= r < |f.runs|
      ensures RunOk(f, r)
    {
      if r < |e.runs| {
        assert RunOk(e, r);
      }
    }
  }

  /** A step of one run leaves every other run sound: a run of the same key has settled and been cleared, and a
      result is only written while the key has none. */
  lemma OtherRunsKeep(e: Engine, step: Step, q: RunId)
    requires Inv(e) && Enabled(e, step) && !step.Authorize? && q < |e.runs| && q != step.run
    ensures RunOk(Next(e, step), q)
  {
    assert RunOk(e, step.run) && RunOk(e, q);
  }

  lemma MovedRunKeeps(e: Engine, step: Step)
    requires Inv(e) && Enabled(e, step) && !step.Authorize?
    ensures RunOk(Next(e, step), step.run)
  {
    assert RunOk(e, step.run);
  }

  lemma TablesKeep(e: Engine, step: Step)
    requires Inv(e) && Enabled(e, step) && !step.Authorize?
    ensures Extends(e, Next(e, step))
    ensures var f := Next(e, step);
            && (forall k :: k in f.inFlight ==> f.inFlight[k] < |f.runs| && f.runs[f.inFlight[k]].key == k)
            && (forall i :: 0 <= i < |f.executed| ==> f.executed[i] in f.completed)
            && (forall i, j :: 0 <= i < j < |f.executed| ==> f.executed[i] != f.executed[j])
  {
    assert RunOk(e, step.run);
  }

  lemma InvStep(e: Engine, step: Step)
    requires Inv(e) && Enabled(e, step)
    ensures Inv(Next(e, step)) && Extends(e, Next(e, step))
  {
    if step.Authorize? {
      AuthorizeKeeps(e, step.policy, step.context);
    } else {
      var f := Next(e, step);
      TablesKeep(e, step);
      forall r | 0 <= r < |f.runs|
        ensures RunOk(f, r)
      {
        if r == step.run {
          MovedRunKeeps(e, step);
        } else {
          OtherRunsKeep(e, step, r);
        }
      }
    }
  }

  lemma {:induction false} InvRun(e: Engine, steps: seq<Step>, f: Engine)
    requires Inv(e) && Reaches(e, steps, f)
    ensures Inv(f) && Extends(e, f)
    decreases |steps|
  {
    if steps != [] {
      InvStep(e, steps[0]);
      InvRun(Next(e, steps[0]), steps[1..], f);
    }
  }

  /** Main result: in every interleaving a key has at most one run that is not settled. */
  lemma SingleFlight(steps: seq<Step>, e: Engine, r: RunId, q: RunId)
    requires Reaches(Initial, steps, e) && r < |e.runs| && q < |e.runs| && e.runs[r].key == e.runs[q].key
    requires !Settled(e.runs[r].phase) && !Settled(e.runs[q].phase)
    ensures r == q
  {
    InvRun(Initial, steps, e);
    assert RunOk(e, r) && RunOk(e, q);
  }

  /** Main result: `execute` succeeds at most once per key, and once it has, no run of that key executes again. */
  lemma ExecutesAtMostOnce(steps: seq<Step>, e: Engine, later: seq<Step>, f: Engine, i: nat)
    requires Reaches(Initial, steps, e) && Reaches(e, later, f) && i < |e.executed|
    ensures forall j :: 0 <= j < |f.executed| && f.executed[j] == e.executed[i] ==> j == i
    ensures forall r :: 0 <= r < |f.runs| && f.runs[r].key == e.executed[i] ==> !f.runs[r].phase.Executing?
  {
    InvRun(Initial, steps, e);
    InvRun(e, later, f);
    assert f.executed[i] == e.executed[i];
    forall r | 0 <= r < |f.runs| && f.runs[r].key == e.executed[i]
      ensures !f.runs[r].phase.Executing?
    {
      assert RunOk(f, r);
    }
  }

  /** What call c was told, if its promise is fulfilled. */
  function Outcome(e: Engine, c: nat): Option<Value>
    requires c < |e.calls| && e.calls[c].run < |e.runs|
  {
    var phase := e.runs[e.calls[c].run].phase;
    if phase.Fulfilled? then Some(phase.value) else None
  }

  /** Main result: two calls of one key that are fulfilled, at any two moments of a run, were given the same value,
      whatever executes, reads, puts and audits failed before, between or after them. */
  lemma FulfilledCallsAgree(steps: seq<Step>, e: Engine, later: seq<Step>, f: Engine, c: nat, d: nat)
    requires Reaches(Initial, steps, e) && Reaches(e, later, f)
    requires c < |e.calls| && d < |f.calls|
    requires Key(e.calls[c].policy, e.calls[c].context) == Key(f.calls[d].policy, f.calls[d].context)
    ensures e.calls[c].run < |e.runs| && f.calls[d].run < |f.runs|
    ensures Outcome(e, c).Some? && Outcome(f, d).Some? ==> Outcome(e, c) == Outcome(f, d)
  {
    InvRun(Initial, steps, e);
    InvRun(e, later, f);
    assert RunOk(e, e.calls[c].run) && RunOk(f, f.calls[d].run);
  }

  /** Main result: every run, executing or not, was asked for by a call under its key that had an idempotency key where
      one is required, key and trace in range, approval where it is required, and an allowed role. */
  lemma RunsAreAuthorized(steps: seq<Step>, e: Engine, r: RunId)
    requires Reaches(Initial, steps, e) && r < |e.runs|
    ensures exists c :: 0 <= c < |e.calls| && e.calls[c].run == r
                        && MayRun(e.calls[c].policy, e.calls[c].context)
                        && e.runs[r].key == e.calls[c].policy.toolId + ":" + e.calls[c].context.idempotencyKey
  {
    InvRun(Initial, steps, e);
    var c := CallOf(Initial, steps, e, r);
    DeniedIff(e.calls[c].policy, e.calls[c].context);
    assert e.calls[c].run == r;
  }

  lemma {:induction false} CallOf(e: Engine, steps: seq<Step>, f: Engine, r: RunId) returns (c: nat)
    requires Inv(e) && Reaches(e, steps, f) && |e.runs| <= r < |f.runs|
    ensures c < |f.calls| && f.calls[c].run == r
    decreases |steps|
  {
    var g := Next(e, steps[0]);
    InvStep(e, steps[0]);
    if r < |g.runs| {
      c := |e.calls|;
      InvRun(g, steps[1..], f);
    } else {
      c := CallOf(g, steps[1..], f, r);
    }
  }

  /** The steps by which a value can come into being: an execute of the key returned it, or the result store had it. */
  predicate Yields(e: Engine, step: Step, key: string, v: Value) {
    || (step.Execute? && step.run < |e.runs| && e.runs[step.run].key == key && step.result == Some(v))
    || (step.Read? && step.run < |e.runs| && e.runs[step.run].key == key && step.reply == Found(v))
  }

  ghost predicate YieldedIn(e: Engine, steps: seq<Step>, key: string, v: Value)
    decreases |steps|
  {
    && steps != [] && Enabled(e, steps[0])
    && (Yields(e, steps[0], key, v) || YieldedIn(Next(e, steps[0]), steps[1..], key, v))
  }

  lemma CompletedStep(e: Engine, step: Step, key: string)
    requires Enabled(e, step) && key in Next(e, step).completed
    ensures Yields(e, step, key, Next(e, step).completed[key])
            || (key in e.completed && e.completed[key] == Next(e, step).completed[key])
  {
  }

  lemma {:induction false} CompletedWasYielded(e: Engine, steps: seq<Step>, f: Engine, key: string)
    requires Inv(e) && Reaches(e, steps, f) && key in f.completed
    ensures YieldedIn(e, steps, key, f.completed[key]) || (key in e.completed && e.completed[key] == f.completed[key])
    decreases |steps|
  {
    hide Next, Enabled, Inv, Yields;
    if steps != [] {
      InvStep(e, steps[0]);
      InvRun(Next(e, steps[0]), steps[1..], f);
      CompletedWasYielded(Next(e, steps[0]), steps[1..], f, key);
      if key in Next(e, steps[0]).completed {
        CompletedStep(e, steps[0], key);
      }
    }
  }

  /** Main result: what a fulfilled call was given is a value an execute of its key returned, or the result store
      had. */
  lemma ValuesAreNotInvented(steps: seq<Step>, e: Engine, c: nat)
    requires Reaches(Initial, steps, e) && c < |e.calls|
    ensures e.calls[c].run < |e.runs|
    ensures Outcome(e, c).Some? ==>
              YieldedIn(Initial, steps, Key(e.calls[c].policy, e.calls[c].context), Outcome(e, c).value)
  {
    InvRun(Initial, steps, e);
    if Outcome(e, c).Some? {
      assert RunOk(e, e.calls[c].run);
      CompletedWasYielded(Initial, steps, e, Key(e.calls[c].policy, e.calls[c].context));
    }
  }

  /** A run settles well only by an audit that succeeds, and badly only when a read, execute, put or audit fails. */
  lemma SettlesIff(e: Engine, step: Step, r: RunId)
    requires Enabled(e, step) && r < |e.runs| && !Settled(e.runs[r].phase)
    ensures r < |Next(e, step).runs|
    ensures Next(e, step).runs[r].phase.Fulfilled? <==> step == Audit(r, true)
    ensures Next(e, step).runs[r].phase.Rejected? <==>
              step in {Read(r, ReadFailed), Execute(r, None), Put(r, false), Audit(r, false)}
  {
  }

  /** An authorized call of a key that is neither completed nor in flight, when the store has nothing and nothing
      fails. */
  function Undisturbed(policy: Policy, context: Context, r: RunId, v: Value): seq<Step> {
    [Authorize(policy, context), Read(r, Missing), Execute(r, Some(v)), Put(r, true), Audit(r, true)]
  }

  /** Main result: such a call executes the tool, once, and is given what it returned. */
  lemma UndisturbedCallExecutes(e: Engine, policy: Policy, context: Context, v: Value) returns (f: Engine)
    requires MayRun(policy, context) && Key(policy, context) !in e.completed && Key(policy, context) !in e.inFlight
    ensures Reaches(e, Undisturbed(policy, context, |e.runs|, v), f)
    ensures |f.calls| == |e.calls| + 1 && f.calls[|e.calls|] == Call(policy, context, |e.runs|) && |e.runs| < |f.runs|
    ensures Outcome(f, |e.calls|) == Some(v) && f.executed == e.executed + [Key(policy, context)]
  {
    DeniedIff(policy, context);
    hide Denied, Key, MayRun;
    var r, steps := |e.runs|, Undisturbed(policy, context, |e.runs|, v);
    var a := Next(e, steps[0]);
    assert a.runs == e.runs + [Run(Key(policy, context), Reading, false)];
    var b := Next(a, steps[1]);
    var c := Next(b, steps[2]);
    var d := Next(c, steps[3]);
    f := Next(d, steps[4]);
    assert Reaches(d, steps[4..], f) by { assert steps[4..][1..] == []; }
    assert Reaches(c, steps[3..], f) by { assert steps[3..][1..] == steps[4..]; }
    assert Reaches(b, steps[2..], f) by { assert steps[2..][1..] == steps[3..]; }
    assert Reaches(a, steps[1..], f) by { assert steps[1..][1..] == steps[2..]; }
  }

  /** A key that has a result is replayed by the next call: the tool is not executed again, and the call is given that
      result as soon as the audit goes through. */
  lemma CompletedCallReplays(e: Engine, policy: Policy, context: Context) returns (f: Engine)
    requires MayRun(policy, context) && Key(policy, context) in e.completed && Key(policy, context) !in e.inFlight
    ensures Reaches(e, [Authorize(policy, context), Audit(|e.runs|, true)], f)
    ensures |f.calls| == |e.calls| + 1 && f.calls[|e.calls|] == Call(policy, context, |e.runs|) && |e.runs| < |f.runs|
    ensures Outcome(f, |e.calls|) == Some(e.completed[Key(policy, context)]) && f.executed == e.executed
  {
    DeniedIff(policy, context);
    hide Denied, Key, MayRun;
    var steps := [Authorize(policy, context), Audit(|e.runs|, true)];
    var a := Next(e, steps[0]);
    f := Next(a, steps[1]);
    assert Reaches(a, steps[1..], f) by { assert steps[1..][1..] == []; }
  }

  /** A call of a key in flight joins that run: it is told what the run's first caller is told. */
  lemma JoinsTheRunInFlight(e: Engine, policy: Policy, context: Context)
    requires MayRun(policy, context) && Key(policy, context) in e.inFlight
    ensures var f := Next(e, Authorize(policy, context));
            f == e.(calls := e.calls + [Call(policy, context, e.inFlight[Key(policy, context)])])
  {
    DeniedIff(policy, context);
  }

  /** A replay never finds its result missing, so its audit is always the only thing it waits for. */
  lemma ReplayFindsResult(steps: seq<Step>, e: Engine, r: RunId)
    requires Reaches(Initial, steps, e) && r < |e.runs| && e.runs[r].phase.Replaying?
    ensures Enabled(e, Audit(r, true)) && Enabled(e, Audit(r, false))
  {
    InvRun(Initial, steps, e);
    assert RunOk(e, r);
  }

  /** The longer tool id is the shorter one, a ':' and a rest short enough for an idempotency key to supply it. */
  predicate Overlaps(p: Policy, q: Policy) {
    && ColonKeys.ExtendsByColon(p.toolId, q.toolId)
    && |q.toolId| - |p.toolId| + (if q.idempotencyRequired then 1 else 0) <= 128
  }

  /** A context both policies' checks let through, if the policy allows any role at all. */
  function Admitted(role: string, key: string): Context {
    Context([role], true, key, "t")
  }

  lemma AdmittedPasses(p: Policy, role: string, key: string)
    requires role in p.allowedRoles && |key| <= 128 && (p.idempotencyRequired ==> key != "")
    ensures Denied(p, Admitted(role, key)).None?
  {
    assert Allows(p, [role]) by { assert [role][0] in p.allowedRoles; }
  }

  lemma OverlapCollides(p: Policy, q: Policy, roleP: string, roleQ: string) returns (x: Context, y: Context)
    requires Overlaps(p, q) && roleP in p.allowedRoles && roleQ in q.allowedRoles
    ensures Denied(p, x).None? && Denied(q, y).None? && Key(p, x) == Key(q, y)
  {
    var key := if q.idempotencyRequired then "k" else "";
    var rest := q.toolId[|p.toolId| + 1..] + ":" + key;
    x, y := Admitted(roleP, rest), Admitted(roleQ, key);
    AdmittedPasses(p, roleP, rest);
    AdmittedPasses(q, roleQ, key);
    assert q.toolId == p.toolId + ":" + q.toolId[|p.toolId| + 1..];
    assert p.toolId + ":" + rest == q.toolId + ":" + key;
  }

  lemma CollidingOverlap(p: Policy, q: Policy, x: Context, y: Context)
    requires Denied(p, x).None? && Denied(q, y).None? && Key(p, x) == Key(q, y)
    ensures p.allowedRoles != {} && q.allowedRoles != {}
    ensures p.toolId == q.toolId || Overlaps(p, q) || Overlaps(q, p)
  {
    ColonKeys.JoinedHeads(p.toolId, x.idempotencyKey, q.toolId, y.idempotencyKey);
    assert |p.toolId| + |x.idempotencyKey| == |q.toolId| + |y.idempotencyKey| by {
      assert |Key(p, x)| == |Key(q, y)|;
    }
  }

  /** Main result: two policies have authorized calls with one key exactly when both allow some role and their tools are
      the same or one id extends the other by a ':' and little enough for the key to make up the difference. */
  lemma ToolKeysCollideIff(p: Policy, q: Policy)
    ensures (exists x: Context, y: Context :: Denied(p, x).None? && Denied(q, y).None? && Key(p, x) == Key(q, y))
       <==> p.allowedRoles != {} && q.allowedRoles != {} && (p.toolId == q.toolId || Overlaps(p, q) || Overlaps(q, p))
  {
    hide Denied, Key, Overlaps;
    forall x: Context, y: Context | Denied(p, x).None? && Denied(q, y).None? && Key(p, x) == Key(q, y)
      ensures p.allowedRoles != {} && q.allowedRoles != {} && (p.toolId == q.toolId || Overlaps(p, q) || Overlaps(q, p))
    {
      CollidingOverlap(p, q, x, y);
    }
    if p.allowedRoles != {} && q.allowedRoles != {} {
      var roleP, roleQ :| roleP in p.allowedRoles && roleQ in q.allowedRoles;
      if p.toolId == q.toolId {
        AdmittedPasses(p, roleP, "k");
        AdmittedPasses(q, roleQ, "k");
        SameToolSameKey(p, q, Admitted(roleP, "k"), Admitted(roleQ, "k"));
      } else if Overlaps(p, q) {
        var x, y := OverlapCollides(p, q, roleP, roleQ);
      } else if Overlaps(q, p) {
        var y, x := OverlapCollides(q, p, roleQ, roleP);
      }
    }
  }

  lemma SameToolSameKey(p: Policy, q: Policy, x: Context, y: Context)
    requires p.toolId == q.toolId && x.idempotencyKey == y.idempotencyKey
    ensures Key(p, x) == Key(q, y)
  {
  }
}
