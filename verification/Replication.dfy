/**
 Replicas of platform-api that share one snapshot row (server.ts, `restored`, `persistTail`, `persistStore`).

 A replica restores the row once, then serves requests. A handler mutates the in-memory store and calls
 `persistStore`, which captures a snapshot at once and chains its write behind the writes queued before it; the
 handler replies only when its own write resolved. A write reads the adapter's version when it starts, and the
 statement runs at some later moment. The reply may be lost, and the statement of a write the replica has given
 up on may still run afterwards.
 */
module Replication {
  import opened Common
  import opened SnapshotStore

  /** What the replica awaiting a write will be told. */
  datatype Reply = Pending | Committed(version: nat) | Refused

  /** A snapshot with the call of `persistStore` that took it. */
  datatype Capture = Capture(call: nat, snapshot: History)

  datatype Write = Idle | InFlight(call: nat, snapshot: History, expected: nat, reply: Reply)

  datatype Phase = Starting | Serving | Down

  datatype Replica = Replica(phase: Phase, memory: History, version: nat, queue: seq<Capture>, write: Write) {

    function Restored(row: Option<Row>): Replica {
      if row.None? then this.(phase := Serving, version := 0)
      else this.(phase := Serving, memory := row.value.snapshot, version := row.value.version)
    }

    function Mutated(m: Mutation): Replica {
      this.(memory := memory + [m])
    }

    function Queued(call: nat): Replica {
      this.(queue := queue + [Capture(call, memory)])
    }

    function Begun(): Replica
      requires queue != []
    {
      this.(queue := queue[1..], write := InFlight(queue[0].call, queue[0].snapshot, version, Pending))
    }

    function Answered(version: Option<nat>): Replica
      requires write.InFlight?
    {
      this.(write := write.(reply := if version.Some? then Committed(version.value) else Refused))
    }

    function Settled(): Replica
      requires write.InFlight?
    {
      this.(write := Idle, version := if write.reply.Committed? then write.reply.version else version)
    }

    function GivenUp(): Replica {
      this.(write := Idle)
    }

    /** The newest version this replica has written or loaded and not lost track of. */
    function Known(): nat {
      if write.InFlight? && write.reply.Committed? then write.reply.version else version
    }
  }

  /** One server process: the memory, the promise chain and the adapter's version it shares. */
  class Server {
    var phase: Phase
    var memory: History
    var version: nat
    var queue: seq<Capture>
    var write: Write

    ghost function View(): Replica
      reads this
    {
      Replica(phase, memory, version, queue, write)
    }

    constructor (seeds: History)
      ensures View() == Replica(Starting, seeds, 0, [], Idle)
    {
      phase, memory, version, queue, write := Starting, seeds, 0, [], Idle;
    }

    method Restore(table: SnapshotTable)
      requires phase == Starting
      modifies this
      ensures View() == old(View()).Restored(table.row)
    {
      if table.row.Some? {
        memory, version := table.row.value.snapshot, table.row.value.version;
      } else {
        version := 0;
      }
      phase := Serving;
    }

    method Mutate(m: Mutation)
      modifies this
      ensures View() == old(View()).Mutated(m)
    {
      memory := memory + [m];
    }

    /** The synchronous part of `persistStore`: capture, then chain behind `persistTail`. */
    method PersistStore(call: nat)
      modifies this
      ensures View() == old(View()).Queued(call)
    {
      var snapshot := memory;
      queue := queue + [Capture(call, snapshot)];
    }

    method BeginWrite()
      requires write.Idle? && queue != []
      modifies this
      ensures View() == old(View()).Begun()
    {
      write := InFlight(queue[0].call, queue[0].snapshot, version, Pending);
      queue := queue[1..];
    }

    method SendWrite(table: SnapshotTable)
      requires write.InFlight? && write.reply.Pending?
      modifies this, table
      ensures View() == old(View()).Answered(Upsert(old(table.row), old(write).snapshot, old(write).expected).1)
      ensures table.row == Upsert(old(table.row), old(write).snapshot, old(write).expected).0
    {
      var answer := table.Execute(write.snapshot, write.expected);
      write := write.(reply := if answer.Some? then Committed(answer.value) else Refused);
    }

    method ReceiveReply() returns (resolved: bool)
      requires write.InFlight? && !write.reply.Pending?
      modifies this
      ensures View() == old(View()).Settled() && resolved == old(write).reply.Committed?
    {
      resolved := write.reply.Committed?;
      if resolved {
        version := write.reply.version;
      }
      write := Idle;
    }

    method LoseReply()
      requires write.InFlight?
      modifies this
      ensures View() == old(View()).GivenUp()
    {
      write := Idle;
    }
  }

  /** The statement of a write whose replica no longer waits for it. */
  datatype Stray = Stray(author: nat, snapshot: History, expected: nat)

  datatype Commit = Commit(author: nat, snapshot: History)

  /** A resolved `persistStore`: the call, the snapshot it took and the version its write created. */
  datatype Ack = Ack(call: nat, snapshot: History, version: nat)

  /** `commits`, `calls` and `acknowledged` record what happened: every snapshot the row has held, in order, who called
      `persistStore` with what in memory, and which calls resolved. */
  datatype System = System(
    row: Option<Row>,
    replicas: map<nat, Replica>,
    strays: seq<Stray>,
    commits: seq<Commit>,
    calls: seq<(nat, History)>,
    acknowledged: seq<Ack>)

  const Initial := System(None, map[], [], [], [], [])

  datatype Step =
    | Join(r: nat, seeds: History)
    | Load(r: nat)
    | Mutate(r: nat, m: Mutation)
    | Persist(r: nat)
    | Begin(r: nat)
    | Execute(r: nat)
    | Receive(r: nat)
    | Lose(r: nat)
    | Crash(r: nat)
    | ExecuteStray(i: nat)

  predicate Enabled(s: System, step: Step) {
    match step
    case Join(r, _) => r !in s.replicas
    case Load(r) => r in s.replicas && s.replicas[r].phase == Starting
    case Mutate(r, _) => r in s.replicas && s.replicas[r].phase == Serving
    case Persist(r) => r in s.replicas && s.replicas[r].phase == Serving
    case Begin(r) => r in s.replicas && s.replicas[r].phase == Serving && s.replicas[r].write.Idle?
                     && s.replicas[r].queue != []
    case Execute(r) => r in s.replicas && s.replicas[r].write.InFlight? && s.replicas[r].write.reply.Pending?
    case Receive(r) => r in s.replicas && s.replicas[r].write.InFlight? && !s.replicas[r].write.reply.Pending?
    case Lose(r) => r in s.replicas && s.replicas[r].write.InFlight?
    case Crash(r) => r in s.replicas
    case ExecuteStray(i) => i < |s.strays|
  }

  function WithReplica(s: System, r: nat, replica: Replica): System {
    s.(replicas := s.replicas[r := replica])
  }

  /** The statement runs: the row changes or refuses, and a change is recorded. */
  function Run(s: System, author: nat, snapshot: History, expected: nat): System {
    var (row, version) := Upsert(s.row, snapshot, expected);
    s.(row := row, commits := if version.Some? then s.commits + [Commit(author, snapshot)] else s.commits)
  }

  /** A write nobody waits for any more still reaches the table if it has not run yet. */
  function Abandon(s: System, r: nat): System
    requires r in s.replicas
  {
    var write := s.replicas[r].write;
    if write.InFlight? && write.reply.Pending?
    then s.(strays := s.strays + [Stray(r, write.snapshot, write.expected)])
    else s
  }

  function Next(s: System, step: Step): System
    requires Enabled(s, step)
  {
    match step
    case Join(r, seeds) => WithReplica(s, r, Replica(Starting, seeds, 0, [], Idle))
    case Load(r) => WithReplica(s, r, s.replicas[r].Restored(s.row))
    case Mutate(r, m) => WithReplica(s, r, s.replicas[r].Mutated(m))
    case Persist(r) =>
      WithReplica(s, r, s.replicas[r].Queued(|s.calls|)).(calls := s.calls + [(r, s.replicas[r].memory)])
    case Begin(r) => WithReplica(s, r, s.replicas[r].Begun())
    case Execute(r) =>
      var write := s.replicas[r].write;
      WithReplica(Run(s, r, write.snapshot, write.expected), r,
                  s.replicas[r].Answered(Upsert(s.row, write.snapshot, write.expected).1))
    case Receive(r) =>
      var write := s.replicas[r].write;
      WithReplica(s, r, s.replicas[r].Settled()).(
      acknowledged := if write.reply.Committed?
                      then s.acknowledged + [Ack(write.call, write.snapshot, write.reply.version)] else s.acknowledged)
    case Lose(r) => WithReplica(Abandon(s, r), r, s.replicas[r].GivenUp())
    case Crash(r) => WithReplica(Abandon(s, r), r, s.replicas[r].GivenUp().(phase := Down, queue := []))
    case ExecuteStray(i) =>
      var q := s.strays[i];
      Run(s, q.author, q.snapshot, q.expected).(strays := s.strays[..i] + s.strays[i + 1..])
  }

  ghost predicate Reaches(s: System, steps: seq<Step>, t: System)
    decreases |steps|
  {
    if steps == [] then s == t
    else Enabled(s, steps[0]) && Reaches(Next(s, steps[0]), steps[1..], t)
  }

  /** The history a version stands for: what the row held at that version. */
  function Base(commits: seq<Commit>, version: nat): History
    requires version <= |commits|
  {
    if version == 0 then [] else commits[version - 1].snapshot
  }

  ghost predicate Linear(commits: seq<Commit>) {
    forall i, j :: 0 <= i <= j < |commits| ==> commits[i].snapshot <= commits[j].snapshot
  }

  ghost predicate RowMatches(row: Option<Row>, commits: seq<Commit>) {
    if commits == [] then row == None else row == Some(Row(Base(commits, |commits|), |commits|))
  }

  /** Memory grows from what was loaded or last written; queued and in-flight snapshots are prefixes of it, oldest
      first. */
  ghost predicate ReplicaOk(r: nat, x: Replica, commits: seq<Commit>) {
    && x.version <= |commits|
    && (x.phase == Starting ==> x.version == 0 && x.queue == [] && x.write.Idle?)
    && Base(commits, x.version) <= x.memory
    && (forall i :: 0 <= i < |x.queue| ==> Base(commits, x.version) <= x.queue[i].snapshot <= x.memory)
    && (forall i, j :: 0 <= i <= j < |x.queue| ==> x.queue[i].snapshot <= x.queue[j].snapshot)
    && (x.write.InFlight? ==>
          && x.write.expected == x.version
          && Base(commits, x.version) <= x.write.snapshot <= x.memory
          && (forall i :: 0 <= i < |x.queue| ==> x.write.snapshot <= x.queue[i].snapshot)
          && (x.write.reply.Committed? ==>
                && x.write.reply.version == x.version + 1 <= |commits|
                && commits[x.version] == Commit(r, x.write.snapshot)))
  }

  ghost predicate StrayOk(q: Stray, s: System) {
    && q.author in s.replicas
    && s.replicas[q.author].phase != Starting
    && q.expected <= s.replicas[q.author].version <= |s.commits|
    && Base(s.commits, q.expected) <= q.snapshot
  }

  ghost predicate AckOk(ack: Ack, commits: seq<Commit>) {
    1 <= ack.version <= |commits| && commits[ack.version - 1].snapshot == ack.snapshot
  }

  ghost predicate Inv(s: System) {
    && RowMatches(s.row, s.commits)
    && Linear(s.commits)
    && (forall r :: r in s.replicas ==> ReplicaOk(r, s.replicas[r], s.commits))
    && (forall q :: q in s.strays ==> StrayOk(q, s))
    && (forall a :: a in s.acknowledged ==> AckOk(a, s.commits))
  }

  /** A statement whose expected version stands for a prefix of its snapshot only ever extends the history. */
  lemma RunKeepsHistory(s: System, author: nat, snapshot: History, expected: nat)
    requires RowMatches(s.row, s.commits) && Linear(s.commits)
    requires expected <= |s.commits| && Base(s.commits, expected) <= snapshot
    ensures var t := Run(s, author, snapshot, expected);
            RowMatches(t.row, t.commits) && Linear(t.commits) && s.commits <= t.commits
    ensures var t := Run(s, author, snapshot, expected);
            if expected == |s.commits| then t.commits == s.commits + [Commit(author, snapshot)]
                                            && Upsert(s.row, snapshot, expected).1 == Some(|t.commits|)
            else t == s && Upsert(s.row, snapshot, expected).1 == None
  {
    var t := Run(s, author, snapshot, expected);
    if expected == |s.commits| {
      forall i, j | 0 <= i <= j < |t.commits|
        ensures t.commits[i].snapshot <= t.commits[j].snapshot
      {
        if j == |s.commits| && i < j {
          assert s.commits[i].snapshot <= s.commits[j - 1].snapshot <= snapshot;
        }
      }
    }
  }

  lemma Grown(r: nat, x: Replica, commits: seq<Commit>, more: seq<Commit>)
    requires ReplicaOk(r, x, commits) && commits <= more
    ensures ReplicaOk(r, x, more)
  {
    assert Base(commits, x.version) == Base(more, x.version);
  }

  /** Putting a good replica in place of r keeps the invariant when r is not sent back to its start. */
  lemma Replaced(s: System, r: nat, x: Replica)
    requires Inv(s) && ReplicaOk(r, x, s.commits)
    requires r in s.replicas && x.phase == Starting ==> s.replicas[r].phase == Starting
    requires r in s.replicas ==> s.replicas[r].version <= x.version
    ensures Inv(WithReplica(s, r, x))
  {
    forall q | q in s.strays
      ensures StrayOk(q, WithReplica(s, r, x))
    {
      assert StrayOk(q, s);
    }
  }

  lemma QueueKeepsOrder(r: nat, x: Replica, commits: seq<Commit>)
    requires ReplicaOk(r, x, commits) && x.phase != Starting
    ensures forall call :: ReplicaOk(r, x.Queued(call), commits)
    ensures x.write.Idle? && x.queue != [] ==> ReplicaOk(r, x.Begun(), commits)
  {
  }

  lemma SettleKeepsOrder(r: nat, x: Replica, commits: seq<Commit>)
    requires ReplicaOk(r, x, commits) && x.write.InFlight?
    ensures ReplicaOk(r, x.GivenUp(), commits)
    ensures !x.write.reply.Pending? ==> ReplicaOk(r, x.Settled(), commits)
  {
    if x.write.reply.Committed? {
      assert Base(commits, x.write.reply.version) == x.write.snapshot;
    }
  }

  lemma RestoreStarts(r: nat, x: Replica, s: System)
    requires Inv(s) && ReplicaOk(r, x, s.commits) && x.phase == Starting
    ensures ReplicaOk(r, x.Restored(s.row), s.commits)
  {
  }

  lemma MutateExtends(r: nat, x: Replica, m: Mutation, commits: seq<Commit>)
    requires ReplicaOk(r, x, commits) && x.phase != Starting
    ensures ReplicaOk(r, x.Mutated(m), commits)
  {
    var y := x.Mutated(m);
    assert x.memory <= y.memory;
    forall i | 0 <= i < |y.queue|
      ensures Base(commits, y.version) <= y.queue[i].snapshot <= y.memory
    {
      assert y.queue[i].snapshot <= x.memory;
    }
  }

  lemma AbandonKeeps(s: System, r: nat)
    requires Inv(s) && r in s.replicas
    ensures Inv(Abandon(s, r))
  {
    assert ReplicaOk(r, s.replicas[r], s.commits);
  }

  /** Running a sound statement keeps every part of the invariant that speaks of the whole system. */
  lemma RunKeeps(s: System, author: nat, snapshot: History, expected: nat)
    requires Inv(s) && expected <= |s.commits| && Base(s.commits, expected) <= snapshot
    ensures Inv(Run(s, author, snapshot, expected))
  {
    var t := Run(s, author, snapshot, expected);
    RunKeepsHistory(s, author, snapshot, expected);
    forall r | r in t.replicas
      ensures ReplicaOk(r, t.replicas[r], t.commits)
    {
      Grown(r, s.replicas[r], s.commits, t.commits);
    }
    forall q | q in t.strays
      ensures StrayOk(q, t)
    {
      assert StrayOk(q, s);
      assert Base(s.commits, q.expected) == Base(t.commits, q.expected);
    }
    forall a | a in t.acknowledged
      ensures AckOk(a, t.commits)
    {
      assert AckOk(a, s.commits);
    }
  }

  lemma AnsweredOk(r: nat, x: Replica, commits: seq<Commit>)
    requires ReplicaOk(r, x, commits) && x.write.InFlight?
    ensures ReplicaOk(r, x.Answered(None), commits)
    ensures x.write.expected == |commits| ==>
              ReplicaOk(r, x.Answered(Some(|commits| + 1)), commits + [Commit(r, x.write.snapshot)])
  {
    Grown(r, x, commits, commits + [Commit(r, x.write.snapshot)]);
  }

  lemma AnswerKeeps(s: System, r: nat)
    requires Inv(s) && Enabled(s, Execute(r))
    ensures var write := s.replicas[r].write;
            ReplicaOk(r, s.replicas[r].Answered(Upsert(s.row, write.snapshot, write.expected).1),
                      Run(s, r, write.snapshot, write.expected).commits)
  {
    hide Inv, Linear, RowMatches, ReplicaOk, Run, Upsert;
    var x := s.replicas[r];
    WriteIsSound(s, r);
    InvGivesHistory(s);
    AnsweredOk(r, x, s.commits);
    RunKeepsHistory(s, r, x.write.snapshot, x.write.expected);
  }

  lemma WriteIsSound(s: System, r: nat)
    requires Inv(s) && r in s.replicas && s.replicas[r].write.InFlight?
    ensures ReplicaOk(r, s.replicas[r], s.commits)
    ensures var write := s.replicas[r].write;
            write.expected <= |s.commits| && Base(s.commits, write.expected) <= write.snapshot
  {
    assert ReplicaOk(r, s.replicas[r], s.commits);
  }

  lemma InvGivesHistory(s: System)
    requires Inv(s)
    ensures RowMatches(s.row, s.commits) && Linear(s.commits)
  {
  }

  lemma ExecuteKeeps(s: System, r: nat)
    requires Inv(s) && Enabled(s, Execute(r))
    ensures Inv(Next(s, Execute(r))) && s.commits <= Next(s, Execute(r)).commits
  {
    hide Inv, Linear, RowMatches, ReplicaOk, Run;
    var write := s.replicas[r].write;
    WriteIsSound(s, r);
    InvGivesHistory(s);
    RunKeepsHistory(s, r, write.snapshot, write.expected);
    RunKeeps(s, r, write.snapshot, write.expected);
    AnswerKeeps(s, r);
    RunLeavesReplicas(s, r, write.snapshot, write.expected);
    Replaced(Run(s, r, write.snapshot, write.expected), r,
             s.replicas[r].Answered(Upsert(s.row, write.snapshot, write.expected).1));
  }

  lemma RunLeavesReplicas(s: System, author: nat, snapshot: History, expected: nat)
    ensures Run(s, author, snapshot, expected).replicas == s.replicas
  {
  }

  lemma StrayKeeps(s: System, i: nat)
    requires Inv(s) && i < |s.strays|
    ensures Inv(Next(s, ExecuteStray(i))) && s.commits <= Next(s, ExecuteStray(i)).commits
  {
    var q := s.strays[i];
    assert q in s.strays && StrayOk(q, s);
    RunKeepsHistory(s, q.author, q.snapshot, q.expected);
    RunKeeps(s, q.author, q.snapshot, q.expected);
    var t := Run(s, q.author, q.snapshot, q.expected);
    var u := Next(s, ExecuteStray(i));
    forall p | p in u.strays
      ensures StrayOk(p, u)
    {
      assert p in t.strays && StrayOk(p, t);
    }
  }

  lemma ReceiveKeeps(s: System, r: nat)
    requires Inv(s) && Enabled(s, Receive(r))
    ensures Inv(Next(s, Receive(r)))
  {
    var x := s.replicas[r];
    assert ReplicaOk(r, x, s.commits);
    SettleKeepsOrder(r, x, s.commits);
    Replaced(s, r, x.Settled());
    var t := WithReplica(s, r, x.Settled());
    assert x.write.reply.Committed? ==> AckOk(Ack(x.write.call, x.write.snapshot, x.write.reply.version), s.commits);
  }

  lemma AbandonedKeeps(s: System, r: nat, x: Replica)
    requires Inv(s) && r in s.replicas && s.replicas[r].write.InFlight?
    requires x == s.replicas[r].GivenUp()
    ensures Inv(WithReplica(Abandon(s, r), r, x))
  {
    AbandonKeeps(s, r);
    SettleKeepsOrder(r, s.replicas[r], s.commits);
    Replaced(Abandon(s, r), r, x);
  }

  lemma CrashKeeps(s: System, r: nat)
    requires Inv(s) && Enabled(s, Crash(r))
    ensures Inv(Next(s, Crash(r)))
  {
    AbandonKeeps(s, r);
    assert ReplicaOk(r, s.replicas[r], s.commits);
    var x := s.replicas[r].GivenUp().(phase := Down, queue := []);
    assert ReplicaOk(r, x, s.commits);
    Replaced(Abandon(s, r), r, x);
  }

  /** The steps that touch nothing but one replica. */
  predicate Local(step: Step) {
    step.Join? || step.Load? || step.Mutate? || step.Persist? || step.Begin?
  }

  lemma JoinStarts(r: nat, seeds: History, commits: seq<Commit>)
    ensures ReplicaOk(r, Replica(Starting, seeds, 0, [], Idle), commits)
  {
  }

  lemma InvGivesReplica(s: System, r: nat)
    requires Inv(s) && r in s.replicas
    ensures ReplicaOk(r, s.replicas[r], s.commits)
  {
  }

  /** What a local step makes of its replica. */
  lemma LocalStep(s: System, step: Step)
    requires Inv(s) && Enabled(s, step) && Local(step)
    ensures var t := Next(s, step);
            && step.r in t.replicas && ReplicaOk(step.r, t.replicas[step.r], s.commits)
            && (step.r in s.replicas && t.replicas[step.r].phase == Starting ==> s.replicas[step.r].phase == Starting)
            && (step.r in s.replicas ==> s.replicas[step.r].version <= t.replicas[step.r].version)
  {
    hide Inv, ReplicaOk;
    match step
    case Join(r, seeds) => JoinStarts(r, seeds, s.commits);
    case Load(r) =>
      InvGivesReplica(s, r);
      RestoreStarts(r, s.replicas[r], s);
      NotYetLoaded(s, r);
    case Mutate(r, m) =>
      InvGivesReplica(s, r);
      MutateExtends(r, s.replicas[r], m, s.commits);
    case Persist(r) =>
      InvGivesReplica(s, r);
      QueueKeepsOrder(r, s.replicas[r], s.commits);
    case Begin(r) =>
      InvGivesReplica(s, r);
      QueueKeepsOrder(r, s.replicas[r], s.commits);
  }

  lemma NotYetLoaded(s: System, r: nat)
    requires Inv(s) && r in s.replicas && s.replicas[r].phase == Starting
    ensures s.replicas[r].version == 0
  {
    assert ReplicaOk(r, s.replicas[r], s.commits);
  }

  lemma LocalChanges(s: System, step: Step)
    requires Enabled(s, step) && Local(step)
    ensures var t := Next(s, step);
            step.r in t.replicas && t == WithReplica(s, step.r, t.replicas[step.r]).(calls := t.calls)
  {
  }

  lemma CallsDoNotMatter(s: System, t: System)
    requires Inv(s) && t == s.(calls := t.calls)
    ensures Inv(t)
  {
    forall q | q in t.strays
      ensures StrayOk(q, t)
    {
      assert StrayOk(q, s);
    }
  }

  lemma LocalKeeps(s: System, step: Step)
    requires Inv(s) && Enabled(s, step) && Local(step)
    ensures Inv(Next(s, step))
  {
    hide Inv, ReplicaOk, Next, Enabled;
    var t := Next(s, step);
    LocalStep(s, step);
    LocalChanges(s, step);
    Replaced(s, step.r, t.replicas[step.r]);
    CallsDoNotMatter(WithReplica(s, step.r, t.replicas[step.r]), t);
  }

  lemma InvStep(s: System, step: Step)
    requires Inv(s) && Enabled(s, step)
    ensures Inv(Next(s, step)) && s.commits <= Next(s, step).commits
  {
    if Local(step) {
      LocalKeeps(s, step);
    } else if step.Execute? {
      ExecuteKeeps(s, step.r);
    } else if step.Receive? {
      ReceiveKeeps(s, step.r);
    } else if step.Lose? {
      AbandonedKeeps(s, step.r, s.replicas[step.r].GivenUp());
    } else if step.Crash? {
      CrashKeeps(s, step.r);
    } else {
      StrayKeeps(s, step.i);
    }
  }

  lemma {:induction false} InvRun(s: System, steps: seq<Step>, t: System)
    requires Inv(s) && Reaches(s, steps, t)
    ensures Inv(t) && s.commits <= t.commits
    decreases |steps|
  {
    if steps != [] {
      InvStep(s, steps[0]);
      InvRun(Next(s, steps[0]), steps[1..], t);
    }
  }

  /** Main result.  In every run the row's contents only ever extend what it held before, and the snapshot of every
      write that resolved is one of the versions, so every later version still contains all its mutations. */
  lemma NoResolvedWriteIsLost(steps: seq<Step>, s: System, later: seq<Step>, t: System, ack: Ack)
    requires Reaches(Initial, steps, s) && ack in s.acknowledged
    requires Reaches(s, later, t)
    ensures 1 <= ack.version <= |t.commits| && t.commits[ack.version - 1].snapshot == ack.snapshot
    ensures forall j :: ack.version - 1 <= j < |t.commits| ==> ack.snapshot <= t.commits[j].snapshot
    ensures t.row.Some? && t.row.value.version == |t.commits| && ack.snapshot <= t.row.value.snapshot
  {
    InvRun(Initial, steps, s);
    InvRun(s, later, t);
    assert AckOk(ack, s.commits);
  }

  /** A step that resolves a write acknowledges the call and the snapshot that write carried. */
  lemma ResolvedMeansAcknowledged(s: System, r: nat)
    requires Inv(s) && Enabled(s, Receive(r)) && s.replicas[r].write.reply.Committed?
    ensures var t, write := Next(s, Receive(r)), s.replicas[r].write;
            Ack(write.call, write.snapshot, t.replicas[r].version) in t.acknowledged
  {
    var t, write := Next(s, Receive(r)), s.replicas[r].write;
    assert t.acknowledged[|s.acknowledged|] == Ack(write.call, write.snapshot, t.replicas[r].version);
  }

  /** Every queued and in-flight snapshot is what its call found in its caller's memory. */
  ghost predicate CallsOk(s: System) {
    && (forall r, i :: r in s.replicas && 0 <= i < |s.replicas[r].queue| ==>
          TakenBy(s, r, s.replicas[r].queue[i].call, s.replicas[r].queue[i].snapshot))
    && (forall r :: r in s.replicas && s.replicas[r].write.InFlight? ==>
          TakenBy(s, r, s.replicas[r].write.call, s.replicas[r].write.snapshot))
  }

  predicate TakenBy(s: System, r: nat, call: nat, snapshot: History) {
    call < |s.calls| && s.calls[call] == (r, snapshot)
  }

  /** One replica changes; what it holds was taken by calls already recorded. */
  lemma CallsReplaced(s: System, r: nat, x: Replica)
    requires CallsOk(s)
    requires forall i :: 0 <= i < |x.queue| ==> TakenBy(s, r, x.queue[i].call, x.queue[i].snapshot)
    requires x.write.InFlight? ==> TakenBy(s, r, x.write.call, x.write.snapshot)
    ensures CallsOk(WithReplica(s, r, x))
  {
  }

  lemma CallsGrow(s: System, r: nat, memory: History)
    requires CallsOk(s)
    ensures CallsOk(s.(calls := s.calls + [(r, memory)]))
  {
  }

  /** The calls depend on the replicas and the record of calls only. */
  lemma CallsSame(s: System, t: System)
    requires CallsOk(s) && t.replicas == s.replicas && t.calls == s.calls
    ensures CallsOk(t)
  {
  }

  lemma PersistCalls(s: System, r: nat)
    requires CallsOk(s) && Enabled(s, Persist(r))
    ensures CallsOk(Next(s, Persist(r))) && Next(s, Persist(r)).calls == s.calls + [(r, s.replicas[r].memory)]
  {
    var grown := s.(calls := s.calls + [(r, s.replicas[r].memory)]);
    CallsGrow(s, r, s.replicas[r].memory);
    CallsReplaced(grown, r, s.replicas[r].Queued(|s.calls|));
    CallsSame(WithReplica(grown, r, s.replicas[r].Queued(|s.calls|)), Next(s, Persist(r)));
  }

  lemma CallsStep(s: System, step: Step)
    requires CallsOk(s) && Enabled(s, step)
    ensures CallsOk(Next(s, step)) && s.calls <= Next(s, step).calls
  {
    hide Upsert;
    var t := Next(s, step);
    if step.Persist? {
      PersistCalls(s, step.r);
    } else if step.ExecuteStray? {
      CallsSame(s, t);
    } else {
      var x := t.replicas[step.r];
      assert forall i :: 0 <= i < |x.queue| ==> TakenBy(s, step.r, x.queue[i].call, x.queue[i].snapshot);
      assert t.replicas == s.replicas[step.r := x];
      hide CallsOk, Next;
      CallsReplaced(s, step.r, x);
      CallsSame(WithReplica(s, step.r, x), t);
    }
  }

  lemma {:induction false} CallsRun(s: System, steps: seq<Step>, t: System)
    requires CallsOk(s) && Reaches(s, steps, t)
    ensures CallsOk(t) && s.calls <= t.calls
    decreases |steps|
  {
    hide CallsOk, Next, Enabled;
    if steps != [] {
      CallsStep(s, steps[0]);
      CallsRun(Next(s, steps[0]), steps[1..], t);
    }
  }

  /** All that was in a process's memory when it called `persistStore` is in the row after that call has resolved, and
      at every moment from then on, whatever any replica did before, in between or after. */
  lemma ResolvedSnapshotIsKept(
    before: seq<Step>, s: System, r: nat, between: seq<Step>, u: System, later: seq<Step>, t: System)
    requires Reaches(Initial, before, s) && Enabled(s, Persist(r))
    requires Reaches(Next(s, Persist(r)), between, u) && Enabled(u, Receive(r))
    requires u.replicas[r].write.call == |s.calls| && u.replicas[r].write.reply.Committed?
    requires Reaches(Next(u, Receive(r)), later, t)
    ensures t.row.Some? && s.replicas[r].memory <= t.row.value.snapshot
  {
    hide Inv, Next;
    InvRun(Initial, before, s);
    CallsRun(Initial, before, s);
    InvStep(s, Persist(r));
    CallsStep(s, Persist(r));
    PersistRecords(s, r);
    InvRun(Next(s, Persist(r)), between, u);
    CallsRun(Next(s, Persist(r)), between, u);
    assert TakenBy(u, r, u.replicas[r].write.call, u.replicas[r].write.snapshot);
    InvStep(u, Receive(r));
    InvRun(Next(u, Receive(r)), later, t);
    CommittedStays(u, r, Next(u, Receive(r)), t);
  }

  lemma ResolvedMutationIsKept(
    before: seq<Step>, s: System, r: nat, m: Mutation, between: seq<Step>, u: System, later: seq<Step>, t: System)
    requires Reaches(Initial, before, s) && Enabled(s, Persist(r)) && m in s.replicas[r].memory
    requires Reaches(Next(s, Persist(r)), between, u) && Enabled(u, Receive(r))
    requires u.replicas[r].write.call == |s.calls| && u.replicas[r].write.reply.Committed?
    requires Reaches(Next(u, Receive(r)), later, t)
    ensures t.row.Some? && m in t.row.value.snapshot
  {
    hide Next;
    ResolvedSnapshotIsKept(before, s, r, between, u, later, t);
  }

  lemma PersistRecords(s: System, r: nat)
    requires Enabled(s, Persist(r))
    ensures Next(s, Persist(r)).calls == s.calls + [(r, s.replicas[r].memory)]
  {
  }

  lemma CommittedStays(s: System, r: nat, u: System, t: System)
    requires Inv(s) && r in s.replicas && s.replicas[r].write.InFlight? && s.replicas[r].write.reply.Committed?
    requires Inv(t) && s.commits <= u.commits <= t.commits
    ensures t.row.Some? && s.replicas[r].write.snapshot <= t.row.value.snapshot
  {
    assert ReplicaOk(r, s.replicas[r], s.commits);
    assert t.commits[s.replicas[r].version].snapshot == s.replicas[r].write.snapshot;
  }

  /** The mutations one process makes in a stretch of a run, in order. */
  function MadeBy(steps: seq<Step>, r: nat): seq<Mutation> {
    if steps == [] then []
    else (if steps[0].Mutate? && steps[0].r == r then [steps[0].m] else []) + MadeBy(steps[1..], r)
  }

  lemma MemoryStep(s: System, step: Step, r: nat)
    requires Enabled(s, step) && r in s.replicas && s.replicas[r].phase != Starting
    ensures r in Next(s, step).replicas && Next(s, step).replicas[r].phase != Starting
    ensures Next(s, step).replicas[r].memory == s.replicas[r].memory + MadeBy([step], r)
  {
    assert [step][1..] == [] && MadeBy([], r) == [];
  }

  /** Main result: once loaded, a process's memory is what it was at any earlier moment followed by exactly the
      mutations its handlers have made since, in order. */
  lemma {:induction false} MemoryIsHistory(s: System, steps: seq<Step>, t: System, r: nat)
    requires Reaches(s, steps, t) && r in s.replicas && s.replicas[r].phase != Starting
    ensures r in t.replicas && t.replicas[r].phase != Starting
    ensures t.replicas[r].memory == s.replicas[r].memory + MadeBy(steps, r)
    decreases |steps|
  {
    hide Next, Enabled;
    if steps != [] {
      MemoryStep(s, steps[0], r);
      MemoryIsHistory(Next(s, steps[0]), steps[1..], t, r);
      assert [steps[0]][1..] == [];
      var x, y, z := s.replicas[r].memory, MadeBy([steps[0]], r), MadeBy(steps[1..], r);
      assert (x + y) + z == x + (y + z);
    }
  }

  /** What a process loads is the row, or its own seeds when there is no row yet. */
  lemma LoadedIsTheRow(steps: seq<Step>, s: System, r: nat)
    requires Reaches(Initial, steps, s) && Enabled(s, Load(r))
    ensures var x := Next(s, Load(r)).replicas[r];
            && x.phase == Serving && x.memory == (if s.row.None? then s.replicas[r].memory else s.row.value.snapshot)
            && x.version == |s.commits|
  {
    InvRun(Initial, steps, s);
  }

  /** Main result, from the request on: a handler makes a mutation, later calls `persistStore`, and that call resolves.
      Then the row begins, from then on, with what the process held before the mutation, the mutation itself and all the
      process did between the two, in order, whatever any other replica does before, in between or after. */
  lemma MutationReachesRow(
    before: seq<Step>, s: System, r: nat, m: Mutation, between: seq<Step>, u: System, waiting: seq<Step>, v: System,
    later: seq<Step>, t: System)
    requires Reaches(Initial, before, s) && Enabled(s, Mutate(r, m))
    requires Reaches(Next(s, Mutate(r, m)), between, u) && Enabled(u, Persist(r))
    requires Reaches(Next(u, Persist(r)), waiting, v) && Enabled(v, Receive(r))
    requires v.replicas[r].write.call == |u.calls| && v.replicas[r].write.reply.Committed?
    requires Reaches(Next(v, Receive(r)), later, t)
    ensures t.row.Some? && s.replicas[r].memory + [m] + MadeBy(between, r) <= t.row.value.snapshot
  {
    hide Next;
    MemoryStep(s, Mutate(r, m), r);
    assert [Mutate(r, m)][1..] == [] && MadeBy([Mutate(r, m)], r) == [m];
    MemoryIsHistory(Next(s, Mutate(r, m)), between, u, r);
    ReachesAppend(Initial, before, s, Mutate(r, m), between, u);
    ResolvedSnapshotIsKept(before + [Mutate(r, m)] + between, u, r, waiting, v, later, t);
  }

  lemma {:induction false} ReachesAppend(
      a: System, before: seq<Step>, s: System, step: Step, after: seq<Step>, t: System)
    requires Reaches(a, before, s) && Enabled(s, step) && Reaches(Next(s, step), after, t)
    ensures Reaches(a, before + [step] + after, t)
    decreases |before|
  {
    hide Next, Enabled;
    if before == [] {
      assert ([] + [step] + after)[0] == step && ([] + [step] + after)[1..] == after;
    } else {
      ReachesAppend(Next(a, before[0]), before[1..], s, step, after, t);
      var all := before + [step] + after;
      assert all[0] == before[0] && all[1..] == before[1..] + [step] + after;
    }
  }

  /** What a handler persists contains every mutation made before it called `persistStore`, and what it writes later
      contains what it wrote before: queued snapshots leave in capture order. */
  lemma PersistCapturesMemory(s: System, r: nat)
    requires Inv(s) && Enabled(s, Persist(r))
    ensures var x := Next(s, Persist(r)).replicas[r];
            && x.queue[|x.queue| - 1] == Capture(|s.calls|, s.replicas[r].memory)
            && (forall i :: 0 <= i < |x.queue| ==> x.queue[i].snapshot <= s.replicas[r].memory)
            && (x.write.InFlight? ==> x.write.snapshot <= s.replicas[r].memory)
  {
    QueueKeepsOrder(r, s.replicas[r], s.commits);
  }

  /** r has missed a version: the row moved past the newest version r knows of. */
  predicate Fenced(s: System, r: nat) {
    r in s.replicas && s.replicas[r].phase != Starting && s.replicas[r].Known() < |s.commits|
  }

  ghost predicate NoneBy(r: nat, commits: seq<Commit>, from: nat) {
    forall i :: from <= i < |commits| ==> commits[i].author != r
  }

  /** A statement of a fenced replica, waited for or stray, expects an old version. */
  lemma FencedExpectsOld(s: System, step: Step, r: nat)
    requires Inv(s) && Enabled(s, step) && Fenced(s, r)
    ensures step.Execute? && step.r == r ==> s.replicas[r].write.expected < |s.commits|
    ensures step.ExecuteStray? && s.strays[step.i].author == r ==> s.strays[step.i].expected < |s.commits|
  {
    hide Linear, RowMatches, AckOk;
    assert ReplicaOk(r, s.replicas[r], s.commits);
    if step.ExecuteStray? {
      var q := s.strays[step.i];
      assert q in s.strays && StrayOk(q, s);
    }
  }

  lemma FencedWritesNothing(s: System, step: Step, r: nat)
    requires Inv(s) && Enabled(s, step) && Fenced(s, r)
    ensures NoneBy(r, Next(s, step).commits, |s.commits|)
  {
    FencedExpectsOld(s, step, r);
    InvGivesHistory(s);
    hide Inv, Linear, RowMatches;
    if step.ExecuteStray? {
      var q := s.strays[step.i];
      StrayIsSound(s, step.i);
      RunKeepsHistory(s, q.author, q.snapshot, q.expected);
    } else if step.Execute? {
      var write := s.replicas[step.r].write;
      WriteIsSound(s, step.r);
      RunKeepsHistory(s, step.r, write.snapshot, write.expected);
    }
  }

  lemma StrayIsSound(s: System, i: nat)
    requires Inv(s) && i < |s.strays|
    ensures s.strays[i].expected <= |s.commits| && Base(s.commits, s.strays[i].expected) <= s.strays[i].snapshot
  {
    assert s.strays[i] in s.strays && StrayOk(s.strays[i], s);
  }

  lemma KnownDoesNotGrow(s: System, step: Step, r: nat)
    requires Enabled(s, step) && r in s.replicas && s.replicas[r].phase != Starting
    requires step.Execute? && step.r == r ==> Upsert(s.row, s.replicas[r].write.snapshot,
                                                     s.replicas[r].write.expected).1 == None
    requires s.replicas[r].version <= s.replicas[r].Known()
    ensures var t := Next(s, step);
            r in t.replicas && t.replicas[r].phase != Starting && t.replicas[r].Known() <= s.replicas[r].Known()
  {
  }

  lemma FencedStep(s: System, step: Step, r: nat)
    requires Inv(s) && Enabled(s, step) && Fenced(s, r)
    ensures Fenced(Next(s, step), r) && NoneBy(r, Next(s, step).commits, |s.commits|)
  {
    FencedWritesNothing(s, step, r);
    FencedExpectsOld(s, step, r);
    InvStep(s, step);
    KnownIsBounded(s, r);
    if step.Execute? {
      WriteIsSound(s, step.r);
      InvGivesHistory(s);
      RunKeepsHistory(s, step.r, s.replicas[step.r].write.snapshot, s.replicas[step.r].write.expected);
    }
    hide Inv, NoneBy, Next, Upsert, Linear, RowMatches;
    KnownDoesNotGrow(s, step, r);
  }

  lemma {:induction false} FencedForever(s: System, steps: seq<Step>, t: System, r: nat)
    requires Inv(s) && Fenced(s, r) && Reaches(s, steps, t)
    ensures Fenced(t, r) && NoneBy(r, t.commits, |s.commits|)
    decreases |steps|
  {
    if steps != [] {
      var u := Next(s, steps[0]);
      InvStep(s, steps[0]);
      FencedStep(s, steps[0], r);
      FencedForever(u, steps[1..], t, r);
      InvRun(u, steps[1..], t);
    }
  }

  /** A serving replica that knows the newest version can write again. */
  lemma CurrentReplicaCommits(s: System, r: nat) returns (steps: seq<Step>, t: System)
    requires Inv(s) && r in s.replicas && s.replicas[r].phase == Serving && !Fenced(s, r)
    ensures Reaches(s, steps, t) && !NoneBy(r, t.commits, |s.commits|)
  {
    var x := s.replicas[r];
    KnownIsBounded(s, r);
    assert ReplicaOk(r, x, s.commits);
    if x.write.InFlight? && x.write.reply.Pending? {
      steps := [Execute(r)];
      t := ExecuteCommits(s, r);
    } else if x.write.InFlight? {
      var u := Next(s, Receive(r));
      InvStep(s, Receive(r));
      var rest;
      rest, t := CurrentReplicaCommitsIdle(u, r);
      steps := [Receive(r)] + rest;
    } else {
      steps, t := CurrentReplicaCommitsIdle(s, r);
    }
  }

  lemma CurrentReplicaCommitsIdle(s: System, r: nat) returns (steps: seq<Step>, t: System)
    requires Inv(s) && r in s.replicas && s.replicas[r].phase == Serving && !Fenced(s, r)
    requires s.replicas[r].write.Idle?
    ensures Reaches(s, steps, t) && !NoneBy(r, t.commits, |s.commits|)
  {
    KnownIsBounded(s, r);
    hide Inv, Linear, RowMatches, ReplicaOk;
    var s1 := Next(s, Persist(r));
    InvStep(s, Persist(r));
    var s2 := Next(s1, Begin(r));
    InvStep(s1, Begin(r));
    assert s2.replicas[r].write.expected == |s2.commits| && s2.commits == s.commits;
    t := ExecuteCommits(s2, r);
    steps := [Persist(r), Begin(r), Execute(r)];
    assert steps[1..] == [Begin(r), Execute(r)] && steps[1..][1..] == [Execute(r)];
    assert Reaches(s1, [Begin(r), Execute(r)], t);
  }

  lemma ExecuteCommits(s: System, r: nat) returns (t: System)
    requires Inv(s) && Enabled(s, Execute(r)) && s.replicas[r].write.expected == |s.commits|
    ensures Reaches(s, [Execute(r)], t) && !NoneBy(r, t.commits, |s.commits|)
  {
    t := Next(s, Execute(r));
    WriteIsSound(s, r);
    InvGivesHistory(s);
    RunKeepsHistory(s, r, s.replicas[r].write.snapshot, s.replicas[r].write.expected);
    assert t.commits[|s.commits|].author == r;
  }

  ghost predicate WritesAgain(s: System, r: nat) {
    exists steps, t :: Reaches(s, steps, t) && !NoneBy(r, t.commits, |s.commits|)
  }

  lemma FencedNeverWrites(s: System, r: nat)
    requires Inv(s) && Fenced(s, r)
    ensures !WritesAgain(s, r)
  {
    forall steps, t | Reaches(s, steps, t)
      ensures NoneBy(r, t.commits, |s.commits|)
    {
      FencedForever(s, steps, t, r);
    }
  }

  /** Main result.  A serving replica commits again in some continuation exactly when it knows the newest version:
      having missed one version it never commits again, in any continuation. */
  lemma CommitsAgainIffCurrent(start: seq<Step>, s: System, r: nat)
    requires Reaches(Initial, start, s) && r in s.replicas && s.replicas[r].phase == Serving
    ensures WritesAgain(s, r) <==> s.replicas[r].Known() == |s.commits|
  {
    InvRun(Initial, start, s);
    KnownIsBounded(s, r);
    if Fenced(s, r) {
      FencedNeverWrites(s, r);
    } else {
      var steps, t := CurrentReplicaCommits(s, r);
    }
  }

  lemma KnownIsBounded(s: System, r: nat)
    requires Inv(s) && r in s.replicas
    ensures s.replicas[r].version <= s.replicas[r].Known() <= |s.commits|
  {
    assert ReplicaOk(r, s.replicas[r], s.commits);
  }

  /** A replica whose write committed but whose reply was lost is fenced by its own commit. */
  lemma LostReplyFences(s: System, r: nat)
    requires Inv(s) && Enabled(s, Lose(r)) && s.replicas[r].write.reply.Committed?
    ensures Fenced(Next(s, Lose(r)), r)
  {
    assert ReplicaOk(r, s.replicas[r], s.commits);
  }

  function Alone(row: Option<Row>, x: Replica, commits: seq<Commit>, calls: seq<(nat, History)>): System {
    System(row, map[0 := x], [], commits, calls, [])
  }

  function LostReplySteps(m: Mutation): seq<Step> {
    [Join(0, []), Load(0), Mutate(0, m), Persist(0), Begin(0), Execute(0)]
  }

  /** The system after so many of these steps. */
  function Stage(m: Mutation, i: nat): System {
    if i == 0 then Initial
    else if i == 1 then Alone(None, Replica(Starting, [], 0, [], Idle), [], [])
    else if i == 2 then Alone(None, Replica(Serving, [], 0, [], Idle), [], [])
    else if i == 3 then Alone(None, Replica(Serving, [m], 0, [], Idle), [], [])
    else if i == 4 then Alone(None, Replica(Serving, [m], 0, [Capture(0, [m])], Idle), [], [(0, [m])])
    else if i == 5 then Alone(None, Replica(Serving, [m], 0, [], InFlight(0, [m], 0, Pending)), [], [(0, [m])])
    else Alone(Some(Row([m], 1)), Replica(Serving, [m], 0, [], InFlight(0, [m], 0, Committed(1))), [Commit(0, [m])],
               [(0, [m])])
  }

  lemma StageStep(m: Mutation, i: nat)
    requires i < 6
    ensures Enabled(Stage(m, i), LostReplySteps(m)[i]) && Next(Stage(m, i), LostReplySteps(m)[i]) == Stage(m, i + 1)
  {
    var s, step := Stage(m, i), LostReplySteps(m)[i];
    assert [] + [m] == [m] && [] + [(0, [m])] == [(0, [m])] && [] + [Capture(0, [m])] == [Capture(0, [m])];
    var t, u := Next(s, step), Stage(m, i + 1);
    assert t.replicas.Keys == {0} && u.replicas.Keys == {0};
    if i == 3 {
      assert t.replicas[0].queue == u.replicas[0].queue;
    } else if i == 4 {
      assert s.replicas[0].queue[1..] == [];
    }
    assert t.replicas[0] == u.replicas[0];
    assert t.replicas == u.replicas;
  }

  lemma {:induction false} StagesReach(m: Mutation, i: nat)
    requires i <= 6
    ensures Reaches(Stage(m, i), LostReplySteps(m)[i..], Stage(m, 6))
    decreases 6 - i
  {
    hide Next, Enabled, Stage;
    var steps := LostReplySteps(m);
    if i < 6 {
      StageStep(m, i);
      StagesReach(m, i + 1);
      assert steps[i..][0] == steps[i] && steps[i..][1..] == steps[i + 1..];
    }
  }

  /** A run to that point: one replica loads, mutates and persists, its statement commits, and the reply is lost. The
      row then holds what it wrote, nobody else has written, and it never commits again. */
  lemma LostReplyRun(m: Mutation)
    ensures var s := Stage(m, 6);
            && Reaches(Initial, LostReplySteps(m), s) && Enabled(s, Lose(0)) && s.row == Some(Row([m], 1))
            && Next(s, Lose(0)).replicas[0].phase == Serving && !WritesAgain(Next(s, Lose(0)), 0)
  {
    hide WritesAgain, Reaches;
    StagesReach(m, 0);
    assert LostReplySteps(m)[0..] == LostReplySteps(m);
    NeverAgain(Stage(m, 6), LostReplySteps(m));
  }

  lemma NeverAgain(s: System, steps: seq<Step>)
    requires Reaches(Initial, steps, s) && Enabled(s, Lose(0)) && s.replicas[0].write.reply.Committed?
    ensures 0 in Next(s, Lose(0)).replicas && Next(s, Lose(0)).replicas[0].phase == s.replicas[0].phase
    ensures !WritesAgain(Next(s, Lose(0)), 0)
  {
    hide Inv, WritesAgain, Fenced, Reaches;
    InvRun(Initial, steps, s);
    InvStep(s, Lose(0));
    LostReplyFences(s, 0);
    FencedNeverWrites(Next(s, Lose(0)), 0);
  }
}
