# Verification model of the control plane

A Dafny model of the state machines in the platform's control plane, with proofs of what they promise over whole runs.

Most components come in up to three parts: the state as a value with its operations as functions on it, a class with the
same fields whose methods update them in place and are proved to do exactly what the functions say, and lemmas about all
runs of the functions. Where the program awaits, a step ends and anything else may happen before the next one.

| files | component |
|---|---|
| SnapshotStore, Replication | replicas of platform-api persisting to one versioned row by compare-and-set |
| PlatformStore, StoreRecovery, StoreProofs, StoreRuns, StoreKeys, StoreEffects, StoreAcceptance, LiveStore | the platform's store: idempotent replies, API keys and the secrets they accept, snapshot and restore |
| TokenQuota, TokenProofs | token reservations on shared window objects with release closures |
| FixedWindow, RateLimit | fixed-window limiting |
| OutboxTable, OutboxProtocol, OutboxPublisher | outbox delivery: the table, any number of publishers on it, and the publisher's loops |
| Lease | leases on a Redis key |
| MediaOps, MediaControl, MediaProofs, MediaEffects, Retention | media resources, their idempotency, quotas, provider reports and deletion |
| AgentControl, AgentPlane, AgentProofs, AgentEffects | agent dispatches, workers, rules and claiming |
| ToolPolicy | the tool policy engine under interleaved callers |
| Ledger, LedgerProofs | usage, plans and invoices |
| Common, JsMap, Text, ColonKeys | options and results, insertion-ordered maps, text checks, colon-joined keys |

Conventions: times are integers in milliseconds; random ids, secrets, tokens and hashes are arguments that are new or
well formed by assumption; a request's fingerprint is the tuple of its fields or its JSON text; a JavaScript Map is a
sequence of distinct keys with a map. A synchronous method reads its clock once. What a network, a database or storage
answers is arbitrary.

## What the code does not promise

These came out of the proofs. Each is stated as a lemma in the table below, with the exact condition under which it
happens or a run that reaches it.

- A replica whose write committed but whose reply was lost can never write again, although nobody else wrote
  (`Replication.LostReplyFences`, `Replication.LostReplyRun`).
- Idempotency scopes and tool keys are joined with colons without escaping, so ids that contain colons can collide
  (`MediaProofs.EnvironmentsCollideIff`, `ToolPolicy.ToolKeysCollideIff`).
- `heartbeatWorker` checks environment and status only, so two workers can hold one dispatch
  (`AgentProofs.HeartbeatExclusiveIff`, `AgentProofs.TwoHoldersRun`).
- A claim on an outbox row ends with its transaction, so two publishers can work on one event, and a late failure revives
  a dead letter; the bound on claims holds for one publisher and fails for two under every configuration
  (`OutboxProtocol.ClaimsAreBounded`, `OutboxProtocol.TwoPublishersExceedTheBound`).
- Fixed windows allow almost twice the limit within one window length (`RateLimit.BoundIsReached`).
- Retention works on the expired jobs created first, so jobs that keep failing hold up the rest, and a job whose retention
  ran out long ago waits behind later-expiring ones created before it (`Retention.ProgressIff`).
- A status report can replace the object URI of a job already marked deleted (`MediaProofs.DeletedObjectReplacedIff`,
  `MediaProofs.ReplacedAfterDeletionRun`).
- `updateEnvironment` does not check the quota policy it is given; once it names a missing one, the store's own snapshot is
  refused at the next start (`StoreRuns.UnlinkedIff`, `StoreRuns.UnlinkedRun`).
- A revocation's reply holds no secret but is dropped from snapshots like those that do, so the same request is refused
  after a restart (`StoreRuns.SurvivesRestartIff`, `StoreRuns.RevocationNotReplayed`).
- Usage that arrives after its period was invoiced is never billed, and a voided invoice is not made again
  (`LedgerProofs.LateUsageIsNeverBilled`); a reused record id drops the earlier record
  (`LedgerProofs.ReusedIdReplacesRecord`).
- `addPlan` calls plans immutable in its error message but replaces prices under an unchanged effective date
  (`LedgerProofs.PlanUnchangedIff`, `LedgerProofs.PriceChangesUnderSameDate`).

## Model

| member | source | states |
|---|---|---|
| Replication.NoResolvedWriteIsLost | services/platform-api/src/server.ts:355-365 | for any number of replicas and any interleaving of loads, mutations, FIFO writes, conflicts, failed saves, lost replies, crashes and statements that run after they were given up on: the snapshot of every write that resolved is one of the row versions, and every later version, the current row included, extends it |
| Replication.CommitsAgainIffCurrent | services/platform-api/src/store-persistence.ts:37-52 | a serving replica commits again in some continuation if and only if it knows the newest version; having missed one it never commits again |
| Replication.FencedForever | services/platform-api/src/store-persistence.ts:37-52 | a replica that has missed a version stays in that position in every continuation and none of the later commits is its own |
| Replication.LostReplyFences | services/platform-api/src/store-persistence.ts:37-52 | a replica whose write committed but whose reply was lost is shut out by its own commit |
| Replication.PersistCapturesMemory | services/platform-api/src/server.ts:361-364 | a handler's snapshot holds all mutations made before persistStore was called, and every snapshot queued or being written before it is contained in it |
| Replication.ResolvedMeansAcknowledged | services/platform-api/src/server.ts:362-364 | a write that resolves acknowledges the call it was made for and the snapshot it carried, under the version it created |
| Replication.ResolvedMutationIsKept | services/platform-api/src/server.ts:361-364 | a mutation made before a persistStore call that resolves is in the row from then on, whatever any replica does before, in between or after |
| Replication.MutationReachesRow | services/platform-api/src/server.ts:355-365 | from the step in which a handler makes a mutation: once a later persistStore call of that still serving process has resolved, every row version begins with all its memory held before, then the mutation, then what its handlers added up to the call, in order |
| Replication.MemoryIsHistory | services/platform-api/src/server.ts:355-365 | a serving process's memory is what it was at any earlier moment followed by exactly the mutations its handlers have made since |
| Replication.LoadedIsTheRow | services/platform-api/src/store-persistence.ts:25-35 | a process starts serving with exactly the row's mutations and version |
| Replication.ResolvedSnapshotIsKept | services/platform-api/src/server.ts:361-364 | all that was in memory when persistStore was called is in the row from the moment the call has resolved |
| Replication.LostReplyRun | services/platform-api/src/store-persistence.ts:37-52 | a run to it from the start: one replica writes, the row holds what it wrote, the reply is lost, and it never commits again |
| Replication.InvStep | services/platform-api/src/server.ts:355-365 | every step keeps: the row is the last commit, each commit extends the previous one, and each replica's memory, queue and write extend the version it knows |
| Replication.Server.PersistStore | services/platform-api/src/server.ts:359-365 | captures the memory now and appends it to the queue |
| Replication.Server.ReceiveReply | services/platform-api/src/server.ts:362-364 | settles the write: the version moves only on success, and the next write may start in both cases |
| SnapshotStore.SnapshotTable.Execute | services/platform-api/src/store-persistence.ts:38-46 | the statement inserts a first row, replaces a row of the expected version, and otherwise changes nothing and returns no version |
| SnapshotStore.StorePersistence.Load | services/platform-api/src/store-persistence.ts:25-35 | the row's snapshot and version, or none and version 0 |
| SnapshotStore.StorePersistence.Save | services/platform-api/src/store-persistence.ts:37-52 | one compare-and-set on the adapter's version: table, version and verdict afterwards |
| ToolPolicy.SingleFlight | services/agent-control/src/tool-policy.ts:52-72 | under any interleaving a key has at most one run that is not settled |
| ToolPolicy.ExecutesAtMostOnce | services/agent-control/src/tool-policy.ts:64-66 | execute succeeds at most once per key, and no run of the key executes after that |
| ToolPolicy.FulfilledCallsAgree | services/agent-control/src/tool-policy.ts:52-72 | any two fulfilled calls of a key, at any two moments, got the same value, whatever reads, executes, puts and audits failed around them |
| ToolPolicy.RunsAreAuthorized | services/agent-control/src/tool-policy.ts:46-51 | every run was asked for by a call that has a key where one is required, key and trace of allowed length, approval where it is required and an allowed role, under that call's key |
| ToolPolicy.DeniedIff | services/agent-control/src/tool-policy.ts:41-51 | a call is admitted if and only if it has a key where one is required, both texts are of allowed length, it is approved where approval is required, and one of its roles is allowed; otherwise the first of these that fails is the error |
| ToolPolicy.ValuesAreNotInvented | services/agent-control/src/tool-policy.ts:52-72 | what a fulfilled call was given is a value an execute of its key returned or the result store had for the key |
| ToolPolicy.SettlesIff | services/agent-control/src/tool-policy.ts:60-72 | the exact steps that settle a call, with the value or failure it is then given |
| ToolPolicy.UndisturbedCallExecutes | services/agent-control/src/tool-policy.ts:52-70 | an admitted call of a key that is neither completed nor in flight, when nothing fails, executes the tool and is given its value |
| ToolPolicy.CompletedCallReplays | services/agent-control/src/tool-policy.ts:55-57 | an admitted call of a completed key is given the completed value without an execution |
| ToolPolicy.JoinsTheRunInFlight | services/agent-control/src/tool-policy.ts:52-54 | an admitted call of a key in flight starts no run and settles as that run does |
| ToolPolicy.ReplayFindsResult | services/agent-control/src/tool-policy.ts:55-57 | a replaying run always finds the completed result it is to return |
| ToolPolicy.ToolKeysCollideIff | services/agent-control/src/tool-policy.ts:50 | two policies have authorized calls with one key if and only if both allow some role and their tools are equal or one id extends the other by a colon and no more than a key of at most 128 characters can supply |
| ToolPolicy.InvStep | services/agent-control/src/tool-policy.ts:41-73 | every step keeps completed, inFlight and the runs in agreement |
| ToolPolicy.ToolPolicyEngine.Authorize | services/agent-control/src/tool-policy.ts:41-73 | denied exactly when one of the four conditions fails, with the error of the first; otherwise joins the run in flight or starts a run; the engine afterwards is the specified one |
| ToolPolicy.ToolPolicyEngine.AfterExecute | services/agent-control/src/tool-policy.ts:64-66 | a success is entered as completed before anything else is awaited; a failure only ends the run |
| ToolPolicy.ToolPolicyEngine.Finally | services/agent-control/src/tool-policy.ts:71-72 | the key leaves the in-flight table when its run has settled |
| ColonKeys.JoinIsInjective | services/agent-control/src/tool-policy.ts:50 | keys with colon-free heads are equal exactly when head and tail are |
| ColonKeys.HeadsCollideIff | services/media-ops/src/control.ts:55-57 | two heads admit a common key, for some tails, exactly when they are equal or one extends the other by a colon |
| MediaProofs.QuotaNeverExceeded | services/media-ops/src/control.ts:407-411 | after any run of creations, activations, callbacks, failures and deletions the requested, starting and active jobs of a limited kind do not exceed its maximum |
| MediaProofs.ResourcesEvolve | services/media-ops/src/control.ts:25-33 | between any two moments of a run a resource keeps its identity fields, its status moves along a path of allowed transitions, a terminal status does not move, and deletion marks stay |
| MediaProofs.ProviderAndDeletionMarks | services/media-ops/src/control.ts:379-401 | in every reachable state starting, active, draining and completed resources carry a non-empty provider id, and a deletion mark comes with evidence, an object URI and a terminal status |
| MediaProofs.DeletedObjectReplacedIff | services/media-ops/src/control.ts:331-369 | the exact condition under which an operation changes the object URI of a job already marked deleted |
| MediaProofs.ReplacedAfterDeletionRun | services/media-ops/src/control.ts:331-401 | a run to it from the start: create, activate, complete, delete and mark, then a report that replaces the object address |
| MediaProofs.TheObjectChanged | services/media-ops/src/control.ts:331-401 | before and after the last report of that run the mark and its evidence are the same and the object is another |
| MediaProofs.CreationRefinesFirsts | services/media-ops/src/control.ts:138-169 | for colon-free environment ids creation answers as the table "first request per kind, environment and key" does, and the table afterwards matches the idempotency entries and resources one to one |
| MediaProofs.FirstRequestWins | services/media-ops/src/control.ts:182-196 | for colon-free environment ids the same request replays to the same resource id after any run, and another request under its key is refused |
| MediaProofs.ScopeIsInjective | services/media-ops/src/control.ts:55-57 | with colon-free environment ids the scope string determines kind, environment and key |
| MediaProofs.EnvironmentsCollideIff | services/media-ops/src/control.ts:55-57 | accepted requests of one kind in two environments can share a scope string if and only if both ids are acceptable and they are equal or one extends the other by a colon not followed by a space |
| MediaProofs.ColonInEnvironmentCrossesOver | services/media-ops/src/control.ts:212-226 | a concrete run in which a colon in an environment id makes one environment replay another's job |
| MediaProofs.SnapshotRestores | services/media-ops/src/control.ts:72-124 | the snapshot of every reachable state is accepted and restores to an equal state |
| MediaProofs.RestoredTakesSameSnapshot | services/media-ops/src/control.ts:72-124 | a snapshot that is accepted is what the restored state would take, list order included |
| MediaProofs.TablesStep | services/media-ops/src/control.ts:126-401 | every operation keeps the tables well formed, within quota, and evolves each resource as promised |
| MediaControl.MediaOpsControl.Create | services/media-ops/src/control.ts:126-231 | replay, conflict, quota refusal or a new stored resource, with the whole state afterwards |
| MediaControl.MediaOpsControl.CountActive | services/media-ops/src/control.ts:407-411 | the loop counts exactly the active resources of the table |
| MediaControl.MediaOpsControl.Transition | services/media-ops/src/control.ts:233-243 | moves the status only along the transition table; an unchanged or forbidden status is a conflict and changes nothing |
| MediaControl.MediaOpsControl.Activate | services/media-ops/src/control.ts:281-311 | the specified activation, whose effect MediaEffects.ActivationIff states: provider id, object URI and retention are stored with the move to active |
| MediaControl.MediaOpsControl.ApplyProviderStatus | services/media-ops/src/control.ts:331-369 | the specified report, whose effect MediaEffects.ReportIff states; errors leave the state alone |
| MediaControl.MediaOpsControl.MarkEgressDeleted | services/media-ops/src/control.ts:391-401 | write-once deletion mark, for terminal jobs with an object only |
| MediaControl.MediaOpsControl.ListExpiredEgress | services/media-ops/src/control.ts:379-389 | the expired, not yet deleted jobs, in the order they were created |
| MediaControl.MediaOpsControl.Restore | services/media-ops/src/control.ts:74-124 | accepts exactly the acceptable snapshots; a rejected one leaves all six tables unchanged |
| Text.CheckedIff | services/media-ops/src/control.ts:35-47 | what the validators ask of a text: not empty, not too long, left as it is by trimming, no control character |
| MediaEffects.ActivationIff | services/media-ops/src/control.ts:281-311 | an activation goes through if and only if its data are well formed and the resource is there and requested; it stores the provider id and, for egress, the object and the retention it was given, and keeps each it was not given |
| MediaEffects.ReportIff | services/media-ops/src/control.ts:331-369 | a report goes through if and only if its data are well formed, the status is the same or may follow, and a started resource has or is given a provider id; it stores every field it was given and keeps the others |
| MediaEffects.StoresWhatItReturns | services/media-ops/src/control.ts:233-243 | an accepted operation stores the resource it returns in its place and touches no other |
| MediaEffects.MovesIff | services/media-ops/src/control.ts:321-329 | failing and completing: the exact statuses they are accepted in, and what they change |
| MediaEffects.DeletionIff | services/media-ops/src/control.ts:391-401 | a mark is accepted if and only if the job has an object and is marked or has ended; a new mark takes the time and the evidence and leaves the rest |
| MediaEffects.CreationIff | services/media-ops/src/control.ts:138-231 | a request under an unused scope is stored if and only if its kind is enabled, it is well formed and fewer jobs of its kind are active than the limit; the stored resource has all fields of the request, is requested and is last |
| MediaEffects.RequestIff | services/media-ops/src/control.ts:126-214 | what a well formed request of each kind is |
| MediaEffects.ParticipantIff | services/media-ops/src/control.ts:313-319 | a participant identity is set if and only if it is well formed and the call exists; nothing but it and the time of change differs |
| MediaEffects.ResultIff | services/media-ops/src/control.ts:274-279 | the result of an operation is kept under operation, environment, call and key, joined with colons |
| MediaEffects.AcceptedIff | services/media-ops/src/control.ts:74-113 | a snapshot is accepted if and only if ids are present, no id or key comes twice in its list, and every egress job has sound dates and evidence exactly with a mark |
| MediaEffects.CreatedDetail | services/media-ops/src/control.ts:150-162 | what a new call, ingress or egress is about; an egress starts without object, retention and mark |
| MediaEffects.SamePrintIff | services/media-ops/src/control.ts:182-186 | under one scope two requests have equal fingerprints exactly when they are equal |
| MediaEffects.MoveIff | services/media-ops/src/control.ts:25-33 | the transition table as a rule: one step on at a time, completion also from active, breaking off any time before the end |
| MediaEffects.JoinedIff | services/media-ops/src/control.ts:25-33 | a status can be reached from another exactly when it is the same or further on |
| MediaEffects.ListedIff | services/media-ops/src/control.ts:379-389 | in every reachable state a job is listed as expired if and only if it has ended, an accepted operation gave it an object, the last retention given to it has run out, and no accepted operation marked it deleted |
| MediaEffects.ListedInOrder | services/media-ops/src/control.ts:383-388 | the list keeps the order of creation |
| MediaEffects.ArchivedJobExpires | services/media-ops/src/control.ts:203-389 | from the start, any valid egress job activated with an object and a date and then completed is listed, alone, exactly from that date on |
| Retention.MediaRetentionWorker.ProcessBatch | services/media-ops/src/retention.ts:69-86 | the loop leaves the state and returns the count of the specified batch |
| Retention.BatchRemovesSuccesses | services/media-ops/src/retention.ts:69-86 | a batch removes from the expired list exactly the jobs whose deletion yielded usable evidence, and keeps the order of the rest |
| Retention.SuccessesIff | services/media-ops/src/retention.ts:69-80 | those jobs are the ones the loop got to, in a row from the first, whose deletion gave evidence of allowed length |
| Retention.BatchCounts | services/media-ops/src/retention.ts:69-86 | the number returned is that of the deletions that were marked and then persisted |
| Retention.ProgressIff | services/media-ops/src/retention.ts:69-86 | a batch shortens the expired list if and only if one of the first batchSize jobs in creation order succeeds: jobs that keep failing hold up those created after them, however long ago their retention ran out |
| Retention.PerfectBatch | services/media-ops/src/retention.ts:69-86 | when all attempts succeed a batch removes exactly min(batchSize, expired) jobs |
| Retention.ClearedAfter | services/media-ops/src/retention.ts:56-86 | and after ceil(n / batchSize) such batches none of n expired jobs is left |
| AgentProofs.ClaimMeetsDescription | services/agent-control/src/controller.ts:248-263 | a claim fails exactly the expired queued dispatches of the worker's environment, starts the best of the others for this worker, returns none exactly when there is none, and changes no other dispatch or worker list |
| AgentProofs.BestIff | services/agent-control/src/controller.ts:254-258 | the claimed id is the one with the smallest deadline, earliest inserted on ties, and no other id fits that description |
| AgentProofs.ListsNameStartedDispatches | services/agent-control/src/controller.ts:215-263 | after any run a worker's list is duplicate-free and names only dispatches of its environment that have left the queue |
| AgentProofs.StartedAtMostOnce | services/agent-control/src/controller.ts:290-307 | no dispatch is started twice in a run |
| AgentProofs.EndedStaysEnded | services/agent-control/src/controller.ts:318-333 | a dispatch that has ended is never changed again |
| AgentProofs.HeartbeatExclusiveIff | services/agent-control/src/controller.ts:233-246 | from an exclusive state a heartbeat keeps single ownership if and only if it reports nothing another worker holds |
| AgentProofs.AnyWorkerCanReportAHeldDispatch | services/agent-control/src/controller.ts:239-242 | any other worker of the environment can report a running dispatch and both then hold it |
| AgentProofs.TwoHoldersRun | services/agent-control/src/controller.ts:233-246 | a run to it from an empty plane: a dispatch is started by one worker, reported by another, and both hold it |
| AgentProofs.HoldersAreExclusive | services/agent-control/src/controller.ts:197-333 | in runs whose heartbeats report only free or own dispatches each dispatch has at most one holder and every held dispatch is running |
| AgentProofs.RuleConcurrencyHolds | services/agent-control/src/controller.ts:277-288 | with dispatches made by rules only, the open dispatches of a deployment never outnumber the largest maxConcurrent of the rules of its environment and artifact |
| AgentProofs.FirstRuleIsEarliest | services/agent-control/src/controller.ts:280-281 | the rule used is the first enabled one, in insertion order, that matches |
| AgentProofs.InvStep | services/agent-control/src/controller.ts:122-333 | every operation keeps the worker lists in order and evolves dispatches only forward |
| AgentPlane.AgentControlPlane.ClaimNextDispatch | services/agent-control/src/controller.ts:248-263 | the sorting, sweeping loop does what the specified claim does |
| AgentPlane.AgentControlPlane.SweepAndPick | services/agent-control/src/controller.ts:252-262 | the loop over the sorted candidates fails the expired ones it meets and stops at the best |
| AgentPlane.AgentControlPlane.StartDispatch | services/agent-control/src/controller.ts:290-307 | starts a queued, unexpired dispatch of the worker's environment, or changes nothing |
| AgentPlane.AgentControlPlane.FinishDispatch | services/agent-control/src/controller.ts:318-333 | ends an active dispatch its worker holds and drops it from that list |
| AgentPlane.AgentControlPlane.CancelDispatch | services/agent-control/src/controller.ts:197-213 | cancels and drops the dispatch from every list |
| AgentPlane.AgentControlPlane.HeartbeatWorker | services/agent-control/src/controller.ts:233-246 | replaces the list by the reported ids, each once, if all may be reported |
| AgentPlane.AgentControlPlane.RegisterWorker | services/agent-control/src/controller.ts:215-231 | registration keeps the list of a known worker |
| AgentPlane.AgentControlPlane.RegisterRule | services/agent-control/src/controller.ts:265-275 | validation in the order of the source, then the rule is stored |
| AgentPlane.AgentControlPlane.TriggerDispatch | services/agent-control/src/controller.ts:277-288 | first matching rule, first live deployment, quota, then a dispatch |
| AgentPlane.AgentControlPlane.CountOpen | services/agent-control/src/controller.ts:285-286 | counts exactly the open dispatches of the deployment |
| AgentEffects.StartIff | services/agent-control/src/controller.ts:290-307 | a start is accepted if and only if the worker is ready, the dispatch is queued, both are of one environment and the deadline is to come; the errors otherwise; the dispatch then runs and is on the worker's list |
| AgentEffects.FinishIff | services/agent-control/src/controller.ts:309-333 | completing or failing is accepted if and only if the dispatch is active, of the worker's environment and on its list; it ends as asked and leaves the list |
| AgentEffects.CancelIff | services/agent-control/src/controller.ts:197-213 | a cancellation is accepted if and only if the dispatch has not ended and the worker, if one is named, holds it; it leaves every list |
| AgentEffects.HeartbeatIff | services/agent-control/src/controller.ts:233-246 | a heartbeat is accepted if and only if all it reports are at most 100 well formed ids of active dispatches of the worker's environment; the list is then those ids, each once |
| AgentEffects.RegistrationIff | services/agent-control/src/controller.ts:215-231 | registration: the exact conditions, and that a known worker keeps its list |
| AgentEffects.DispatchIff | services/agent-control/src/controller.ts:177-195 | a dispatch is queued if and only if its deployment is of its environment, neither failed nor rolled back, and the deadline is to come |
| AgentEffects.TriggerIff | services/agent-control/src/controller.ts:277-288 | with the earliest matching rule and the earliest live deployment of its artifact, a trigger queues a dispatch for that deployment if and only if fewer than maxConcurrent dispatches of it are open and the deadline is to come |
| AgentEffects.TriggerNeedsBoth | services/agent-control/src/controller.ts:280-283 | a trigger that succeeds has such a rule and such a deployment |
| AgentEffects.TriggerRefused | services/agent-control/src/controller.ts:277-281 | a trigger is not found exactly when its texts are well formed and no enabled rule of the environment is for it |
| AgentEffects.TriggerUnserved | services/agent-control/src/controller.ts:282-283 | and denied exactly when the governing rule has no canary or active deployment of its artifact |
| AgentEffects.RuleIff | services/agent-control/src/controller.ts:265-275 | the exact conditions for a rule to be stored |
| AgentEffects.DeployIff | services/agent-control/src/controller.ts:136-155 | the exact conditions for a deployment and the deployment stored |
| AgentEffects.ObserveAndRollBackIff | services/agent-control/src/controller.ts:157-175 | what observing replicas and rolling back do to a deployment |
| AgentEffects.StartsInTime | services/agent-control/src/controller.ts:248-307 | a dispatch is only started before its deadline, for a ready worker of its environment, which then holds it |
| AgentEffects.EveryChangeHasACause | services/agent-control/src/controller.ts:197-333 | a dispatch runs only because it was started, completes or fails only because a worker that holds it says so, fails otherwise only because its deadline passed in the queue, and is cancelled only by request |
| AgentEffects.CompletedWasStarted | services/agent-control/src/controller.ts:290-333 | in every run a dispatch that runs or has completed was started by a step of the run |
| OutboxProtocol.ClaimsAreBounded | services/platform-api/src/outbox-publisher.ts:68-116 | a sole publisher claims an event at most maxAttempts times, plus once per effective requeue and once per claim whose outcome was never stored |
| OutboxProtocol.DeadExactlyWhenUsedUp | services/platform-api/src/outbox-publisher.ts:93-98 | without requeues and lost writes an unpublished event nobody works on is a dead letter if and only if it was claimed maxAttempts times |
| OutboxProtocol.PublishedIsFinal | services/platform-api/src/postgres-persistence.ts:290-324 | with any number of publishers a published row never changes again and is never claimed again |
| OutboxProtocol.AttemptsCountClaims | services/platform-api/src/postgres-persistence.ts:303-304 | the attempt count of a row is the number of times it was claimed |
| OutboxProtocol.LateFailureRevives | services/platform-api/src/postgres-persistence.ts:317-324 | a failure written late by a second publisher on an earlier attempt makes a dead letter claimable again |
| OutboxProtocol.TwoPublishersExceedTheBound | services/platform-api/src/postgres-persistence.ts:290-324 | under every valid configuration there is a run of two publishers, without requeues or lost writes, in which an event is claimed once more than maxAttempts |
| OutboxProtocol.BackoffGrows | services/platform-api/src/outbox-publisher.ts:96 | delays never shrink, stay between the base delay and five minutes, and double until they reach it |
| OutboxProtocol.ClaimedIsDue | services/platform-api/src/postgres-persistence.ts:295-301 | what is claimed was unpublished, no dead letter, due and not locked |
| OutboxProtocol.ClaimIsOrdered | services/platform-api/src/postgres-persistence.ts:298-301 | a claim names each event once, oldest first, and at most as many as its limit |
| OutboxProtocol.LostIff | services/platform-api/src/outbox-publisher.ts:68-114 | what counts as a lost outcome in the bound on claims: an answer to a claim that did not arrive, or an event let go with nothing stored |
| OutboxProtocol.DueIsClaimed | services/platform-api/src/postgres-persistence.ts:295-311 | a due row is claimed, or the claim is full of rows no younger |
| OutboxProtocol.RequeueIff | services/platform-api/src/postgres-persistence.ts:326-335 | a requeue acts on unpublished dead letters only, which are then due at once |
| OutboxProtocol.FailureIsNotRetriedEarly | services/platform-api/src/outbox-publisher.ts:93-98 | after a failed attempt an event is not claimed before its delay has passed, and after its last not at all, unless it is requeued or an earlier attempt fails late |
| OutboxProtocol.FirstBackoff | services/platform-api/src/outbox-publisher.ts:96 | the delay after the first failure is the base delay, at most five minutes |
| OutboxProtocol.InvStep | services/platform-api/src/outbox-publisher.ts:68-116 | every step of a sole publisher keeps the bound and the attempt numbers of events in hand |
| OutboxTable.OutboxEvents.SelectDue | services/platform-api/src/postgres-persistence.ts:295-301 | the oldest due rows that are not locked, oldest first, as many as the limit allows |
| OutboxTable.OutboxEvents.ClaimOutbox | services/platform-api/src/postgres-persistence.ts:290-311 | hands out those rows as they were and raises their attempt counts in the same transaction; an unanswered claim may have happened |
| OutboxTable.OutboxEvents.MarkOutboxPublished | services/platform-api/src/postgres-persistence.ts:313-315 | sets the publication time once |
| OutboxTable.OutboxEvents.MarkOutboxFailed | services/platform-api/src/postgres-persistence.ts:317-324 | stores error, next attempt and dead-letter time unless published |
| OutboxTable.OutboxEvents.RequeueOutbox | services/platform-api/src/postgres-persistence.ts:326-335 | only an unpublished dead letter becomes claimable again |
| OutboxPublisher.DeliveriesPerClaim | services/platform-api/src/outbox-publisher.ts:74-91 | per claim and per entry of the destination list the provider gave: an entry subscribed to the event gets at most maxAttempts requests and accepts at most once, exactly once whenever the event was delivered; an entry not subscribed gets none |
| OutboxPublisher.OutcomeIff | services/platform-api/src/outbox-publisher.ts:72-114 | the event is marked published exactly when the list was usable and every subscribed destination accepts one of its first maxAttempts requests; the exact condition of each other outcome, with the destination that gave up |
| OutboxPublisher.WaitsAre | services/platform-api/src/outbox-publisher.ts:85 | the wait after each refused request is the base delay doubled with each attempt, at most five minutes |
| OutboxPublisher.RowAfterEvent | services/platform-api/src/outbox-publisher.ts:92-105 | the row afterwards: published at that time, or unpublished with the error cut to 2048 characters and dead if this was the last attempt and due after the doubled delay if not |
| OutboxPublisher.Publisher.PublishBatch | services/platform-api/src/outbox-publisher.ts:68-116 | claims, then works off one event after another: published plus failed is the batch size, the log of requests is that of the records, and all table changes together are a run of the protocol |
| OutboxPublisher.Publisher.WorkOff | services/platform-api/src/outbox-publisher.ts:72-114 | the loop over the claimed events: one record each, in order, with the table, the log and the notes they amount to |
| OutboxPublisher.Publisher.PublishEvent | services/platform-api/src/outbox-publisher.ts:73-114 | one event: its deliveries, the mark published or failed, and the local note |
| OutboxPublisher.Publisher.DeliverTo | services/platform-api/src/outbox-publisher.ts:76-88 | up to maxAttempts requests, the waits between them, and whether the last was accepted |
| OutboxPublisher.Publisher.DeliverAll | services/platform-api/src/outbox-publisher.ts:75-89 | destination after destination, until one refuses for good |
| OutboxPublisher.Publisher.RequeueDeadLetter | services/platform-api/src/outbox-publisher.ts:61-66 | requeues in the table and drops the local note, or changes nothing |
| StoreProofs.SnapshotAccepted | services/platform-api/src/platform-store.ts:147-237 | for every reachable store, its usage, audit and outbox tables and restarts included: its snapshot is accepted if and only if no id is empty, no environment names a missing quota policy and all cache keys and fingerprints fit; it restores to the same store with api-key replies turned into tombstones |
| StoreProofs.SecondSnapshotSame | services/platform-api/src/platform-store.ts:147-169 | the snapshot taken after a restart has the same content as the first, up to the order of the replies |
| StoreProofs.RecoveryIsStable | services/platform-api/src/platform-store.ts:147-237 | a recovered store is restorable again and a second restart changes nothing |
| StoreProofs.MintedOnce | services/platform-api/src/platform-store.ts:698-716 | under one idempotency key at most one API key secret is ever issued, over any run with any restarts |
| StoreProofs.TombstonesConflict | services/platform-api/src/platform-store.ts:698-706 | after a restart, in every later state, repeating a request that issued a secret is a conflict |
| StoreProofs.RepliesSurvive | services/platform-api/src/platform-store.ts:698-716 | a reply whose cache key does not start with api-key is replayed unchanged to the same request for ever, restarts included, and a different request under its key is refused |
| StoreRuns.SurvivesRestartIff | services/platform-api/src/platform-store.ts:162-167 | a kept reply without a secret is still given after a restart if and only if its cache key does not start with api-key |
| StoreRuns.RevocationNotReplayed | services/platform-api/src/platform-store.ts:459-476 | its input: a revocation, sent again, is answered before a restart and refused after it |
| StoreRuns.RevocationRun | services/platform-api/src/platform-store.ts:459-476 | that input as a run from an empty store whose snapshot is accepted |
| StoreRuns.UnlinkedIff | services/platform-api/src/platform-store.ts:578-595 | the one step that leaves an environment with a missing quota policy is an accepted update naming one |
| StoreRuns.UnlinkedRun | services/platform-api/src/platform-store.ts:578-595 | two steps from an empty store, a seed and such an update: the snapshot is accepted before the update and refused after it |
| StoreRuns.KeysStayInScope | services/platform-api/src/platform-store.ts:402-433 | for scopes without colons a key request is answered, at once or in a replay, with a key of the scope it names |
| StoreRuns.WindowsAreShown | services/platform-api/src/platform-store.ts:597-621 | along every run up to a restart the table a snapshot saves shows each environment the values of its current window object, whose count is that of its unreleased handles |
| StoreProofs.SnapshotHoldsNoSecret | services/platform-api/src/platform-store.ts:162-167 | no reply in a snapshot holds a secret |
| StoreProofs.InvStep | services/platform-api/src/platform-store.ts:239-595 | every operation keeps ids, references, hashes, windows and replies in order and forgets no key |
| StoreProofs.SnapshotRestores | services/platform-api/src/platform-store.ts:147-237 | restore of snapshot, as one equation |
| StoreRecovery.ReadTableBack | services/platform-api/src/platform-store.ts:177-187 | a table reads back from its list, unless an id is empty |
| StoreRecovery.ReplaysBack | services/platform-api/src/platform-store.ts:225-236 | the kept replies read back as answers, fingerprints and tombstones, unless a key or fingerprint does not fit |
| LiveStore.PlatformStore.CachedReply | services/platform-api/src/platform-store.ts:698-707 | replay, conflict or nothing kept |
| LiveStore.PlatformStore.SaveIdempotency | services/platform-api/src/platform-store.ts:709-716 | keeps reply and fingerprint and clears a tombstone |
| LiveStore.PlatformStore.CreateApiKey | services/platform-api/src/platform-store.ts:402-433 | scope check, replay, then the record, the hash and the kept reply |
| LiveStore.PlatformStore.RotateApiKey | services/platform-api/src/platform-store.ts:435-457 | the specified rotation, whose effect StoreKeys.RotationIff states |
| LiveStore.PlatformStore.RevokeApiKey | services/platform-api/src/platform-store.ts:459-476 | revoked record; both hashes are gone |
| LiveStore.PlatformStore.ResolveApiKeyCredential | services/platform-api/src/platform-store.ts:484-506 | the loop answers with the first key whose hash or unexpired grace hash matches, if it is active and not expired, and notes the use |
| StoreKeys.RotationIff | services/platform-api/src/platform-store.ts:435-457 | a rotation that is no replay goes through if and only if the key is active; the new hash replaces the old one, which goes to the grace table until now plus the grace period if there is one; no other key is touched |
| StoreKeys.RevocationIff | services/platform-api/src/platform-store.ts:459-476 | a revocation that is no replay goes through if and only if the key exists; neither table holds a hash of it afterwards |
| StoreKeys.CreationIff | services/platform-api/src/platform-store.ts:402-433 | a key request that is no replay goes through if and only if the environment is in the scope named; the fields of the key and its hash |
| StoreKeys.RotationHandsOver | services/platform-api/src/platform-store.ts:435-506 | over runs with restarts: after a rotation the new secret is taken, and the one before it up to and not including the end of the grace, while the key is left alone and not expired |
| StoreKeys.CreatedSecretIsGood | services/platform-api/src/platform-store.ts:402-506 | over runs with restarts: the secret of a new key opens its scope with the scopes asked for until the key expires, while it is neither rotated nor revoked |
| StoreKeys.RevokedSecretIsDead | services/platform-api/src/platform-store.ts:459-506 | over runs with restarts: no secret of a revoked key is ever taken again |
| StoreKeys.RevokedForever | services/platform-api/src/platform-store.ts:435-476 | a revoked key stays revoked and without hashes in every continuation |
| LiveStore.PlatformStore.CreateTenant | services/platform-api/src/platform-store.ts:300-318 | replay, conflict, or a new trial tenant whose reply is kept |
| LiveStore.PlatformStore.CreateProject | services/platform-api/src/platform-store.ts:320-348 | tenant checks before the replay, slug check after it |
| LiveStore.PlatformStore.CreateEnvironment | services/platform-api/src/platform-store.ts:350-387 | the environment and a default quota policy under its id |
| LiveStore.PlatformStore.CreateMember | services/platform-api/src/platform-store.ts:512-539 | replay, duplicate check, new member |
| LiveStore.PlatformStore.UpdateMember | services/platform-api/src/platform-store.ts:541-553 | roles and status given are changed, the rest stays |
| LiveStore.PlatformStore.UpdateEnvironment | services/platform-api/src/platform-store.ts:578-595 | version check, retired check, update; the quota policy id is not checked |
| LiveStore.PlatformStore.Seed | services/platform-api/src/platform-store.ts:239-298 | an environment with all it refers to, unless it exists |
| LiveStore.PlatformStore.Restore | services/platform-api/src/platform-store.ts:170-237 | accepts exactly what the specified restore accepts; a snapshot refused for its tables changes nothing, one refused later leaves exactly what was read before the first refused entry |
| StoreAcceptance.RestoreIff | services/platform-api/src/platform-store.ts:170-237 | any snapshot whatever is restored if and only if every record has an id of its own and what it refers to is there, hashes are 64 hexadecimal digits, times and counts are safe whole numbers, and replies have keys and fingerprints that fit |
| StoreAcceptance.TablesIff | services/platform-api/src/platform-store.ts:170-202 | its tables are accepted if and only if ids are present and distinct and every reference is met |
| StoreAcceptance.TableIff | services/platform-api/src/platform-store.ts:177-187 | a list is read if and only if its ids are present and distinct, and then into a table of exactly its values in its order |
| StoreAcceptance.LastPairWins | services/platform-api/src/platform-store.ts:215-226 | a key that comes twice in a list of pairs is read with its last value |
| StoreAcceptance.LeftBehind | services/platform-api/src/platform-store.ts:203-237 | a restore refused after its tables were accepted leaves exactly what restoring the part before the first refused entry would have left |
| LiveStore.PlatformStore.RecordUsage | services/platform-api/src/platform-store.ts:648-655 | the first record under a dedupe key wins |
| LiveStore.PlatformStore.AppendAudit | services/platform-api/src/platform-store.ts:666-688 | the event and its outbox entry are added together |
| StoreEffects.TenantEntered | services/platform-api/src/platform-store.ts:300-318 | a new tenant is on trial, with the given values or the defaults, and its reply is kept |
| StoreEffects.ProjectIff | services/platform-api/src/platform-store.ts:320-348 | a project is entered if and only if its tenant is on trial or subscribed and has no project of that slug; errors and fields |
| StoreEffects.EnvironmentIff | services/platform-api/src/platform-store.ts:350-387 | an environment is entered if and only if its project is of its tenant; fields, defaults and the policy it comes with |
| StoreEffects.MemberIff | services/platform-api/src/platform-store.ts:512-539 | a member is entered if and only if the tenant exists and all members with that subject were removed |
| StoreEffects.MemberUpdateIff | services/platform-api/src/platform-store.ts:541-553 | an update of a member changes what is given and nothing else |
| StoreEffects.EnvironmentUpdateIff | services/platform-api/src/platform-store.ts:578-595 | an update of an environment needs its version and one that is not retired, and changes what is given and nothing else |
| StoreEffects.OnlyOneUpdate | services/platform-api/src/platform-store.ts:582-583 | of two updates made against one version the second is refused |
| StoreEffects.SeedIff | services/platform-api/src/platform-store.ts:239-298 | seeding makes an environment and all it refers to, or changes nothing |
| StoreEffects.UsageIff | services/platform-api/src/platform-store.ts:648-655 | usage under a known dedupe key is answered with the first record under it; any other is entered |
| StoreEffects.AuditEntered | services/platform-api/src/platform-store.ts:666-688 | the event and an outbox entry that carries it |
| StoreProofs.CountingIsReserving | services/platform-api/src/platform-store.ts:597-615 | counting a token on the values a snapshot holds and on the shared window objects gives the same verdict and the same values |
| StoreEffects.CountRefused | services/platform-api/src/platform-store.ts:597-602 | why counting a token is refused before its window is looked at |
| StoreProofs.ReleasingShows | services/platform-api/src/platform-store.ts:616-620 | a release shows in the table exactly when its window is still some environment's |
| TokenProofs.ConcurrentIsOutstanding | services/platform-api/src/platform-store.ts:613-620 | after any run a window's concurrent count is the number of its unreleased handles and its request count the number it issued |
| TokenProofs.ReleaseIsExact | services/platform-api/src/platform-store.ts:616-620 | a first release lowers its own window by exactly one (the clamp at zero never acts), touches no other window, and a second release does nothing |
| TokenProofs.WithinPolicy | services/platform-api/src/platform-store.ts:610-612 | no window counts more requests at a time than the largest policy used |
| TokenProofs.TokensInAnyStretch | services/platform-api/src/platform-store.ts:603-615 | under a constant limit any k minutes hold fewer than (k + 1) * limit grants of an environment |
| TokenProofs.GrantedIff | services/platform-api/src/platform-store.ts:597-621 | in every reachable state a reservation is granted if and only if the handles its current window issued are below the request limit and the unreleased ones below the concurrency limit, or the environment has no window younger than a minute and both limits are at least one |
| TokenQuota.TokenReservations.PolicyOf | services/platform-api/src/platform-store.ts:597-602 | a reservation has a policy if and only if the environment is in the scope named, active, and its policy exists; an inactive one is the only authorization failure |
| TokenQuota.TokenReservations.ReserveToken | services/platform-api/src/platform-store.ts:597-621 | errors, rollover, refusal or a counted request, on shared window objects; the handle returned refers to the window counted in |
| TokenQuota.TokenReservations.CallRelease | services/platform-api/src/platform-store.ts:616-620 | what a closure does to the window object it captured, wherever that object is referenced |
| FixedWindow.StretchBound | services/platform-api/src/rate-limit.ts:23-30 | fixed windows: k window lengths hold fewer than (k + 1) * limit grants |
| RateLimit.AllowedInAnyStretch | services/platform-api/src/rate-limit.ts:23-37 | with a clock that never goes back, any k window lengths hold fewer than (k + 1) * limit allowed checks of a key |
| RateLimit.BoundIsReached | services/platform-api/src/rate-limit.ts:23-37 | and a run that reaches (k + 1) * limit - 1, so the bound is exact: almost twice the limit in one window length |
| RateLimit.WindowCountsChecks | services/platform-api/src/rate-limit.ts:23-30 | a key's window counts every check of the key since it opened, refused ones too, and opened with one of them |
| RateLimit.RefusedMeans | services/platform-api/src/rate-limit.ts:23-37 | a refused check follows at least limit checks of its key within the last window length, in a window that has not run out |
| RateLimit.PlatformRateLimiter.Check | services/platform-api/src/rate-limit.ts:23-37 | the window counted in, the verdict, what remains and when it resets |
| Lease.OneLeasePerKey | services/platform-api/src/redis-coordination.ts:14-25 | of the leases on a key at most one is neither released nor expired, over all timed runs with unique tokens, lost replies and delayed releases |
| Lease.LateReleaseSparesOthers | services/platform-api/src/redis-coordination.ts:19-25 | a release that arrives late leaves every other unexpired lease its entry |
| Lease.ClientsNeverOverlap | services/platform-api/src/redis-coordination.ts:41-61 | if clients read their clock no later than the server runs the script, no client outlives its entry and no two hold a key by their own reckoning |
| Lease.AFastClockOverlaps | services/platform-api/src/redis-coordination.ts:49-53 | with a clock ahead of the server's two clients can hold a key at once |
| Lease.AcquiredIff | services/platform-api/src/redis-coordination.ts:14-17 | a request is given the key if and only if the key has no unexpired entry; entry and lease then end their time to live from the server's and the client's clock |
| Lease.ReleaseFreesKey | services/platform-api/src/redis-coordination.ts:19-25 | a release that reaches the server before the entry has expired frees the key, and the next request for it is given it; a later one changes nothing |
| Lease.GivenBack | services/platform-api/src/redis-coordination.ts:54-59 | giving back a lease takes its entry away when the release arrives; giving it back again sends nothing |
| Lease.RedisLeaseStore.Acquire | services/platform-api/src/redis-coordination.ts:41-61 | validation, SET NX PX, and a lease exactly when the script ran, answered and stored |
| Lease.RedisLease.Release | services/platform-api/src/redis-coordination.ts:54-59 | asks the server once only; later calls return false and do nothing |
| Lease.RedisServer.EvalAcquire | services/platform-api/src/redis-coordination.ts:14-17 | SET NX PX: stores exactly when no unexpired entry is there |
| Lease.RedisServer.EvalRelease | services/platform-api/src/redis-coordination.ts:19-25 | deletes exactly an unexpired entry with this token |
| LedgerProofs.OneInvoicePerPeriod | services/billing/src/ledger.ts:65-66 | a tenant has at most one invoice per period |
| LedgerProofs.BilledOnce | services/billing/src/ledger.ts:54-79 | no dedupe key is billed on two lines, of one invoice or of two |
| LedgerProofs.TotalsAddUp | services/billing/src/ledger.ts:68-92 | through all status changes each line is one of its usage records at a non-negative price, the total is the sum of the lines, and it differs from the exact sum by at most half a fen per line |
| LedgerProofs.LateUsageIsNeverBilled | services/billing/src/ledger.ts:65-67 | usage not on the invoice of its tenant and period is never billed afterwards, even if that invoice is voided |
| LedgerProofs.NewInvoiceIsComplete | services/billing/src/ledger.ts:67-79 | a new invoice bills every record of its tenant and period the ledger holds, and nothing else |
| LedgerProofs.ReusedIdReplacesRecord | services/billing/src/ledger.ts:51-59 | recording keeps all earlier records billable if and only if the record id is new |
| LedgerProofs.PlanUnchangedIff | services/billing/src/ledger.ts:28-33 | a plan is accepted under a known id if and only if it is valid and has the same effective date, and the stored plan is then unchanged if and only if the new one equals it |
| LedgerProofs.PriceChangesUnderSameDate | services/billing/src/ledger.ts:28-33 | its input: a usage recorded at 1 fen a minute is billed at 2, after the plan was added again with another price and the same date |
| LedgerProofs.EffectiveDateStays | services/billing/src/ledger.ts:28-33 | over every run a plan keeps its effective date |
| LedgerProofs.InvoicesKeepTheirPrices | services/billing/src/ledger.ts:61-92 | invoices already made keep their lines, prices and total over every run, plan changes included |
| LedgerProofs.InvoiceIff | services/billing/src/ledger.ts:61-92 | an invoice is made if and only if tenant, month and plan are given and there is none yet; its lines bill, in order, exactly the usage held for that tenant and month, each at the plan's price for its metric or at zero, rounded to the nearest fen |
| LedgerProofs.StatusTurnsIff | services/billing/src/ledger.ts:94-104 | a status changes exactly from draft to issued, from issued to paid, and from draft or issued to void, on request |
| LedgerProofs.UsageIff | services/billing/src/ledger.ts:51-59 | usage is accepted with a quantity that is not negative and a dedupe key of 1 to 256 characters; only the first under a key is entered |
| LedgerProofs.PlanIff | services/billing/src/ledger.ts:12-33 | a plan is accepted exactly in CNY, from a month on, with allowances and prices that are not negative, and under a known id only with the date it had |
| LedgerProofs.PeriodIff | services/billing/src/ledger.ts:62 | the accepted billing periods are exactly the months of the years 0 to 9999 written yyyy-mm |
| LedgerProofs.InvStep | services/billing/src/ledger.ts:28-141 | every operation keeps records, dedupe table and invoices in agreement |
| Ledger.UsageLedger.RecordUsage | services/billing/src/ledger.ts:51-59 | validation, dedupe, then both tables |
| Ledger.UsageLedger.IssueInvoice | services/billing/src/ledger.ts:61-92 | errors, the existing invoice, or a new draft from all matching records |
| Ledger.UsageLedger.TransitionInvoice | services/billing/src/ledger.ts:134-141 | changes the status only from an allowed one, and nothing else |
| Ledger.UsageLedger.AddPlan | services/billing/src/ledger.ts:28-33 | valid plans only, and no other effective date for a known id |

## Left out

- HTTP routing, authentication, request parsing, the console, the command line, container tooling, the media SDK adapters and the room connectors: input and output around the modelled state.
- Hashes, signatures, random numbers and key management are not modelled; a hash is a well-formed text given with its secret.
- Replication.Server.PersistStore: one promise chain per replica; the second queue of the retention worker and the saves of agent-control that are not queued at all have no order against it and are not modelled. The store's contents are the list of mutations applied to it.
- Replication.NoResolvedWriteIsLost: about writes that `persistStore` resolved; routes that reply without calling it acknowledge nothing in this sense.
- AgentControl's snapshot and restore, artifact fields, canary percentages after deployment, and failure reasons: copied, not decided on. "Rolled back" is not final, since `reconcile` can set a deployment active again; nothing is claimed about it.
- AgentProofs.HoldersAreExclusive: under the stated condition on heartbeats only; an empty heartbeat also drops a claim without ending the dispatch.
- AgentProofs.RuleConcurrencyHolds: `dispatch` called directly does not look at rules, so the bound is for dispatches made by rules.
- MediaOps: findings by idempotency key and listings by environment are lookups and not repeated; operation results are stored and snapshotted but not otherwise used. Raw calls of `transition` to starting or active are outside the runs.
- Retention.ClearedAfter: with the clock held fixed and no other steps in between; batches with failures are covered by BatchRemovesSuccesses and ProgressIff.
- OutboxPublisher.Publisher.PublishBatch: taken alone; steps of other publishers and requeues in between are those of OutboxProtocol. Payloads, signatures and the polling worker around the batch are left out. Isolation below "one statement, one step" is not modelled.
- OutboxTable.OutboxEvents.SelectDue: rows of equal age come in some order, as in SQL; rows locked by others are given.
- LiveStore.PlatformStore.UpdateEnvironment and the other operations keep every field they read or set; of quota policies only the two token limits are kept, and of usage and audit records the ids, the dedupe key and one text for the rest.
- StoreKeys.RotationHandsOver and the results beside it: secrets and key ids are random, so a new one is none that is in the store; the comparison of hashes in constant time is an equality.
- TokenProofs.WithinPolicy: per window; the number of tokens outstanding across a rollover starts again at zero by design.
- StoreRuns.WindowsAreShown: up to a restart, since handles from before it refer to windows the store no longer has.
- StoreRuns.KeysStayInScope: for ids without colons, as ids made by the store are; seeded ids are not checked for them.
- TokenQuota.TokenReservations: the tables of environments and policies it reads are given; LiveStore changes them.
- Lease: the Redis server is one map with one clock; persistence and failover of the server are not modelled.
- Ledger: adjustments and reconciliation against a provider, and line ids; quantities are real numbers, so floating point rounding before `Math.round` is not modelled.
- Composite resource usage, region and data-rights services, and the row decoders and field validators of the SQL adapters: branch by branch, nothing that spans operations.
- Text: lengths count characters, not UTF-16 units.
