# A verified model of SwarmKit's node-side control plane

SwarmKit runs tasks on the nodes of a cluster. This project models, in Dafny, the parts of it in which
goroutines, a database, a network and other nodes meet, and proves what they promise over all runs.

* **Task manager** (`TaskManager*.dfy`): the `select` loop that drives one task through its states. A state
  machine has a step for each case of the loop, each move of a dispatched operation and each act of the
  environment; a class runs the branches of the loop against those steps.
* **Status reporter** (`Reporter*.dfy`): the coalescing queue between task managers and the agent, cut at the
  points where its runner releases the lock.
* **Worker** (`Storage.dfy`, `Worker*.dfy`): assignment messages against the task database, the managers, the secrets and
  the configs, with restarts of the process at any moment. A transaction is a working copy of the database.
* **Session stream** (`Session.dfy`, `Stream*.dfy`): `watch` with reopening and fallback, a network that loses messages, any
  number of sessions, and the worker at the far end. `AgentTask.dfy` goes on to the loop of the task manager.
* **Agent loop** (`AgentLoop.dfy`): sessions, the gate for operations, readiness, leaving and backoff.
* **Wire codec** (`Wire*.dfy`): the generated protobuf code of the log broker and of the cluster snapshot:
  sizes, backwards writers, the parser loop, the skipper with its depth counter, the bytes themselves, and the
  way through all of them.
* **Root rotation** (`Reconciler*.dfy`): the index of unconverged nodes against the store and its event
  queue, the hand-over between loops, when a rotation can be finished, and the batches.
* **Forwarding** (`Forwarding.dfy`): the metadata a proxy sends to the leader and whom the receiver sees.
* **Watch filters** (`Watch*.dfy`): the compilation of selectors into prototypes and checks.

State machines are pure: a `State`, the `Event`s that can happen, `Enabled`, `Step`, and `Runs`/`Final` over
sequences of events. Objects that the source updates in place are classes whose methods are proved to be the
steps. `dafny verify dfyconfig.toml` checks everything.

Some state is not a field of the source but of its run time or history: `closing` counts removed managers
whose goroutine has not finished, `begun` says that the current rotation was entered by a change of issuer,
`ignored` holds the nodes whose last event came while there was a map but no rotation, loops are numbered,
`calls`, `accepted` and `delivered` log what was called, accepted and sent, and `managers` keeps for each task
what its manager was given, in order. A certificate carries the issuer it parses to, an executor is a function
from tasks to errors, and every order of a Go map iteration is covered by loops that pick any remaining key.

## What does not hold

Some natural statements are false of the code; each has a lemma with a concrete run and one that says when
the statement does hold.

* At most one operation per task runs at a time, unless an update is accepted while a retry timer is pending
  (`ExclusionExactly`, `OverlapExactly`, `OverlapRunsTwoOperations`).
* `Close` ends the reporter's runner, unless it comes before the runner first takes the lock, nothing was ever
  submitted, and `Close` does not come again (as it does at the end of the context) after the runner has
  looked (`CloseEndsRunnerExactly`, `EarlyCloseStrandsRunner`).
* A complete assignment message leaves exactly its tasks in the database, if and only if every older task
  outside it had a manager: the loop walks the managers, not the database (`AssignExactly`, `OrphanSurvives`).
* A message means its changes one after the other, if and only if every entry that it both updates and
  removes ends the way the two batches have it (`MessageRepresentsExactly`, `RemovedThenUpdated`).
* `watch` recovers from a gap with the next message, but never returns to incremental messages in that
  session: the comment in the source speaks of a re-sync, the code keeps the broken reference
  (`OpenExactly`, `GapIsPermanent`, `GapLosesChanges`).
* The index of unconverged nodes is correct while a rotation entered by a change of issuer is current. A
  rotation that keeps the issuer has no map, or one left over that misses the nodes whose events were ignored
  (`KeptIssuerExactly`, `SameIssuerRotation`, `LeftoverIsStale`).
* A finished rotation has converged, except for nodes written after the loop's look or queued at it, if the
  loop looked during a rotation that was begun and was not cancelled (`FinishedExactly`, `LateNodeIsMissed`).
  Otherwise it may be finished early altogether (`ReissuedRotationFinishesEarly`).
* A rotation whose nodes have all converged can be finished, if and only if a loop works on the stored root CA
  up to its tokens. The source expects a loop whose root CA changed to be cancelled and replaced; a change that
  keeps the issuer does neither, so the loop gives up and none follows (`FinishesExactly`,
  `SameIssuerUpdateStrands`).
* A task manager works on what it was last given, if and only if nothing given before had a higher desired
  state (`ManagerHasLastGiven`, `LowerDesiredIsIgnored`).
* The last status submitted for a task reaches upstream or waits for it, unless one that is further along was
  pending when it came, as it cannot be if the submitted states never go back (`NewestNotLost`,
  `NewestUnlessOutranked`, `OutrankedIsDropped`).
* A compiled watch means what its selectors say if and only if no selector other than a prefix has an empty
  operand that a later one replaces, and a Slot selector, which sets the service but checks the node, stands
  beside a ServiceID and a NodeID selector (`MeaningPreservedExactly`, `SlotMatchesOtherService`,
  `EmptyOperandIsOverwritten`).

## Model

| member | source | states |
|---|---|---|
| TaskManagerSafety.RunKeepsInv | agent/task.go:77-248 | every run of the loop, of its operation goroutines, timers and environment keeps the invariant the results below rest on |
| TaskManagerSafety.NeverWedges | agent/task.go:100-219 | in every reachable state in which nobody stopped the manager, an operation is in flight, a run token is queued or a retry timer is pending, unless the last result was a no-op and no accepted update waits |
| TaskManagerSafety.ShutdownBranchComesBack | agent/task.go:151-161 | the shutdown branch is off only after the request and while an operation is in flight (or the context has ended), and every result turns it back on |
| TaskManagerSafety.NoDispatchAfterShutdown | agent/task.go:103-112 | after the shutdown request no continuation starts an operation; only operations already in flight remain |
| TaskManagerExclusion.AtMostOneOperation | agent/task.go:151-238 | on every run in which no accepted update meets a pending retry, at most one operation is in flight, and the shutdown branch closes only when none is |
| TaskManagerExclusion.ExclusionExactly | agent/task.go:151-219 | a live state keeps to one operation on every continuation without updates if and only if it holds at most one token (queued run, operation or timer) |
| TaskManagerExclusion.OverlapExactly | agent/task.go:188-219 | an accepted update makes a second token exactly when `cancel` is nil, the run queue is empty and a timer or an operation is outstanding |
| TaskManagerExclusion.OverlapRunsTwoOperations | agent/task.go:168-219 | a run that does put two operations in flight: a retry, an update before its timer, then the timer |
| TaskManagerLiveness.AcceptedUpdateIsDispatched | agent/task.go:188-219 | on every fair infinite behaviour that nobody stops, every accepted update is followed by a dispatch |
| TaskManagerLiveness.ShutdownIsBounded | agent/task.go:220-247 | after the request the moves of any run are bounded by the work at the request plus two per further update, and until the loop returns some move is possible |
| TaskManagerLiveness.ShutdownCompletes | agent/task.go:220-248 | on every fair behaviour with finitely many updates a requested shutdown closes the manager and the loop returns |
| TaskManagerHistory.TaskOfRun | agent/task.go:186-207 | over every run the task keeps its ID, its desired state never decreases, and its status is the initial one or one that an operation returned |
| TaskManagerHistory.UpdatedMeansAccepted | agent/task.go:114-122 | the `updated` flag is set exactly when an update was accepted after the last dispatch |
| TaskManagerHistory.AcceptsExactly | agent/task.go:188-203 | an update is accepted if and only if it has the task's ID and either a higher desired state, or the same one and a different specification; status and metadata do not matter |
| TaskManagerHistory.TaskIsLastAccepted | agent/task.go:186-207 | over every run the managed task is, in every field but the status, the update accepted last (or the task the manager started with), and its status is what the operation whose status was taken last had returned |
| TaskManagerHistory.LastAcceptedAt | agent/task.go:188-207 | by position: if step `i` is the last that accepts an update, the update last accepted is that of step `i`; if none does, it is the task at the start |
| TaskManagerHistory.CancelIsOutstanding | agent/task.go:114-154 | over every run `cancel` stands for the operation dispatched last until a result comes, and is nil afterwards |
| TaskManagerHistory.CancelledExactly | agent/task.go:209-229 | an operation in flight is cancelled if and only if an update was accepted, or the shutdown branch taken, while it was the outstanding one |
| TaskManagerHistory.OperationOrigin | agent/task.go:114-137 | every operation works on the update last accepted before its dispatch, with the status last taken before it, and carries the flag of that moment |
| TaskManagerTrace.LoopIsItsTrace | agent/task.go:77-248 | over every run the run queue, the retry timers, the shutdown branch, the closed and returned flags and the number of dispatches are determined by the events alone: what pumps, which results set a timer, when the branch is off, what closes |
| TaskManagerTrace.InFlightExactly | agent/task.go:122-151 | an operation is in flight if and only if it was dispatched and neither handed its result over nor was abandoned |
| TaskManagerTrace.PhaseIsItsTrace | agent/task.go:122-150 | an operation in flight is exactly as far as the events say: a failed controller update ends it, a status is offered before the result, and only the loop or the end of the context takes it off |
| TaskManagerHistory.ExecutionFollowsDispatch | agent/task.go:114-136 | an operation that executes works on the update last accepted before its dispatch, and if one had been accepted between the dispatch before and its own, its controller update came first |
| TaskManagerLoop.Manager.constructor | agent/task.go:77-100 | starts with one run token, no operation and the shutdown branch on |
| TaskManagerLoop.Manager.OnRun | agent/task.go:103-150 | the run branch is the `Run` step |
| TaskManagerLoop.Manager.OnResult | agent/task.go:151-185 | the errs branch |
| TaskManagerLoop.Manager.OnOpResult | agent/task.go:151-185 | the result of an operation is its step |
| TaskManagerLoop.Manager.OnTimer | agent/task.go:168-175 | the delayed nil result of a retry is its step |
| TaskManagerLoop.Manager.Outside | agent/task.go:239-246 | the closed and context cases and what happens outside the loop are their steps |
| TaskManagerLoop.Manager.OnStatus | agent/task.go:186-187 | the status branch is its step |
| TaskManagerLoop.Manager.OnUpdate | agent/task.go:188-219 | the update branch is its step, for accepted and ignored updates |
| TaskManagerLoop.Manager.OnShutdown | agent/task.go:220-238 | the shutdown branch is its step |
| TaskManagerLoop.Manager.Select | agent/task.go:101-248 | one turn of the select is the step of the case it takes |
| TaskManagerLoop.Manager.Loop | agent/task.go:101-248 | running a list of events leaves the final state of that run |
| ReporterProperties.DeliveredInOrderAndNotLost | agent/reporter.go:71-89 | for every interleaving of submissions, sends, failures and close: the deliveries of a task are a subsequence of its accepted statuses in order, and until Close the newest accepted one is pending, in flight or the last delivered |
| ReporterProperties.VolumesNotLost | agent/reporter.go:91-99 | until Close every reported volume is pending, in flight or delivered after its last report |
| ReporterHistory.NewestNotLost | agent/reporter.go:71-160 | from the events alone: if the statuses submitted for a task never go back, then until Close the last submitted one is pending, in flight or what was delivered last |
| ReporterHistory.NewestUnlessOutranked | agent/reporter.go:71-160 | the same whatever was submitted before, unless a status that is further along was pending when the last one came |
| ReporterHistory.OutrankedIsDropped | agent/reporter.go:81-83 | a run in which the last status is dropped for one that is further along |
| ReporterHistory.SubmissionTakesPlace | agent/reporter.go:71-89 | after a submission the pending status is the older one if its state is strictly higher and the submitted one otherwise; no other task is touched |
| ReporterHistory.AcceptedWereSubmitted | agent/reporter.go:71-89 | what is accepted for a task is a subsequence of what was submitted for it |
| ReporterHistory.RunIsLogged | agent/reporter.go:138-160 | the log of deliveries is the sequence of calls that succeeded, each with the entry its pick took from the pending map |
| ReporterHistory.PendingExactly | agent/reporter.go:71-178 | over every run what is pending of a task or volume is exactly what the submissions, picks and failed calls leave: a call takes the entry away, a failed one puts it back unless a newer one came or the reporter was closed |
| ReporterHistory.ReportedVolumeNotLost | agent/reporter.go:91-178 | until Close every volume that was ever reported is pending, in flight, or was delivered after its last report |
| ReporterHistory.NoLostWakeup | agent/reporter.go:86-136 | the runner never sleeps unsignalled while something is pending |
| ReporterHistory.PendingCanBeSent | agent/reporter.go:127-160 | in an open reporter the runner's own moves lead from any state to an upstream call for any pending status |
| ReporterHistory.VolumeCanBeSent | agent/reporter.go:127-178 | the same for any pending volume |
| ReporterProperties.NothingSentAfterClose | agent/reporter.go:127-180 | no upstream call begins after Close |
| ReporterProperties.CloseEndsRunner | agent/reporter.go:101-136 | if the runner had taken the lock before Close, its next move ends it and it has one |
| ReporterProperties.AsleepExactly | agent/reporter.go:127-136 | in a closed reporter the runner sleeps with nothing to wake it if and only if Close came before it took the lock, nothing was ever submitted, it has looked, and no Close came after that |
| ReporterProperties.CloseEndsRunnerExactly | agent/reporter.go:101-136 | a closed reporter's runner ends by its own moves if and only if the signal was not lost: Close came after it took the lock, or something was submitted, or Close came again after it had looked |
| ReporterProperties.EarlyCloseStrandsRunner | agent/reporter.go:111-136 | a run that loses the signal: Close, then the start of the runner, which sleeps; the Close at the end of the context wakes and ends it |
| ReporterObject.StatusReporter.UpdateStatus | agent/reporter.go:71-89 | is the submission step: equal and older statuses are ignored |
| ReporterObject.StatusReporter.ReportUnpublished | agent/reporter.go:91-99 | is the volume step |
| ReporterObject.StatusReporter.Shut | agent/reporter.go:101-109 | is the close step |
| ReporterObject.StatusReporter.EnterLoop | agent/reporter.go:127-136 | is the check at the head of the loop |
| ReporterObject.StatusReporter.StatusReturned | agent/reporter.go:141-160 | is the return of a status call, with the put-back on failure |
| ReporterObject.StatusReporter.VolumeReturned | agent/reporter.go:165-178 | is the return of a volume call |
| ReporterObject.StatusReporter.Advance | agent/reporter.go:138-178 | picks the next entry or starts over |
| WorkerSafety.RunKeepsInv | agent/worker.go:199-333 | in every run of committed messages, reports, closings and restarts: every bucket holds data, status and mark of its own task, every live manager has its bucket and runs its task, and the closers count the managers that are live or closing |
| WorkerSafety.WaitMeansAllClosed | agent/worker.go:667-680 | the wait group is empty exactly when no manager is live and none is closing |
| WorkerSafety.NeverRevived | agent/worker.go:565-594 | a task out of the database stays out, with no bucket and no manager, until a message assigns it: late reports, other messages and restarts do not bring it back |
| WorkerSafety.AssignedShape | agent/worker.go:229-266 | one assigned task: fails only without an ID; otherwise stores the data without its status, marks it, keeps the status of a managed task, and gives an unmanaged one its stored status or its own, resolved, and a manager if the controller resolves; nothing else changes |
| WorkerSafety.MessageKeepsStatus | agent/worker.go:243-252 | a message hands a task that keeps its manager to that manager each time it names it, in order, and leaves its stored status alone |
| WorkerSafety.StatusIsLastReport | agent/worker.go:565-594 | as long as a task keeps its manager, its stored status is the last one reported for it, whatever messages arrive |
| WorkerSafety.ResolveNeverGoesBack | agent/exec/controller.go:95-124 | resolving never takes a state back; without a controller the state becomes final |
| WorkerSafety.ResolvesExactly | agent/exec/controller.go:95-124 | case by case, with the numbers of the states: accepted when new, untouched otherwise; without a controller rejected before it started, failed while it runs, kept afterwards |
| WorkerSafety.InitTreatsEach | agent/worker.go:83-114 | on any database: an unmarked task is deleted, a complete bucket gets the resolved status and, if its controller resolves, a manager started with the stored task, and every other bucket is left alone |
| WorkerSafety.RestartNeverGoesBack | agent/worker.go:83-114 | after any run a restart keeps every task and its data, takes no stored state back, and starts exactly the tasks whose controller resolves |
| WorkerDelta.UpdatedTasks | agent/worker.go:200-213 | the collected list of updated tasks stands for the map in which the last update of an ID wins |
| WorkerAgreement.MessageUnless | agent/worker.go:229-266 | a message is refused only for a task without an ID |
| WorkerAgreement.MessageApplies | agent/worker.go:199-419 | from a worker that represents a set, every message that commits leaves one that represents the set with the updates and the removals applied in two batches, in the order the code has for each kind |
| WorkerAgreement.MessageRepresentsExactly | agent/worker.go:199-419 | that is the set with the changes applied one after the other if and only if every entry both updated and removed ends the way the batches have it: secrets and configs updated, tasks removed by an incremental and updated by a complete message |
| WorkerAgreement.RemovedThenUpdated | agent/worker.go:315-330 | an incremental message that removes a task and then assigns it leaves the task removed |
| WorkerAgreement.UpdateIsAssign | agent/worker.go:130-197 | `Update` with a delta and `Assign` with the whole new set leave the same tasks, data, marks, managers, secrets and configs |
| WorkerAgreement.RunRepresents | agent/worker.go:199-419 | after any run of messages, reports, closings and restarts the worker is the set it was sent; a restart loses only the secrets and configs in memory |
| WorkerAgreement.RestartRecovers | agent/worker.go:83-114 | `Init` after a crash deletes nothing and starts exactly one manager per task, from the data last assigned with the status last stored |
| WorkerAgreement.AssignLeaves | agent/worker.go:301-314 | whichever controllers resolve, a complete message leaves managers only for assigned tasks, and buckets for those and for older tasks that had no manager |
| WorkerAgreement.AssignExactly | agent/worker.go:301-314 | the database is exactly the assigned set if and only if every older task outside it had a manager |
| WorkerAgreement.OrphanSurvives | agent/worker.go:301-314 | a run in which the bucket of a task without a controller survives a complete message that does not name it |
| WorkerAgreement.LeaveWaitsForAll | agent/agent.go:94-129 | after the assignment of nothing no manager is live, and the wait ends exactly when every manager alive or closing at that moment has closed |
| WorkerObject.CollectTasks | agent/worker.go:200-213 | the two lists are the updated and the removed tasks in order |
| WorkerObject.CollectDependencies | agent/worker.go:336-350 | the lists stand for the updated entries and the removed keys |
| WorkerObject.ReconcileDependencies | agent/worker.go:335-419 | resets or removes, then adds |
| WorkerObject.NodeWorker.UpdateTaskStatus | agent/worker.go:565-594 | stores a status only for a task that has a bucket |
| WorkerObject.NodeWorker.StartTask | agent/worker.go:506-562 | stores the resolved status and starts a manager if the controller resolves |
| WorkerObject.NodeWorker.AssignTask | agent/worker.go:234-265 | one round of the loop over updated tasks, with its error exits |
| WorkerObject.NodeWorker.AssignTasks | agent/worker.go:229-266 | the loop, and where it stops on an error |
| WorkerObject.NodeWorker.RemoveTask | agent/worker.go:288-299 | deletes the bucket, then the manager; a missing bucket leaves the manager |
| WorkerObject.NodeWorker.RemoveOthers | agent/worker.go:303-314 | the loop over the managers outside the message, in any order |
| WorkerObject.NodeWorker.RemoveTasks | agent/worker.go:315-330 | the loop over removed tasks |
| WorkerObject.NodeWorker.ReconcileTasks | agent/worker.go:199-333 | the whole transaction: on failure the database is rolled back and the managers keep what was done to them |
| WorkerObject.NodeWorker.Reconcile | agent/worker.go:130-197 | `Assign` and `Update`, refused once closed |
| WorkerObject.NodeWorker.Init | agent/worker.go:83-114 | the walk over the buckets, in any order |
| Session.Session.WrapTasks | agent/session.go:335-347 | a message of the older call becomes a complete message that updates each task |
| Session.Session.Next | agent/session.go:295-356 | one round of the loop, with reopening, fallback and the comparison of references; the message it passes on is what the theorems on the stream apply |
| Session.RoundFailsExactly | agent/session.go:295-334 | a round fails if and only if the call it needs cannot be opened or answers with an error |
| Session.RoundLeaves | agent/session.go:295-356 | what a round leaves of the two calls, the fallback and the reference, and that a message of the stream is passed on as received |
| Stream.WrappedSets | agent/session.go:327-348 | applying a message of the older call leaves exactly its tasks, and neither secrets nor configs |
| Stream.GapIsDetected | agent/session.go:350-356 | in an open stream the comparison breaks the stream exactly when a message before was lost |
| Stream.AgreesAfterEveryMessage | agent/session.go:295-366 | in every run over any number of sessions and restarts, after every message that does not break the chain, the set the agent has from what `watch` passed on is the manager's |
| Stream.OutOfStepForOneMessage | agent/session.go:350-365 | the message after one that broke the chain is complete, from a new stream, and brings the agent back in step |
| Stream.GapLosesChanges | agent/session.go:350-365 | a run with a gap that leaves the agent without a task the manager has sent |
| Stream.OpenExactly | agent/session.go:295-356 | a stream is held open if and only if the session has had a message, none of its messages broke the chain and none came by the older call |
| Stream.GapIsPermanent | agent/session.go:350-356 | after a gap no stream is held open again in that session and every further message is a complete one |
| StreamWorker.MessagesCommit | agent/agent.go:280-297 | a message the network can deliver is refused by the worker only for a task without an ID |
| StreamWorker.WorkerFollowsManager | agent/agent.go:280-297 | from the manager's messages, through what `watch` passes on, to the node's database: with reports, closings, new sessions and restarts in between, after every message that does not break the chain the worker represents the set the manager last sent |
| AgentTask.ManagerHasLastGiven | agent/task.go:42-51 | a task manager that has received what the worker gave it works on the last of it, whatever else happened in its loop, if and only if nothing earlier had a higher desired state |
| AgentTask.LowerDesiredIsIgnored | agent/task.go:198-202 | a task given with a lower desired state leaves the manager as it was |
| AgentTask.ManagerHasAssignedTask | agent/worker.go:233-263 | in a worker that holds the assigned tasks, the manager of a task works on it as last assigned under exactly that condition |
| AgentTask.NodeRunsWhatWasSent | agent/worker.go:233-263 | end to end, from the manager's set over the stream and the worker to the loop of the task manager: after every message that does not break the chain, every task sent has a manager that works on it as sent, under exactly that condition |
| AgentLoop.RunKeepsInv | agent/agent.go:265-411 | the gate is open only for a registered session that is not closed; the loop waits for a registration, serves, or has a closed session to replace |
| AgentLoop.OperationsAreGated | agent/agent.go:267-268 | every session operation of every run finds its session registered and not closed |
| AgentLoop.ChannelsCloseOnce | agent/agent.go:338-351 | `ready` and `left` are closed at most once, and the loop is never stuck with a session it can neither serve nor replace |
| AgentLoop.RegistrationsAreDistinct | agent/agent.go:338-351 | two registrations taken in a run belong to different sessions |
| AgentLoop.RegistrationIsOwn | agent/agent.go:371-388 | every registration the loop takes was made by the session it then serves while that was the current one; late registrations of earlier sessions are not taken for it |
| AgentLoop.GivenUpForAReason | agent/agent.go:231-263 | a session is given up only after it failed or had registered, never while it registers |
| AgentLoop.MessagesReachWorker | agent/agent.go:280-297 | until the node leaves, the worker gets every message in order, complete ones as `Assign` and incremental ones as `Update` |
| AgentLoop.NothingAfterLeft | agent/agent.go:269-297 | after leaving, no assignment reaches the worker; its last call removes everything |
| AgentLoop.BackoffIsExact | agent/agent.go:352-363 | after n errors since the last registration the backoff is min(100 * (2^n - 1), 8000) milliseconds |
| AgentLoop.DelayIsBounded | agent/agent.go:371-388 | the delay of a new session is zero or strictly below the backoff |
| AgentLoop.LoopIsItsTrace | agent/agent.go:272-390 | over every run the channels the loop listens to, the number of sessions and the delay of the last one follow from the events: operations are served exactly after the current session has registered and before it fails or the description changes, and the delay is the one drawn |
| AgentLoop.ChangeReplacesSession | agent/agent.go:229-263 | a changed description of a session that is no longer registering closes it, and the next session has the next number, the drawn delay, and serves no operation yet |
| AgentLoop.Agent.OnRegistered | agent/agent.go:338-351 | the registration branch is its step |
| AgentLoop.Agent.OnFailure | agent/agent.go:352-370 | the error branch is its step |
| AgentLoop.Agent.OnClosed | agent/agent.go:371-388 | the rebuild branch is its step |
| AgentLoop.Agent.OnNodeChanged | agent/agent.go:231-263 | a changed node description closes a registered session is its step |
| AgentLoop.Agent.OnLeaving | agent/agent.go:269-279 | the leaving branch is its step |
| AgentLoop.Agent.OnAssignment | agent/agent.go:280-297 | the assignment branch is its step |
| WireVarint.SignExtension | api/logbroker.pb.go:1229-1249 | the 64-bit word a negative 32- or 64-bit field is written as converts back to it |
| WireVarint.SovIsVarintLength | api/logbroker.pb.go:2232-2234 | the closed form of the size is the number of bytes the encoder loop writes, for every 64-bit word |
| WireVarint.VarintFits | api/logbroker.pb.go:1704-1714 | a varint of a 64-bit word has one to ten bytes |
| WireVarint.ReadVarint | api/logbroker.pb.go:2387-2415 | reading a written varint gives the value back and ends right behind it |
| WireLayout.ReadExactly | api/logbroker.pb.go:2393-2406 | reading a varint at any place of any input: the number in groups of seven bits, low group first, modulo 2^64; ten bytes that do not end it are an overflow, fewer at the end of the input an unexpected end |
| WireLayout.SubscriptionLayout | api/logbroker.pb.go:1578-1627 | the bytes of a subscription message, tag by tag |
| WireLayout.PublishLayout | api/logbroker.pb.go:1642-1680 | the bytes of a log publication and of the messages in it, tag by tag |
| WireLayout.SnapshotLayout | api/snapshot.pb.go:539-567 | the bytes of a cluster snapshot, tag by tag |
| WireLayout.BadTagIsRefused | api/logbroker.pb.go:2407-2488 | whatever follows: an end-group tag, a field number that is not positive and a wrong wire type are refused, each with its error |
| WireLayout.CutPayloadIsRefused | api/logbroker.pb.go:2524-2559 | a payload that is cut short is refused as an unexpected end |
| WireLayout.SubscriptionMerges | api/logbroker.pb.go:3510-3581 | a selector or options in two pieces parse like their bytes in one piece: the second is merged into the first |
| WireLayout.TimestampMerges | api/logbroker.pb.go:3049-3084 | so does a timestamp of a log message |
| WireLayout.ContextMerges | api/logbroker.pb.go:3016-3048 | so does its context |
| WireLayout.SinceMerges | api/logbroker.pb.go:2524-2559 | so does the starting time of the options |
| WireLayout.SubscriptionIgnores | api/logbroker.pb.go:3602-3622 | a subscription, its selector, options and timestamp parse the same with any field of a number they do not have inserted between two parts |
| WireLayout.PublishIgnores | api/logbroker.pb.go:3738-3758 | so do a log publication, its messages, contexts and attributes |
| WireSkip.Varint64 | api/logbroker.pb.go:3814-3828 | the reading loop with its overflow and end-of-input exits |
| WireSkip.Skip | api/logbroker.pb.go:3809-3886 | the skipper with its depth counter computes the end of one field of the recursive grammar, groups nested to any depth, with the same errors |
| WireDecode.UnmarshalPacked | api/logbroker.pb.go:2434-2481 | the loop over a packed payload |
| WireDecode.Unmarshal | api/logbroker.pb.go:2387-2580 | the parser loop: tag checks, known fields, packed and unpacked lists, skipped fields and every error exit |
| WireLaws.Merge | api/logbroker.pb.go:2387-2580 | if `a` parses, then `a + b` parses exactly as `b` does into the result of `a` |
| WireLaws.UnknownIsIgnored | api/logbroker.pb.go:2560-2576 | a skipped field between two parts leaves the parse unchanged |
| WireFields.RecIsOneField | api/logbroker.pb.go:3809-3886 | the bytes of any tree of fields and groups are one field for the skipper |
| WireFields.InsertedRecIsIgnored | api/logbroker.pb.go:3809-3886 | inserting any well-formed unknown field, groups nested to any depth, leaves the decoded message unchanged |
| WireFields.ChunksDecode | api/logbroker.pb.go:2415-2484 | any mix of packed and unpacked chunks decodes to the concatenated list |
| WireMessages.TimestampRoundTrip | vendor/github.com/gogo/protobuf/types/timestamp.pb.go:310-361 | parsing the encoding of any message of this type gives the message back |
| WireMessages.ContextRoundTrip | api/logbroker.pb.go:2727-2872 | parsing the encoding of any message of this type gives the message back |
| WireMessages.AttrRoundTrip | api/logbroker.pb.go:2873-2986 | parsing the encoding of any message of this type gives the message back |
| WireMessages.OptionsRoundTrip | api/logbroker.pb.go:2387-2580 | parsing the encoding of any message of this type gives the message back |
| WireMessages.SelectorRoundTrip | api/logbroker.pb.go:2581-2726 | parsing the encoding of any message of this type gives the message back |
| WireMessages.MessageRoundTrip | api/logbroker.pb.go:2987-3192 | parsing the encoding of any message of this type gives the message back |
| WireMessages.SubscriptionRoundTrip | api/logbroker.pb.go:3449-3622 | parsing the encoding of any message of this type gives the message back |
| WireMessages.PublishRoundTrip | api/logbroker.pb.go:3623-3758 | parsing the encoding of any message of this type gives the message back |
| WireMarshal.SizeTimestamp | vendor/github.com/gogo/protobuf/types/timestamp.pb.go:343-359 | the computed size is the length of the encoding |
| WireMarshal.SizeOptions | api/logbroker.pb.go:2019-2041 | the computed size is the length of the encoding |
| WireMarshal.SizeSelector | api/logbroker.pb.go:2043-2068 | the computed size is the length of the encoding |
| WireMarshal.SizeContext | api/logbroker.pb.go:2070-2089 | the computed size is the length of the encoding |
| WireMarshal.SizeAttr | api/logbroker.pb.go:2091-2106 | the computed size is the length of the encoding |
| WireMarshal.SizeMessage | api/logbroker.pb.go:2108-2134 | the computed size is the length of the encoding |
| WireMarshal.SizeSubscription | api/logbroker.pb.go:2177-2199 | the computed size is the length of the encoding |
| WireMarshal.SizePublish | api/logbroker.pb.go:2201-2221 | the computed size is the length of the encoding |
| WireWrite.PutVarint | api/logbroker.pb.go:1704-1714 | the backwards varint writer fills exactly the bytes in front of the offset and never underflows |
| WireMarshal.MarshalTimestamp | vendor/github.com/gogo/protobuf/types/timestamp.pb.go:310-330 | the backwards writer puts the encoding right in front of the offset, touches nothing else and never underflows |
| WireMarshal.MarshalOptions | api/logbroker.pb.go:1212-1252 | the backwards writer puts the encoding right in front of the offset, touches nothing else and never underflows |
| WireMarshal.MarshalSelector | api/logbroker.pb.go:1269-1302 | the backwards writer puts the encoding right in front of the offset, touches nothing else and never underflows |
| WireMarshal.MarshalContext | api/logbroker.pb.go:1319-1346 | the backwards writer puts the encoding right in front of the offset, touches nothing else and never underflows |
| WireMarshal.MarshalAttr | api/logbroker.pb.go:1363-1383 | the backwards writer puts the encoding right in front of the offset, touches nothing else and never underflows |
| WireMarshal.MarshalMessage | api/logbroker.pb.go:1400-1454 | the backwards writer puts the encoding right in front of the offset, touches nothing else and never underflows |
| WireMarshal.MarshalSubscription | api/logbroker.pb.go:1578-1625 | the backwards writer puts the encoding right in front of the offset, touches nothing else and never underflows |
| WireMarshal.MarshalPublish | api/logbroker.pb.go:1642-1679 | the backwards writer puts the encoding right in front of the offset, touches nothing else and never underflows |
| WireMarshal.SubscriptionBytesOf | api/logbroker.pb.go:1563-1571 | `Marshal` allocates `Size` bytes and returns exactly the encoding |
| WireMarshal.PublishBytesOf | api/logbroker.pb.go:1627-1635 | `Marshal` allocates `Size` bytes and returns exactly the encoding |
| WireSnapshot.SnapshotRoundTrip | api/snapshot.pb.go:1233-1392 | parsing the encoding of any cluster snapshot gives it back, for any member codec that round-trips |
| WireSnapshot.RemovedInAnyPieces | api/snapshot.pb.go:1296-1371 | the removed members decode to the concatenated list from any mix of packed and unpacked pieces |
| WireSnapshot.SnapshotIgnoresUnknown | api/snapshot.pb.go:1372-1392 | a snapshot parses the same with any unknown field inserted between two parts |
| WireSnapshot.StreamsInAnyPieces | api/logbroker.pb.go:2415-2484 | the streams of a log subscription decode from any mix of pieces, narrowed to 32 bits |
| WireRoundTrip.SizeSnapshot | api/snapshot.pb.go:696-714 | the computed size is the length of the encoding |
| WireRoundTrip.MarshalSnapshot | api/snapshot.pb.go:539-566 | the backwards writer puts the encoding right in front of the offset, touches nothing else and never underflows |
| WireRoundTrip.SnapshotBytesOf | api/snapshot.pb.go:524-532 | `Marshal` allocates `Size` bytes and returns exactly the encoding |
| WireRoundTrip.SnapshotSurvives | api/snapshot.pb.go:1233-1392 | `Unmarshal` of `Marshal` gives the snapshot back |
| WireRoundTrip.SubscriptionSurvives | api/logbroker.pb.go:3449-3622 | `Unmarshal` of `Marshal` gives the subscription back |
| WireRoundTrip.PublishSurvives | api/logbroker.pb.go:3623-3758 | `Unmarshal` of `Marshal` gives the publication back |
| ReconcilerIndex.IndexIsCorrect | ca/reconciler.go:93-152 | in every run, while a rotation entered by a change of issuer is current, the tracked map with the still-queued node events replayed is exactly the set of stored nodes that lack the issuer |
| ReconcilerIndex.NoCrashWhileBegun | ca/reconciler.go:132-144 | during such a rotation no node event writes to a nil map |
| ReconcilerIndex.KeptIssuerExactly | ca/reconciler.go:93-144 | every current rotation that was not begun, in every run: without a map an event crashes exactly for a node that lacks the issuer; with a map left over, a node without queued events is tracked rightly if and only if none of its events was ignored or the ignored one agrees with the map |
| ReconcilerIndex.SameIssuerRotation | ca/reconciler.go:93-97 | a run to the first shape: a rotation that keeps the issuer of a cluster without a rotation before has a nil map |
| ReconcilerIndex.LeftoverIsStale | ca/reconciler.go:93-97 | a run to the second shape: after a finished rotation a lacking node is ignored, and a second rotation to the same issuer finds the empty map without it |
| ReconcilerIndex.EmptyMeansQueued | ca/reconciler.go:154-160 | an empty tracked map means that every stored node lacking the issuer has an event still queued |
| ReconcilerLoops.AtMostOneLoop | ca/reconciler.go:77-128 | in every run at most one loop is live, and while a new one waits the old one is cancelled |
| ReconcilerProgress.BegunIsServed | ca/reconciler.go:81-128 | in every run a rotation that was begun and whose loop has not ended with a transaction has a loop: one that is not cancelled and works for its issuer, or one that waits for the previous loop to end |
| ReconcilerProgress.BegunFinishes | ca/reconciler.go:154-238 | once every node has converged and the queue is empty, the reconciler's own moves finish such a rotation, whatever loops of earlier rotations are around, if the stored root CA is the one its loop was started with but for the join tokens |
| ReconcilerProgress.FinishesExactly | ca/reconciler.go:154-238 | in every run, with every node converged and the queue empty, the reconciler's own moves can finish the stored rotation if and only if a live or waiting loop works on the stored root CA, but for the join tokens |
| ReconcilerProgress.SameIssuerUpdateStrands | ca/reconciler.go:93-97 | a root CA that keeps the issuer and differs in anything but the tokens leaves a begun rotation that no move of the reconciler can ever finish |
| ReconcilerFinish.CommitHasCause | ca/reconciler.go:154-238 | every commit of every run that changes the stored root CA is by a loop that a consumed root CA started, that is the stored one but for the join tokens, and that looked before, saw an empty or nil map and had no transaction fail since; it installs that rotation's certificate and key with the digest and tokens made for it, keeps the count of forced rotations and the wanted issuer |
| ReconcilerFinish.SeenEmptyIsConverged | ca/reconciler.go:154-160 | when a loop that is not cancelled looks and sees an empty set during a rotation that was begun, every stored node lacking its issuer still has an event queued |
| ReconcilerFinish.FinishedExactly | ca/reconciler.go:154-238 | when such a loop then finishes the rotation, a stored node lacks the issuer if and only if its last write after the look does, or there is none and its last event queued at the look does |
| ReconcilerFinish.LateNodeIsMissed | ca/reconciler.go:157-172 | a run in which a node that comes between the look and the commit is missed |
| ReconcilerFinish.ReissuedRotationFinishesEarly | ca/reconciler.go:123-127 | outside a begun rotation: one that is abandoned and issued again is finished by its first loop although a node lacks the issuer |
| ReconcilerLoops.OwnCommitStartsNoLoop | ca/reconciler.go:204-238 | in every run the event of a loop's own commit starts no loop, whatever else is queued |
| ReconcilerBatch.CollectBatch | ca/reconciler.go:174-186 | the loop over the tracked map collects at most 30 eligible nodes, each once, changed only in the certificate state, and fewer only if there are no more |
| ReconcilerBatch.AllMarkedAfterCeil | ca/reconciler.go:174-191 | with successful writes, k eligible nodes are all marked after exactly ceil(k/30) passes |
| ReconcilerBatch.PassesChangeOnlyStates | ca/reconciler.go:240-259 | passes change nothing but the certificate state, and only of eligible nodes |
| ReconcilerBatch.BatchIsPass | ca/reconciler.go:240-259 | writing the nodes of a batch to the store and consuming their events is such a pass |
| ReconcilerObject.RootRotationReconciler.UpdateRootCA | ca/reconciler.go:70-128 | sets the fields and builds the map of lacking nodes from the store; says whether a loop starts |
| ReconcilerObject.RootRotationReconciler.UpdateNode | ca/reconciler.go:132-144 | tracks or untracks the node during a rotation, with the write to a nil map as failure |
| ReconcilerObject.RootRotationReconciler.DeleteNode | ca/reconciler.go:148-152 | untracks the node |
| Forwarding.RunModifiers | api/ca.pb.go:1126-1135 | runs the modifiers in order and stops at the first error |
| Forwarding.ProxyModifiers | api/ca.pb.go:1094-1125 | forwarding is the redirect check followed by the TLS modifier |
| Forwarding.SingleHop | ca/forward.go:37-55 | along any chain of proxies a request is forwarded at most once, whatever metadata it came with, and exactly when its sender is known and it carries neither mark |
| Forwarding.ForwardMarks | api/ca.pb.go:1095-1110 | a forwarded request carries the redirect and the forwarded mark, and the next proxy refuses it |
| Forwarding.ForwardingIsTransparent | ca/auth.go:195-244 | at the receiver the request comes from the original client with its ID, organization, roles and address and the proxy as forwarder, exactly for clients whose certificate has all three; any other is refused |
| Forwarding.IncomingMetadataIsIgnored | ca/forward.go:51-90 | what the receiver sees of a client does not depend on the metadata the request came with |
| Forwarding.IntersectArrays | ca/auth.go:159-166 | says whether the lists share an element |
| Forwarding.RefusedExactly | api/ca.pb.go:1095-1110 | a proxy refuses a request if and only if its sender is unknown, or it carries one of the two marks, with the error of that reason |
| Forwarding.OtherHeadersKept | ca/forward.go:45-90 | the client's other headers arrive at the receiver as they were sent |
| Forwarding.UnknownSenderHasNoAddress | ca/forward.go:82-87 | a request of an unknown sender is passed on without any address |
| Forwarding.DirectIsOwn | ca/auth.go:195-244 | a request that was not forwarded comes from its peer, a local one from the node itself |
| Forwarding.AuthorizedExactly | ca/auth.go:82-155 | an ID is authorized if and only if the peer's certificate has the role, the organization and is not removed, and the ID is its own or, in a forwarded request, the one that the metadata names with the authorized role and organization |
| Forwarding.AuthorizedIsRemoteNode | ca/auth.go:121-155 | the ID that is authorized is the one `RemoteNode` reports, with a matching role and organization |
| Forwarding.AuthorizedIsOriginalClient | ca/auth.go:121-155 | through a proxy the authorized ID is that of the original client's certificate |
| Watch.ConvertWatch | api/objects.pb.go:3805-3888 | the loop over the selectors with its conflicts, then one matcher per requested action |
| Watch.MatchesEvent | api/objects.pb.go:3130-3142 | the same action and kind, and every check holds |
| WatchMeaning.AcceptedExactly | api/objects.pb.go:3539-3599 | a list is refused for conflict exactly when a recognised selector clashes with an earlier one: the same field, already set to more than its zero value or marked |
| WatchMeaning.ConvertsExactly | api/objects.pb.go:3801-3888 | a watch is refused for conflict if and only if its selectors clash, and for its action if and only if they do not and none of the flags 1, 2 and 4 is set |
| WatchMeaning.PlacedExactly | api/objects.pb.go:3277-3353 | the prototype holds a recognised selector's operand in the end, unless a later one replaced its zero value |
| WatchMeaning.MeaningPreserved | api/storeobject.go:103-123 | if nothing but prefixes is replaced and a Slot selector stands beside ServiceID and NodeID, the watch matches exactly the events whose action is requested and whose object satisfies every recognised selector |
| WatchMeaning.MeaningPreservedExactly | api/objects.pb.go:3801-3888 | for every accepted list, whatever its operands, the watch means what the selectors say if and only if that condition holds |
| WatchMeaning.NonEmptyExactly | api/objects.pb.go:3801-3888 | with nonempty operands the watch means what the selectors say if and only if none is a Slot selector |
| WatchMeaning.SlotMatchesOtherService | api/objects.pb.go:3859-3864 | with a Slot and no ServiceID selector an event of another service is matched |
| WatchMeaning.SlotMissesOtherNode | api/objects.pb.go:3859-3864 | with a Slot and no NodeID selector an event on another node is missed |
| WatchMeaning.EmptyOperandIsOverwritten | api/objects.pb.go:3545-3555 | an empty operand does not mark its field: a second selector of the same field is accepted and changes what the first check reads |

## Left out

- gRPC, TLS, certificate parsing, the connection broker and bbolt itself: their answers are parameters or events.
- `exec.Do` and the controllers: an operation returns any status and any error kind; the executor says for each task whether a controller resolves.
- Volumes and CSI (`reconcileVolumes`): a further dependency kind of the same shape.
- Executors without secrets or configs support: the worker modelled has both.
- `tm.reporter.UpdateTaskStatus` after an operation, and `worker.Report`: the task manager, the worker and the reporter are modelled one by one, and their calls of each other are events.
- Log streaming, subscriptions, heartbeats, node descriptions and `handleSessionMessage`: plumbing around the loops modelled.
- Real time: a timer that fires is an event; only the arithmetic of the backoff is kept.
- Fairness: the two liveness results assume that a move that stays possible is taken or overtaken by another move; Go's scheduler promises that only in practice.
- Lost messages at the start of a stream: every stream is assumed to deliver its first, complete message; `watch` has no reference to compare it with.
- gRPC's reserved headers: forwarded metadata is modelled without them; a key without values sends no header.
- Database errors other than a task without an ID are summarised by a failing commit; a message that fails half-way is modelled in `NodeWorker.ReconcileTasks`, and the run invariants are about messages that commit.
- The remaining generated codecs, `String`, `Copy` and the other seven kinds of watches and of proxies: copies of the modelled ones.
- `customIndexer`, `fromArgs`, `prefixFromArgs` and `ConvertWatchArgs`: string plumbing around the checks modelled.
- The codec of a raft member inside `ClusterSnapshot` is a parameter: its writer puts down its encoding, its parser inverts it.
- WireMessages.TimestampRoundTrip: does not model the unrecognised bytes that a `Timestamp` carries along; the parser here drops them, and the round trip is for timestamps without any.
- WireMessages.PublishRoundTrip: holds, like the other round trips, for encodings shorter than 2^63 bytes, because lengths are Go ints; absent and empty byte strings and lists are one value.
- WorkerAgreement.RunRepresents: is about runs in which the controllers of the tasks that are started resolve and every message is settled; `MessageApplies`, `MessageRepresentsExactly`, `RunKeepsInv` and `AssignLeaves` say what holds without.
- ReconcilerBatch.AllMarkedAfterCeil: assumes that every write succeeds and that no one else writes; the version conflicts that the source ignores are left out.
