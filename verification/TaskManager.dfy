/**
 The task manager's event loop (agent/task.go). Every iteration of the Go
 `select` takes one ready case, so the loop is a step function over the events
 that can be ready: the loop's own cases, the moves of the operation goroutines
 it dispatches, and what the environment does to it.
 */
module TaskManager {
  import opened Api

  /** What `exec.Do` or a failed controller update reports on the `errs` channel. */
  datatype Result = Ok | Noop | Retry | ContextDone | Failed

  /** Where the goroutine of a dispatched operation is. */
  datatype Phase =
    | Dispatched                                // nothing attempted yet
    | Updated                                   // the controller accepted the task update
    | Sending(status: Status, result: Result)   // offers a status to the loop
    | Finished(result: Result)                  // offers its result to the loop

  /** `task` is the copy taken at dispatch, `needsUpdate` the captured `updated` flag. */
  datatype Op = Op(task: Task, needsUpdate: bool, phase: Phase, cancelled: bool)

  datatype State = State(
    task: Task,
    runq: bool,             // the one-slot `run` channel holds a token
    cancel: Option<nat>,    // the operation `cancel` would cancel, if not nil
    updated: bool,
    shutdownOn: bool,       // the local `shutdown` channel is not nil
    shutdownReq: bool,      // tm.shutdown is closed
    closed: bool,           // tm.closed is closed
    exited: bool,           // the loop has returned
    ctxDone: bool,
    ops: map<nat, Op>,      // operations in flight
    next: nat,              // number of dispatches so far
    timers: nat,            // retry timers that have not delivered their nil error
    last: Option<Result>    // the last result received on `errs`
  )

  /** What the goroutine of an operation does next. */
  datatype Move =
    | CtlrUpdate(ok: bool)                                // ctlr.Update returned
    | Do(outcome: Option<Status>, result: Result)         // exec.Do returned
    | GiveUpStatus                                        // the context ended before the loop took the status

  datatype Event =
    // cases of the loop's select
    | Run(pickClosed: bool)
    | OpResult(op: nat)
    | TimerResult
    | StatusRecv(op: nat)
    | UpdateRecv(task: Task)
    | ShutdownRecv
    | ClosedRecv
    | CtxRecv
    // moves of an operation goroutine
    | Advance(op: nat, move: Move)
    | Abandon(op: nat)
    // the environment
    | RequestShutdown
    | CancelContext

  function Init(task: Task): State {
    State(task, true, None, false, true, false, false, false, false, map[], 0, 0, None)
  }

  /** Which events can happen next. */
  predicate Enabled(s: State, e: Event) {
    match e
    case Run(pickClosed) => !s.exited && s.runq && (pickClosed ==> s.closed)
    case OpResult(k) => !s.closed && k in s.ops && s.ops[k].phase.Finished?
    case TimerResult => !s.closed && s.timers > 0
    case StatusRecv(k) => !s.closed && k in s.ops && s.ops[k].phase.Sending?
    case UpdateRecv(_) => !s.exited
    case ShutdownRecv => !s.exited && s.shutdownReq && s.shutdownOn
    case ClosedRecv => !s.exited && s.closed
    case CtxRecv => !s.exited && s.ctxDone
    case Advance(k, m) => k in s.ops && CanMove(s, s.ops[k], m)
    case Abandon(k) => k in s.ops && s.ops[k].phase.Finished? && (s.ctxDone || s.closed)
    case RequestShutdown => true
    case CancelContext => true
  }

  predicate CanMove(s: State, op: Op, m: Move) {
    match m
    case CtlrUpdate(_) => op.needsUpdate && op.phase.Dispatched?
    case Do(_, _) => op.phase.Updated? || (op.phase.Dispatched? && !op.needsUpdate)
    case GiveUpStatus => op.phase.Sending? && (s.ctxDone || s.exited)
  }

  function Moved(op: Op, m: Move): Op
    requires m.GiveUpStatus? ==> op.phase.Sending?
  {
    match m
    case CtlrUpdate(ok) => op.(phase := if ok then Updated else Finished(Failed))
    case Do(outcome, r) => op.(phase := if outcome.Some? then Sending(outcome.value, r) else Finished(r))
    case GiveUpStatus => op.(phase := Finished(op.phase.result))
  }

  /** The event takes the branch of the loop that starts an operation. */
  predicate Dispatches(s: State, e: Event) {
    e.Run? && !s.shutdownReq && !s.closed
  }

  /** The event delivers a task update the loop accepts. */
  predicate Accepts(s: State, e: Event) {
    && e.UpdateRecv?
    && !EqualStable(e.task, s.task)
    && e.task.id == s.task.id
    && e.task.desired >= s.task.desired
  }

  function Cancelled(s: State): map<nat, Op> {
    if s.cancel.Some? && s.cancel.value in s.ops
    then s.ops[s.cancel.value := s.ops[s.cancel.value].(cancelled := true)]
    else s.ops
  }

  /** The result sends the loop round again: not in a shutdown, and not after a no-op or for a retry. */
  predicate Repumps(s: State, r: Result) { !s.shutdownReq && !r.Retry? && (r.Noop? ==> s.updated) }

  /** The `errs` branch: re-enable shutdown, set a retry timer, or pump. */
  function Completed(s: State, r: Result): State {
    s.(cancel := None, last := Some(r),
       shutdownOn := s.shutdownOn || s.shutdownReq,
       timers := if !s.shutdownReq && r.Retry? then s.timers + 1 else s.timers,
       runq := s.runq || Repumps(s, r))
  }

  /** The `run` branch: dispatch, unless shutdown was requested or the manager closed. */
  function Ran(s: State, pickClosed: bool): State {
    var go := !s.shutdownReq && !s.closed;
    s.(runq := false,
       shutdownOn := s.shutdownOn || (s.shutdownReq && !pickClosed),
       cancel := if go then Some(s.next) else s.cancel,
       updated := s.updated && !go,
       next := if go then s.next + 1 else s.next,
       ops := if go then s.ops[s.next := Op(s.task, s.updated, Dispatched, false)] else s.ops)
  }

  /** The `statusq` branch. */
  function StatusTaken(s: State, k: nat): State
    requires k in s.ops && s.ops[k].phase.Sending?
  {
    s.(task := s.task.(status := s.ops[k].phase.status),
       ops := s.ops[k := s.ops[k].(phase := Finished(s.ops[k].phase.result))])
  }

  /** The accepting end of the `updateq` branch: cancel what runs, or pump. */
  function Accepted(s: State, t: Task): State {
    s.(task := t.(status := s.task.status), updated := true,
       ops := if s.cancel.Some? then Cancelled(s) else s.ops,
       runq := s.runq || s.cancel.None?)
  }

  /** The `shutdown` branch: cancel what runs and switch off, or close. */
  function ShutDown(s: State): State {
    s.(ops := if s.cancel.Some? then Cancelled(s) else s.ops, shutdownOn := false, closed := s.closed || s.cancel.None?)
  }

  function Step(s: State, e: Event): State
    requires Enabled(s, e)
  {
    match e
    case Run(pickClosed) => Ran(s, pickClosed)
    case OpResult(k) => Completed(s.(ops := s.ops - {k}), s.ops[k].phase.result)
    case TimerResult => Completed(s.(timers := s.timers - 1), Ok)
    case StatusRecv(k) => StatusTaken(s, k)
    case UpdateRecv(t) => if Accepts(s, e) then Accepted(s, t) else s
    case ShutdownRecv => ShutDown(s)
    case ClosedRecv => s.(exited := true)
    case CtxRecv => s.(closed := true, exited := true)
    case Advance(k, m) => s.(ops := s.ops[k := Moved(s.ops[k], m)])
    case Abandon(k) => s.(ops := s.ops - {k})
    case RequestShutdown => s.(shutdownReq := true)
    case CancelContext => s.(ctxDone := true)
  }

  /** The state after the events `es`, each of which must be enabled when it happens. */
  ghost predicate Runs(s: State, es: seq<Event>)
    decreases |es|, 0
  {
    es == [] || (var n := |es| - 1; Runs(s, es[..n]) && Enabled(Final(s, es[..n]), es[n]))
  }

  ghost function Final(s: State, es: seq<Event>): State
    requires Runs(s, es)
    decreases |es|, 1
  {
    if es == [] then s else Step(Final(s, es[..|es| - 1]), es[|es| - 1])
  }
}
