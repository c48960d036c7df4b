/**
 What every run of the task manager's loop keeps: it cannot wedge, its shutdown
 branch is off only while something will turn it on again, and operations
 overlap exactly when an update and a retry timer met.
 */
module TaskManagerSafety {
  import opened Api
  import opened TaskManager

  /** Neither `Close` nor the context has asked the loop to stop. */
  predicate Live(s: State) { !s.shutdownReq && !s.ctxDone }

  /** Something is in flight that will bring the loop back to the `run` branch. */
  predicate Pumped(s: State) { s.ops != map[] || s.runq || s.timers > 0 }

  predicate Inv(s: State) {
    && (forall k :: k in s.ops ==> k < s.next)
    && (s.cancel.Some? ==> s.cancel.value in s.ops || s.ctxDone || s.closed)
    && (s.closed ==> s.shutdownReq || s.ctxDone)
    && (s.closed && !s.exited ==> s.shutdownReq)
    && (s.exited ==> s.closed)
    && (!s.shutdownOn && !s.closed ==> s.shutdownReq && (s.ops != map[] || s.ctxDone))
    && (Live(s) && !Pumped(s) ==> !s.updated && s.last == Some(Noop))
  }

  // ---- what a step does to the operations ----

  /** The operations after a step. */
  ghost function OpsAfter(s: State, e: Event): map<nat, Op>
    requires Enabled(s, e)
  {
    match e
    case Run(_) => if Dispatches(s, e) then s.ops[s.next := Op(s.task, s.updated, Dispatched, false)] else s.ops
    case OpResult(k) => s.ops - {k}
    case StatusRecv(k) => s.ops[k := s.ops[k].(phase := Finished(s.ops[k].phase.result))]
    case UpdateRecv(_) => if Accepts(s, e) && s.cancel.Some? then Cancelled(s) else s.ops
    case ShutdownRecv => if s.cancel.Some? then Cancelled(s) else s.ops
    case Advance(k, m) => s.ops[k := Moved(s.ops[k], m)]
    case Abandon(k) => s.ops - {k}
    case _ => s.ops
  }

  lemma CompletedOps(s: State, r: Result)
    ensures Completed(s, r).ops == s.ops && Completed(s, r).next == s.next
  {
  }

  ghost predicate OpsFollow(s: State, e: Event)
    requires Enabled(s, e)
  {
    Step(s, e).ops == OpsAfter(s, e) && Step(s, e).next == if Dispatches(s, e) then s.next + 1 else s.next
  }

  lemma RunOps(s: State, pickClosed: bool)
    requires Enabled(s, Run(pickClosed))
    ensures OpsFollow(s, Run(pickClosed))
  {
  }

  lemma ResultOps(s: State, k: nat)
    requires Enabled(s, OpResult(k))
    ensures OpsFollow(s, OpResult(k))
  {
    CompletedOps(s.(ops := s.ops - {k}), s.ops[k].phase.result);
  }

  lemma TimerOps(s: State)
    requires Enabled(s, TimerResult)
    ensures OpsFollow(s, TimerResult)
  {
    CompletedOps(s.(timers := s.timers - 1), Ok);
  }

  lemma UpdateOps(s: State, t: Task)
    requires Enabled(s, UpdateRecv(t))
    ensures OpsFollow(s, UpdateRecv(t))
  {
  }

  lemma ShutdownOps(s: State)
    requires Enabled(s, ShutdownRecv)
    ensures OpsFollow(s, ShutdownRecv)
  {
  }

  lemma StatusOps(s: State, k: nat)
    requires Enabled(s, StatusRecv(k))
    ensures OpsFollow(s, StatusRecv(k))
  {
  }

  lemma AdvanceOps(s: State, k: nat, m: Move)
    requires Enabled(s, Advance(k, m))
    ensures OpsFollow(s, Advance(k, m))
  {
  }

  /** The events that touch neither the task, nor the operations, nor the queue. */
  predicate Simple(e: Event) { e.ClosedRecv? || e.CtxRecv? || e.RequestShutdown? || e.CancelContext? }

  lemma SimpleOps(s: State, e: Event)
    requires Enabled(s, e) && (Simple(e) || e.Abandon?)
    ensures OpsFollow(s, e)
  {
  }

  lemma OpsOfStep(s: State, e: Event)
    requires Enabled(s, e)
    ensures OpsFollow(s, e)
  {
    match e
    case Run(pickClosed) => RunOps(s, pickClosed);
    case OpResult(k) => ResultOps(s, k);
    case TimerResult => TimerOps(s);
    case UpdateRecv(t) => UpdateOps(s, t);
    case ShutdownRecv => ShutdownOps(s);
    case StatusRecv(k) => StatusOps(s, k);
    case Advance(k, m) => AdvanceOps(s, k, m);
    case _ => SimpleOps(s, e);
  }

  // ---- the invariant ----

  lemma ResultKeepsInv(s: State, r: Result)
    requires forall k :: k in s.ops ==> k < s.next
    requires !s.closed && !s.exited && (!s.shutdownOn ==> s.shutdownReq)
    ensures Inv(Completed(s, r))
  {
  }

  lemma MoveKeepsInv(s: State, t: Task, k: nat, op: Op)
    requires Inv(s) && k in s.ops
    ensures Inv(s.(task := t, ops := s.ops[k := op]))
  {
    assert k in s.ops[k := op];
  }

  ghost predicate KeepsInv(s: State, e: Event)
    requires Enabled(s, e)
  {
    Inv(Step(s, e))
  }

  lemma RunKeepsInvariant(s: State, pickClosed: bool)
    requires Inv(s) && Enabled(s, Run(pickClosed))
    ensures KeepsInv(s, Run(pickClosed))
  {
    if Dispatches(s, Run(pickClosed)) { assert s.next in Ran(s, pickClosed).ops; }
  }

  lemma OpResultKeepsInv(s: State, k: nat)
    requires Inv(s) && Enabled(s, OpResult(k))
    ensures KeepsInv(s, OpResult(k))
  {
    ResultKeepsInv(s.(ops := s.ops - {k}), s.ops[k].phase.result);
  }

  lemma TimerKeepsInv(s: State)
    requires Inv(s) && Enabled(s, TimerResult)
    ensures KeepsInv(s, TimerResult)
  {
    ResultKeepsInv(s.(timers := s.timers - 1), Ok);
  }

  lemma UpdateKeepsInv(s: State, t: Task)
    requires Inv(s) && Enabled(s, UpdateRecv(t))
    ensures KeepsInv(s, UpdateRecv(t))
  {
    CancelKeepsKeys(s);
  }

  lemma ShutdownKeepsInv(s: State)
    requires Inv(s) && Enabled(s, ShutdownRecv)
    ensures KeepsInv(s, ShutdownRecv)
  {
    CancelKeepsKeys(s);
  }

  lemma StatusKeepsInv(s: State, k: nat)
    requires Inv(s) && Enabled(s, StatusRecv(k))
    ensures KeepsInv(s, StatusRecv(k))
  {
    MoveKeepsInv(s, StatusTaken(s, k).task, k, StatusTaken(s, k).ops[k]);
  }

  lemma AdvanceKeepsInv(s: State, k: nat, m: Move)
    requires Inv(s) && Enabled(s, Advance(k, m))
    ensures KeepsInv(s, Advance(k, m))
  {
    MoveKeepsInv(s, s.task, k, Moved(s.ops[k], m));
  }

  lemma AbandonKeepsInv(s: State, k: nat)
    requires Inv(s) && Enabled(s, Abandon(k))
    ensures KeepsInv(s, Abandon(k))
  {
  }

  lemma SimpleKeepsInv(s: State, e: Event)
    requires Inv(s) && Enabled(s, e) && Simple(e)
    ensures KeepsInv(s, e)
  {
  }

  lemma StepKeepsInv(s: State, e: Event)
    requires Inv(s) && Enabled(s, e)
    ensures Inv(Step(s, e))
  {
    assert KeepsInv(s, e) by {
      match e
      case Run(pickClosed) => RunKeepsInvariant(s, pickClosed);
      case OpResult(k) => OpResultKeepsInv(s, k);
      case TimerResult => TimerKeepsInv(s);
      case StatusRecv(k) => StatusKeepsInv(s, k);
      case Advance(k, m) => AdvanceKeepsInv(s, k, m);
      case UpdateRecv(t) => UpdateKeepsInv(s, t);
      case ShutdownRecv => ShutdownKeepsInv(s);
      case Abandon(k) => AbandonKeepsInv(s, k);
      case _ => SimpleKeepsInv(s, e);
    }
  }

  lemma CancelKeepsKeys(s: State)
    ensures Cancelled(s).Keys == s.ops.Keys
    ensures Cancelled(s) == map[] <==> s.ops == map[]
  {
    if s.ops != map[] { var k :| k in s.ops; assert k in Cancelled(s); }
  }

  lemma {:induction false} RunKeepsInv(s: State, es: seq<Event>)
    requires Inv(s) && Runs(s, es)
    ensures Inv(Final(s, es))
    decreases |es|
  {
    if es != [] {
      var n := |es| - 1;
      RunKeepsInv(s, es[..n]);
      StepKeepsInv(Final(s, es[..n]), es[n]);
    }
  }

  /** In every reachable live state an operation is in flight, a run token is queued or a retry
      timer is pending, unless the last result was a no-op and no accepted update is waiting. */
  lemma NeverWedges(task: Task, es: seq<Event>)
    requires Runs(Init(task), es)
    ensures var s := Final(Init(task), es);
            Live(s) ==> !s.closed && !s.exited && (Pumped(s) || (!s.updated && s.last == Some(Noop)))
  {
    RunKeepsInv(Init(task), es);
  }

  /** The shutdown branch is off in an open loop only after the request, and only while an
      operation is in flight whose result turns it back on (or the context ends the loop). */
  lemma ShutdownBranchComesBack(task: Task, es: seq<Event>)
    requires Runs(Init(task), es)
    ensures var s := Final(Init(task), es);
            && (!s.shutdownOn && !s.closed ==> s.shutdownReq && (s.ops != map[] || s.ctxDone))
            && (s.shutdownReq ==> forall k :: Enabled(s, OpResult(k)) ==> Step(s, OpResult(k)).shutdownOn)
  {
    RunKeepsInv(Init(task), es);
  }

  // ---- no dispatch after the shutdown request ----

  lemma NoDispatchStep(s: State, e: Event)
    requires s.shutdownReq && Enabled(s, e)
    ensures var s' := Step(s, e);
            s'.shutdownReq && s'.next == s.next && forall k :: k in s'.ops ==> k in s.ops
  {
    match e
    case Run(_) =>
    case OpResult(_) =>
    case TimerResult =>
    case StatusRecv(_) =>
    case Advance(_, _) =>
    case _ =>
  }

  /** Once shutdown is requested, no event of any continuation starts an operation: the number of
      dispatches is frozen and only operations already in flight remain. */
  lemma {:induction false} NoDispatchAfterShutdown(s: State, es: seq<Event>)
    requires s.shutdownReq && Runs(s, es)
    ensures var f := Final(s, es); f.shutdownReq && f.next == s.next && forall k :: k in f.ops ==> k in s.ops
    decreases |es|
  {
    if es != [] {
      var n := |es| - 1;
      NoDispatchAfterShutdown(s, es[..n]);
      NoDispatchStep(Final(s, es[..n]), es[n]);
    }
  }
}
