/**
 The loop's variables as functions of what happened: every flag, counter and
 channel of the task manager is determined by the events of the run alone.
 */
module TaskManagerTrace {
  import opened Api
  import opened TaskManager
  import opened TaskManagerSafety
  import opened TaskManagerHistory

  /** The result operation `k` offers to the loop: of its `exec.Do`, or of a failed controller update. */
  ghost function Offered(es: seq<Event>, k: nat): Option<Result>
    decreases |es|
  {
    if es == [] then None
    else var n := |es| - 1;
         if es[n].Advance? && es[n].op == k && es[n].move.Do? then Some(es[n].move.result)
         else if es[n] == Advance(k, CtlrUpdate(false)) then Some(Failed)
         else Offered(es[..n], k)
  }

  /** The result the last event of the run brings on the `errs` channel. */
  ghost function Received(es: seq<Event>): Option<Result> {
    if es == [] then None
    else match es[|es| - 1]
         case OpResult(k) => Offered(es[..|es| - 1], k)
         case TimerResult => Some(Ok)
         case _ => None
  }

  /** The last event puts a token on the `run` channel: an update finds nothing outstanding, or a
      result comes that is neither a retry nor an idle no-op, and no shutdown is requested. */
  ghost predicate Pumps(task: Task, es: seq<Event>) {
    && es != []
    && var n := |es| - 1;
       || (HappensAt(Init(task), es, n, false) && !Outstanding(Init(task), es[..n]))
       || (&& RequestShutdown !in es
           && match Received(es)
              case None => false
              case Some(Retry) => false
              case Some(Noop) => AcceptedSince(Init(task), es[..n])
              case Some(_) => true)
  }

  /** The `run` channel was filled since it was last emptied; at the start it is full. */
  ghost predicate Token(task: Task, es: seq<Event>)
    decreases |es|
  {
    es == [] || (!es[|es| - 1].Run? && (Pumps(task, es) || Token(task, es[..|es| - 1])))
  }

  /** Retry results that came before any shutdown request, less the timers that fired. */
  ghost function Timers(es: seq<Event>): int
    decreases |es|
  {
    if es == [] then 0
    else Timers(es[..|es| - 1])
         + (if Received(es) == Some(Retry) && RequestShutdown !in es then 1 else 0)
         - (if es[|es| - 1].TimerResult? then 1 else 0)
  }

  /** The shutdown branch is off from its own turn until a result or an empty turn of `run`. */
  ghost predicate Listening(es: seq<Event>)
    decreases |es|
  {
    es == [] ||
    var n := |es| - 1;
    !es[n].ShutdownRecv? &&
    (Listening(es[..n]) || (RequestShutdown in es && (Received(es).Some? || es[n] == Run(false))))
  }

  /** The context's end, or a shutdown that found nothing outstanding, closed the manager. */
  ghost predicate Closed(task: Task, es: seq<Event>)
    decreases |es|
  {
    && es != []
    && var n := |es| - 1;
       Closed(task, es[..n]) || es[n].CtxRecv? || (es[n].ShutdownRecv? && !Outstanding(Init(task), es[..n]))
  }

  ghost function DispatchCount(task: Task, es: seq<Event>): nat
    decreases |es|
  {
    if es == [] then 0
    else DispatchCount(task, es[..|es| - 1]) + if HappensAt(Init(task), es, |es| - 1, true) then 1 else 0
  }

  // ---- one step ----

  /** The result the event brings, read from the state. */
  ghost function ResultOf(s: State, e: Event): Option<Result>
    requires Enabled(s, e)
  {
    match e
    case OpResult(k) => Some(s.ops[k].phase.result)
    case TimerResult => Some(Ok)
    case _ => None
  }

  ghost predicate Pumping(s: State, e: Event)
    requires Enabled(s, e)
  {
    || (Accepts(s, e) && s.cancel.None?)
    || (&& !s.shutdownReq
        && match ResultOf(s, e)
           case None => false
           case Some(Retry) => false
           case Some(Noop) => s.updated
           case Some(_) => true)
  }

  ghost predicate Follows(s: State, e: Event)
    requires Enabled(s, e)
  {
    var s' := Step(s, e);
    && s'.runq == (!e.Run? && (Pumping(s, e) || s.runq))
    && s'.timers == s.timers + (if ResultOf(s, e) == Some(Retry) && !s.shutdownReq then 1 else 0)
                    - (if e.TimerResult? then 1 else 0)
    && s'.shutdownOn == (!e.ShutdownRecv? && (s.shutdownOn || (s.shutdownReq && (ResultOf(s, e).Some? || e == Run(false)))))
    && s'.closed == (s.closed || e.CtxRecv? || (e.ShutdownRecv? && s.cancel.None?))
    && s'.exited == (s.exited || e.CtxRecv? || e.ClosedRecv?)
    && s'.ctxDone == (s.ctxDone || e.CancelContext?)
    && s'.shutdownReq == (s.shutdownReq || e.RequestShutdown?)
  }

  lemma ResultFollows(s: State, k: nat)
    requires Enabled(s, OpResult(k))
    ensures Follows(s, OpResult(k))
  {
  }

  lemma TimerFollows(s: State)
    requires Enabled(s, TimerResult)
    ensures Follows(s, TimerResult)
  {
  }

  lemma RunFollows(s: State, pickClosed: bool)
    requires Enabled(s, Run(pickClosed))
    ensures Follows(s, Run(pickClosed))
  {
  }

  lemma StepFollows(s: State, e: Event)
    requires Enabled(s, e)
    ensures Follows(s, e)
  {
    match e
    case OpResult(k) => ResultFollows(s, k);
    case TimerResult => TimerFollows(s);
    case Run(pickClosed) => RunFollows(s, pickClosed);
    case _ =>
  }

  // ---- whole runs ----

  /** What an operation past its execution will hand over. */
  ghost predicate Offers(op: Op, r: Option<Result>) {
    (op.phase.Sending? || op.phase.Finished?) ==> r == Some(op.phase.result)
  }

  lemma OffersOfStep(s: State, e: Event, k: nat, r: Option<Result>)
    requires Enabled(s, e) && k in Step(s, e).ops
    requires k in s.ops ==> Offers(s.ops[k], r)
    ensures Offers(Step(s, e).ops[k],
                   if e.Advance? && e.op == k && e.move.Do? then Some(e.move.result)
                   else if e == Advance(k, CtlrUpdate(false)) then Some(Failed) else r)
  {
    OpsOfStep(s, e);
    match e
    case UpdateRecv(_) =>
    case ShutdownRecv =>
    case _ =>
  }

  lemma {:induction false} OfferedIsResult(task: Task, es: seq<Event>, k: nat)
    requires Runs(Init(task), es)
    ensures var ops := Final(Init(task), es).ops;
            k in ops ==> Offers(ops[k], Offered(es, k))
    decreases |es|
  {
    if es != [] && k in Final(Init(task), es).ops {
      var n := |es| - 1;
      OfferedIsResult(task, es[..n], k);
      OffersOfStep(Final(Init(task), es[..n]), es[n], k, Offered(es[..n], k));
    }
  }

  /** What was asked of the loop, and whether it returned. */
  ghost predicate Asked(es: seq<Event>, s: State) {
    && s.exited == (CtxRecv in es || ClosedRecv in es)
    && s.ctxDone == (CancelContext in es)
    && s.shutdownReq == (RequestShutdown in es)
  }

  ghost predicate Determined(task: Task, es: seq<Event>, s: State) {
    && s.runq == Token(task, es)
    && s.timers == Timers(es)
    && s.shutdownOn == Listening(es)
    && s.closed == Closed(task, es)
    && s.next == DispatchCount(task, es)
  }

  lemma Extends(es: seq<Event>, e: Event)
    requires es != []
    ensures e in es <==> e in es[..|es| - 1] || es[|es| - 1] == e
  {
    assert es == es[..|es| - 1] + [es[|es| - 1]];
  }

  lemma AskedStep(es: seq<Event>, p: State)
    requires es != [] && Asked(es[..|es| - 1], p) && Enabled(p, es[|es| - 1])
    ensures Asked(es, Step(p, es[|es| - 1]))
  {
    StepFollows(p, es[|es| - 1]);
    Extends(es, CtxRecv);
    Extends(es, ClosedRecv);
    Extends(es, CancelContext);
    Extends(es, RequestShutdown);
  }

  lemma ReceivedIs(task: Task, es: seq<Event>)
    requires Runs(Init(task), es) && es != []
    ensures Received(es) == ResultOf(Final(Init(task), es[..|es| - 1]), es[|es| - 1])
  {
    var n := |es| - 1;
    if es[n].OpResult? { OfferedIsResult(task, es[..n], es[n].op); }
  }

  /** What the last event means in the state it met. */
  ghost predicate Meets(task: Task, es: seq<Event>, p: State) {
    && es != [] && Runs(Init(task), es) && p == Final(Init(task), es[..|es| - 1])
    && var n := |es| - 1;
       && Received(es) == ResultOf(p, es[n])
       && p.cancel.Some? == Outstanding(Init(task), es[..n])
       && p.updated == AcceptedSince(Init(task), es[..n])
       && p.shutdownReq == (RequestShutdown in es[..n])
  }

  lemma TokenStep(task: Task, es: seq<Event>, p: State)
    requires Meets(task, es, p) && p.runq == Token(task, es[..|es| - 1])
    ensures Step(p, es[|es| - 1]).runq == Token(task, es)
  {
    StepFollows(p, es[|es| - 1]);
    Extends(es, RequestShutdown);
  }

  lemma DeterminedStep(task: Task, es: seq<Event>, p: State)
    requires Meets(task, es, p) && Determined(task, es[..|es| - 1], p)
    ensures Determined(task, es, Step(p, es[|es| - 1]))
  {
    StepFollows(p, es[|es| - 1]);
    CancelOfStep(p, es[|es| - 1]);
    Extends(es, RequestShutdown);
    TokenStep(task, es, p);
  }

  /** Over every run the loop's flags, its queue, its timers and its count of dispatches are what
      the events say. */
  lemma {:induction false} LoopIsItsTrace(task: Task, es: seq<Event>)
    requires Runs(Init(task), es)
    ensures Asked(es, Final(Init(task), es)) && Determined(task, es, Final(Init(task), es))
    decreases |es|
  {
    if es != [] {
      var n := |es| - 1;
      var p := Final(Init(task), es[..n]);
      LoopIsItsTrace(task, es[..n]);
      ReceivedIs(task, es);
      CancelIsOutstanding(task, es[..n]);
      UpdatedMeansAccepted(task, es[..n]);
      AskedStep(es, p);
      DeterminedStep(task, es, p);
    }
  }

  /** An operation is in flight exactly when it was dispatched and neither handed over nor abandoned. */
  lemma {:induction false} InFlightExactly(task: Task, es: seq<Event>, k: nat)
    requires Runs(Init(task), es)
    ensures k in Final(Init(task), es).ops
       <==> k < DispatchCount(task, es) && OpResult(k) !in es && Abandon(k) !in es
    ensures OpResult(k) in es || Abandon(k) in es ==> k < DispatchCount(task, es)
    decreases |es|
  {
    LoopIsItsTrace(task, es);
    if es != [] {
      var n := |es| - 1;
      var p := Final(Init(task), es[..n]);
      InFlightExactly(task, es[..n], k);
      LoopIsItsTrace(task, es[..n]);
      Extends(es, OpResult(k));
      Extends(es, Abandon(k));
      OpsOfStep(p, es[n]);
      InFlightStep(p, es[n], k);
    }
  }

  lemma InFlightStep(s: State, e: Event, k: nat)
    requires Enabled(s, e)
    ensures k in OpsAfter(s, e)
       <==> (k in s.ops && e != OpResult(k) && e != Abandon(k)) || (Dispatches(s, e) && k == s.next)
    ensures e == OpResult(k) || e == Abandon(k) ==> k in s.ops
  {
  }

  // ---- the operations ----

  /** How far operation `k` has come: the controller's update, the execution, whose status it offers
      before its result, and the loop or the end of the context that takes the status off it. */
  ghost function Progress(es: seq<Event>, k: nat): Phase
    decreases |es|
  {
    if es == [] then Dispatched
    else
      var n := |es| - 1;
      match es[n]
      case Advance(j, CtlrUpdate(ok)) =>
        if j != k then Progress(es[..n], k) else if ok then Updated else Finished(Failed)
      case Advance(j, Do(None, r)) => if j != k then Progress(es[..n], k) else Finished(r)
      case Advance(j, Do(Some(st), r)) => if j != k then Progress(es[..n], k) else Sending(st, r)
      case Advance(j, GiveUpStatus) => if j != k then Progress(es[..n], k) else WithoutStatus(Progress(es[..n], k))
      case StatusRecv(j) => if j != k then Progress(es[..n], k) else WithoutStatus(Progress(es[..n], k))
      case _ => Progress(es[..n], k)
  }

  function WithoutStatus(p: Phase): Phase { if p.Sending? then Finished(p.result) else p }

  lemma ProgressStep(s: State, e: Event, k: nat, es: seq<Event>)
    requires Enabled(s, e) && k in Step(s, e).ops && k in s.ops && !(Dispatches(s, e) && k == s.next)
    requires es != [] && es[|es| - 1] == e && s.ops[k].phase == Progress(es[..|es| - 1], k)
    ensures Step(s, e).ops[k].phase == Progress(es, k)
  {
    OpsOfStep(s, e);
    match e
    case UpdateRecv(_) => if Accepts(s, e) && s.cancel.Some? { CancelledOp(s, k); }
    case ShutdownRecv => if s.cancel.Some? { CancelledOp(s, k); }
    case _ =>
  }

  /** Nothing has happened to an operation before it is dispatched. */
  lemma {:induction false} NotBefore(task: Task, es: seq<Event>, k: nat)
    requires Runs(Init(task), es) && k >= DispatchCount(task, es)
    ensures Progress(es, k) == Dispatched
    decreases |es|
  {
    if es != [] {
      var n := |es| - 1;
      NotBefore(task, es[..n], k);
      InFlightExactly(task, es[..n], k);
    }
  }

  /** Over every run an operation in flight is exactly as far as the events say. */
  lemma {:induction false} PhaseIsItsTrace(task: Task, es: seq<Event>, k: nat)
    requires Runs(Init(task), es) && k in Final(Init(task), es).ops
    ensures Final(Init(task), es).ops[k].phase == Progress(es, k)
    decreases |es|
  {
    var n := |es| - 1;
    var p := Final(Init(task), es[..n]);
    OpOfStep(p, es[n], k);
    if k in p.ops && !(Dispatches(p, es[n]) && k == p.next) {
      PhaseIsItsTrace(task, es[..n], k);
      ProgressStep(p, es[n], k, es);
    } else {
      LoopIsItsTrace(task, es[..n]);
      NotBefore(task, es[..n], k);
    }
  }
}
