/**
 The task manager as the object the source has: fields changed in place by the
 branches of the loop's `select`. Every branch computes the step function of
 module TaskManager, so what is proved about runs holds of this object.
 */
module TaskManagerLoop {
  import opened Api
  import opened TaskManager

  /** The cases of the select that have a branch of their own. */
  predicate IsCase(e: Event) {
    e.Run? || e.OpResult? || e.TimerResult? || e.StatusRecv? || e.UpdateRecv? || e.ShutdownRecv?
  }

  class Manager {
    var task: Task
    var runq: bool
    var cancel: Option<nat>
    var updated: bool
    var shutdownOn: bool
    var shutdownReq: bool
    var closed: bool
    var exited: bool
    var ctxDone: bool
    var ops: map<nat, Op>
    var next: nat
    var timers: nat
    var last: Option<Result>

    function View(): State
      reads this
    {
      State(task, runq, cancel, updated, shutdownOn, shutdownReq, closed, exited, ctxDone, ops, next, timers, last)
    }

    /** `newTaskManager` and the start of `run`: the queue is primed with one token. */
    constructor (t: Task)
      ensures View() == Init(t)
    {
      task, runq, cancel, updated := t, true, None, false;
      shutdownOn, shutdownReq, closed, exited, ctxDone := true, false, false, false, false;
      ops, next, timers, last := map[], 0, 0, None;
    }

    method Pump()
      modifies this`runq
      ensures runq
    {
      if !runq { runq := true; }
    }

    method CancelOutstanding()
      modifies this`ops
      ensures ops == Cancelled(old(View()))
    {
      if cancel.Some? && cancel.value in ops {
        ops := ops[cancel.value := ops[cancel.value].(cancelled := true)];
      }
    }

    method OnRun(pickClosed: bool)
      requires Enabled(View(), Run(pickClosed))
      modifies this
      ensures View() == Step(old(View()), Run(pickClosed))
    {
      runq := false;
      if shutdownReq && !pickClosed {
        shutdownOn := true;
        return;
      }
      if shutdownReq || closed { return; }
      ops := ops[next := Op(task, updated, Dispatched, false)];
      cancel, updated, next := Some(next), false, next + 1;
    }

    method OnResult(r: Result)
      modifies this
      ensures View() == Completed(old(View()), r)
    {
      cancel, last := None, Some(r);
      if shutdownReq {
        shutdownOn := true;
        return;
      }
      match r {
        case Noop => if !updated { return; }
        case Retry =>
          timers := timers + 1;
          return;
        case _ =>
      }
      Pump();
    }

    method OnStatus(k: nat)
      requires Enabled(View(), StatusRecv(k))
      modifies this
      ensures View() == Step(old(View()), StatusRecv(k))
    {
      task := task.(status := ops[k].phase.status);
      ops := ops[k := ops[k].(phase := Finished(ops[k].phase.result))];
    }

    method OnUpdate(t: Task)
      requires Enabled(View(), UpdateRecv(t))
      modifies this
      ensures View() == Step(old(View()), UpdateRecv(t))
    {
      if EqualStable(t, task) { return; }
      if t.id != task.id { return; }
      if t.desired < task.desired { return; }
      task := t.(status := task.status);
      updated := true;
      if cancel.Some? { CancelOutstanding(); } else { Pump(); }
    }

    method OnShutdown()
      requires Enabled(View(), ShutdownRecv)
      modifies this
      ensures View() == Step(old(View()), ShutdownRecv)
    {
      if cancel.Some? {
        CancelOutstanding();
        shutdownOn := false;
        return;
      }
      shutdownOn := false;
      closed := true;
    }

    method OnOpResult(k: nat)
      requires Enabled(View(), OpResult(k))
      modifies this
      ensures View() == Step(old(View()), OpResult(k))
    {
      var r := ops[k].phase.result;
      ops := ops - {k};
      OnResult(r);
    }

    method OnTimer()
      requires Enabled(View(), TimerResult)
      modifies this
      ensures View() == Step(old(View()), TimerResult)
    {
      timers := timers - 1;
      OnResult(Ok);
    }

    /** What happens outside the loop: moves of operations, requests, and the returns of the loop. */
    method Outside(e: Event)
      requires Enabled(View(), e) && !IsCase(e)
      modifies this
      ensures View() == Step(old(View()), e)
    {
      match e {
        case ClosedRecv => exited := true;
        case CtxRecv => closed, exited := true, true;
        case Advance(k, m) => ops := ops[k := Moved(ops[k], m)];
        case Abandon(k) => ops := ops - {k};
        case RequestShutdown => shutdownReq := true;
        case CancelContext => ctxDone := true;
      }
    }

    /** One round of the loop, or one move of its environment. */
    method Select(e: Event)
      requires Enabled(View(), e)
      modifies this
      ensures View() == Step(old(View()), e)
    {
      match e {
        case Run(pickClosed) => OnRun(pickClosed);
        case OpResult(k) => OnOpResult(k);
        case TimerResult => OnTimer();
        case StatusRecv(k) => OnStatus(k);
        case UpdateRecv(t) => OnUpdate(t);
        case ShutdownRecv => OnShutdown();
        case _ => Outside(e);
      }
    }

    /** The loop over any schedule of ready events. */
    method Loop(es: seq<Event>)
      requires Runs(View(), es)
      modifies this
      ensures View() == Final(old(View()), es)
    {
      ghost var s0 := View();
      PrefixRuns(s0, es);
      for i := 0 to |es|
        invariant Runs(s0, es[..i]) && View() == Final(s0, es[..i])
      {
        assert es[..i + 1][..i] == es[..i];
        Select(es[i]);
      }
      assert es[..|es|] == es;
    }
  }

  lemma {:induction false} PrefixRuns(s: State, es: seq<Event>)
    requires Runs(s, es)
    ensures forall i :: 0 <= i <= |es| ==> Runs(s, es[..i])
    decreases |es|
  {
    var n := |es| - 1;
    if es != [] { PrefixRuns(s, es[..n]); }
    forall i | 0 <= i <= |es| ensures Runs(s, es[..i]) {
      if i == |es| { assert es[..i] == es; } else { assert es[..n][..i] == es[..i]; }
    }
  }
}
