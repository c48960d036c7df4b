/**
 What a run of the task manager did, read off its events: the managed task is the
 update last accepted with the status last taken, an operation works on the task
 as of its dispatch, behind a controller update whenever one is due, and it is
 cancelled exactly when an update or the shutdown found it outstanding.
 */
module TaskManagerHistory {
  import opened Api
  import opened TaskManager
  import opened TaskManagerSafety

  // ---- the managed task ----

  /** One step: only `statusq` touches the status, only an accepted update the rest. */
  lemma TaskOfStep(s: State, e: Event)
    requires Enabled(s, e)
    ensures var t := Step(s, e).task;
            && t.id == s.task.id
            && t.desired >= s.task.desired
            && (t.status != s.task.status ==> e.StatusRecv? && t.status == s.ops[e.op].phase.status)
            && (!Accepts(s, e) ==> t == s.task.(status := t.status))
  {
    match e
    case UpdateRecv(_) =>
    case StatusRecv(_) =>
    case _ =>
  }

  /** `st` is the status some `exec.Do` of the run returned. */
  ghost predicate Produced(es: seq<Event>, st: Status) {
    exists i :: 0 <= i < |es| && es[i].Advance? && es[i].move.Do? && es[i].move.outcome == Some(st)
  }

  lemma ProducedGrows(es: seq<Event>, st: Status)
    requires es != [] && Produced(es[..|es| - 1], st)
    ensures Produced(es, st)
  {
    var i :| 0 <= i < |es| - 1 && es[..|es| - 1][i].Advance? && es[..|es| - 1][i].move.Do?
             && es[..|es| - 1][i].move.outcome == Some(st);
    assert es[i].Advance?;
  }

  lemma CancelledOp(s: State, k: nat)
    requires k in Cancelled(s)
    ensures k in s.ops && Cancelled(s)[k] == s.ops[k].(cancelled := Cancelled(s)[k].cancelled)
  {
  }

  /** An operation that is still there was dispatched by this step, moved in it, or is as before. */
  ghost predicate Comes(s: State, e: Event, k: nat, op: Op) {
    if Dispatches(s, e) && k == s.next then op == Op(s.task, s.updated, Dispatched, false)
    else
      && k in s.ops && op.task == s.ops[k].task && op.needsUpdate == s.ops[k].needsUpdate
      && (op.phase == s.ops[k].phase || op.phase.Finished? ||
          (e.Advance? && e.op == k && CanMove(s, s.ops[k], e.move) && op == Moved(s.ops[k], e.move)))
  }

  lemma OpComes(s: State, e: Event, k: nat)
    requires Enabled(s, e) && k in OpsAfter(s, e)
    ensures Comes(s, e, k, OpsAfter(s, e)[k])
  {
    match e
    case UpdateRecv(_) => if Accepts(s, e) && s.cancel.Some? { CancelledOp(s, k); }
    case ShutdownRecv => if s.cancel.Some? { CancelledOp(s, k); }
    case _ =>
  }

  lemma SendingOfStep(s: State, e: Event, k: nat)
    requires Enabled(s, e) && k in Step(s, e).ops && Step(s, e).ops[k].phase.Sending?
    ensures var st := Step(s, e).ops[k].phase.status;
            || (k in s.ops && s.ops[k].phase.Sending? && s.ops[k].phase.status == st)
            || (e.Advance? && e.op == k && e.move.Do? && e.move.outcome == Some(st))
    ensures !(e.Advance? && e.op == k && e.move.Do? && k in s.ops && s.ops[k].phase.Sending?)
  {
    OpsOfStep(s, e);
    OpComes(s, e, k);
  }

  /** Over every run the task keeps its ID, its desired state never decreases, and its status is
      the initial one or one that an operation of the run returned. */
  lemma {:induction false} TaskOfRun(task: Task, es: seq<Event>, k: nat)
    requires Runs(Init(task), es)
    ensures var s := Final(Init(task), es);
            && s.task.id == task.id
            && s.task.desired >= task.desired
            && (s.task.status == task.status || Produced(es, s.task.status))
            && (k in s.ops && s.ops[k].phase.Sending? ==> Produced(es, s.ops[k].phase.status))
    decreases |es|
  {
    if es != [] {
      var n := |es| - 1;
      var p := Final(Init(task), es[..n]);
      TaskOfRun(task, es[..n], k);
      TaskOfStep(p, es[n]);
      if Step(p, es[n]).task.status != p.task.status { TaskOfRun(task, es[..n], es[n].op); }
      var s := Step(p, es[n]);
      if Produced(es[..n], s.task.status) { ProducedGrows(es, s.task.status); }
      if k in s.ops && s.ops[k].phase.Sending? {
        SendingOfStep(p, es[n], k);
        if Produced(es[..n], s.ops[k].phase.status) { ProducedGrows(es, s.ops[k].phase.status); }
      }
    }
  }

  // ---- which dispatches carry an update ----

  ghost predicate HappensAt(s: State, es: seq<Event>, i: int, dispatch: bool) {
    && 0 <= i < |es| && Runs(s, es[..i])
    && (if dispatch then Dispatches(Final(s, es[..i]), es[i]) else Accepts(Final(s, es[..i]), es[i]))
  }

  /** An update is accepted at step `i` and no operation is dispatched after it. */
  ghost predicate UndispatchedAt(s: State, es: seq<Event>, i: int) {
    HappensAt(s, es, i, false) && forall j :: i < j < |es| ==> !HappensAt(s, es, j, true)
  }

  /** An update was accepted after the last dispatch of the run. */
  ghost predicate AcceptedSince(s: State, es: seq<Event>) { exists i :: UndispatchedAt(s, es, i) }

  lemma HappensInPrefix(s: State, es: seq<Event>, n: int, i: int, dispatch: bool)
    requires 0 <= i < n <= |es|
    ensures HappensAt(s, es[..n], i, dispatch) <==> HappensAt(s, es, i, dispatch)
  {
    assert es[..n][..i] == es[..i];
  }

  lemma UpdatedOfStep(s: State, e: Event)
    requires Enabled(s, e)
    ensures Step(s, e).updated <==> Accepts(s, e) || (s.updated && !Dispatches(s, e))
    ensures !(Accepts(s, e) && Dispatches(s, e))
  {
    match e
    case UpdateRecv(_) =>
    case Run(_) =>
    case _ =>
  }

  lemma UndispatchedInPrefix(s: State, es: seq<Event>, i: int)
    requires es != [] && i < |es| - 1
    ensures UndispatchedAt(s, es, i)
       <==> UndispatchedAt(s, es[..|es| - 1], i) && !HappensAt(s, es, |es| - 1, true)
  {
    var n := |es| - 1;
    if 0 <= i {
      HappensInPrefix(s, es, n, i, false);
      forall j | i < j < n ensures HappensAt(s, es[..n], j, true) <==> HappensAt(s, es, j, true) {
        HappensInPrefix(s, es, n, j, true);
      }
    }
  }

  lemma AcceptedSinceOfStep(s: State, es: seq<Event>)
    requires es != []
    ensures AcceptedSince(s, es)
       <==> || HappensAt(s, es, |es| - 1, false)
            || (AcceptedSince(s, es[..|es| - 1]) && !HappensAt(s, es, |es| - 1, true))
  {
    var n := |es| - 1;
    forall i | i < n
      ensures UndispatchedAt(s, es, i) <==> UndispatchedAt(s, es[..n], i) && !HappensAt(s, es, n, true)
    {
      UndispatchedInPrefix(s, es, i);
    }
    if HappensAt(s, es, n, false) { assert UndispatchedAt(s, es, n); }
    if i :| UndispatchedAt(s, es[..n], i) { assert i < n; }
  }

  /** The `updated` flag says exactly that an update was accepted since the last dispatch. */
  lemma {:induction false} UpdatedMeansAccepted(task: Task, es: seq<Event>)
    requires Runs(Init(task), es)
    ensures Final(Init(task), es).updated <==> AcceptedSince(Init(task), es)
    decreases |es|
  {
    if es != [] {
      var s0, n := Init(task), |es| - 1;
      UpdatedMeansAccepted(task, es[..n]);
      UpdatedOfStep(Final(s0, es[..n]), es[n]);
      AcceptedSinceOfStep(s0, es);
    }
  }

  // ---- the managed task is the update last accepted ----

  /** In fields, what makes an update accepted. */
  lemma AcceptsExactly(s: State, t: Task)
    ensures Accepts(s, UpdateRecv(t))
       <==> && t.id == s.task.id
            && (t.desired > s.task.desired || (t.desired == s.task.desired && t.spec != s.task.spec))
  {
    assert t.(status := s.task.status, meta := s.task.meta) == Task(t.id, t.desired, s.task.status, s.task.meta, t.spec);
  }

  /** The update the run accepted last, or the task the manager started with. */
  ghost function LastAccepted(task: Task, es: seq<Event>): Task
    decreases |es|
  {
    if es == [] then task
    else var n := |es| - 1;
         if HappensAt(Init(task), es, n, false) then es[n].task else LastAccepted(task, es[..n])
  }

  /** What the last `exec.Do` of operation `k` returned. */
  ghost function LastOutcome(es: seq<Event>, k: nat): Option<Status>
    decreases |es|
  {
    if es == [] then None
    else var n := |es| - 1;
         if es[n].Advance? && es[n].op == k && es[n].move.Do? then es[n].move.outcome else LastOutcome(es[..n], k)
  }

  /** The status the loop took last: what the operation it came from had returned. */
  ghost function LastTaken(task: Task, es: seq<Event>): Option<Status>
    decreases |es|
  {
    if es == [] then Some(task.status)
    else var n := |es| - 1;
         if es[n].StatusRecv? then LastOutcome(es[..n], es[n].op) else LastTaken(task, es[..n])
  }

  lemma {:induction false} SendingIsOutcome(task: Task, es: seq<Event>, k: nat)
    requires Runs(Init(task), es)
    ensures var ops := Final(Init(task), es).ops;
            k in ops && ops[k].phase.Sending? ==> LastOutcome(es, k) == Some(ops[k].phase.status)
    decreases |es|
  {
    if es != [] {
      var n := |es| - 1;
      var p := Final(Init(task), es[..n]);
      var s := Step(p, es[n]);
      SendingIsOutcome(task, es[..n], k);
      if k in s.ops && s.ops[k].phase.Sending? { SendingOfStep(p, es[n], k); }
    }
  }

  lemma TakenOfStep(s: State, e: Event)
    requires Enabled(s, e)
    ensures Step(s, e).task == (if Accepts(s, e) then e.task else s.task).(status :=
                                 if e.StatusRecv? then s.ops[e.op].phase.status else s.task.status)
  {
    match e
    case UpdateRecv(_) =>
    case StatusRecv(_) =>
    case _ =>
  }

  /** Over every run the managed task is the update last accepted, with the status last taken. */
  lemma {:induction false} TaskIsLastAccepted(task: Task, es: seq<Event>)
    requires Runs(Init(task), es)
    ensures LastTaken(task, es).Some?
    ensures Final(Init(task), es).task == LastAccepted(task, es).(status := LastTaken(task, es).value)
    decreases |es|
  {
    if es != [] {
      var n := |es| - 1;
      TaskIsLastAccepted(task, es[..n]);
      TakenOfStep(Final(Init(task), es[..n]), es[n]);
      if es[n].StatusRecv? { SendingIsOutcome(task, es[..n], es[n].op); }
    }
  }

  /** `LastAccepted` by position: the update of the last step that accepts one. */
  lemma {:induction false} LastAcceptedAt(task: Task, es: seq<Event>, i: int)
    requires -1 <= i < |es| && (0 <= i ==> HappensAt(Init(task), es, i, false))
    requires forall j :: i < j < |es| ==> !HappensAt(Init(task), es, j, false)
    ensures LastAccepted(task, es) == if 0 <= i then es[i].task else task
    decreases |es|
  {
    if es != [] && i < |es| - 1 {
      var n := |es| - 1;
      forall j | 0 <= j < n
        ensures HappensAt(Init(task), es[..n], j, false) <==> HappensAt(Init(task), es, j, false)
      {
        HappensInPrefix(Init(task), es, n, j, false);
      }
      LastAcceptedAt(task, es[..n], i);
    }
  }

  // ---- which operations are cancelled ----

  /** The last dispatch of the run came after the last result. */
  ghost predicate Outstanding(s: State, es: seq<Event>)
    decreases |es|
  {
    && es != []
    && var n := |es| - 1;
       HappensAt(s, es, n, true) || (!es[n].OpResult? && !es[n].TimerResult? && Outstanding(s, es[..n]))
  }

  lemma CancelOfStep(s: State, e: Event)
    requires Enabled(s, e)
    ensures var s' := Step(s, e);
            && s'.next == (if Dispatches(s, e) then s.next + 1 else s.next)
            && s'.cancel == if Dispatches(s, e) then Some(s.next)
                            else if e.OpResult? || e.TimerResult? then None else s.cancel
  {
    match e
    case Run(_) =>
    case OpResult(_) =>
    case TimerResult =>
    case _ =>
  }

  /** `cancel` is the operation last dispatched until a result comes, and nil after it. */
  lemma {:induction false} CancelIsOutstanding(task: Task, es: seq<Event>)
    requires Runs(Init(task), es)
    ensures var s := Final(Init(task), es);
            if Outstanding(Init(task), es) then s.next > 0 && s.cancel == Some(s.next - 1) else s.cancel == None
    decreases |es|
  {
    if es != [] {
      CancelIsOutstanding(task, es[..|es| - 1]);
      CancelOfStep(Final(Init(task), es[..|es| - 1]), es[|es| - 1]);
    }
  }

  /** Step `i` accepts an update or a shutdown while `k` is the operation `cancel` stands for. */
  ghost predicate CancelsAt(s: State, es: seq<Event>, i: int, k: nat) {
    && 0 <= i < |es| && Runs(s, es[..i])
    && var p := Final(s, es[..i]);
       p.cancel == Some(k) && (Accepts(p, es[i]) || es[i].ShutdownRecv?)
  }

  /** An update was accepted, or the shutdown taken, while `k` was the outstanding operation. */
  ghost predicate WasCancelled(s: State, es: seq<Event>, k: nat) { exists i :: CancelsAt(s, es, i, k) }

  lemma {:induction false} CancelsEarlier(task: Task, es: seq<Event>, i: int, k: nat)
    requires Runs(Init(task), es) && CancelsAt(Init(task), es, i, k)
    ensures k < Final(Init(task), es).next
    decreases |es|
  {
    var s0, n := Init(task), |es| - 1;
    CancelOfStep(Final(s0, es[..n]), es[n]);
    if i == n {
      CancelIsOutstanding(task, es[..n]);
    } else {
      assert CancelsAt(s0, es[..n], i, k) by { assert es[..n][..i] == es[..i]; }
      CancelsEarlier(task, es[..n], i, k);
    }
  }

  lemma CancelledOfStep(s: State, e: Event, k: nat)
    requires Enabled(s, e) && k in Step(s, e).ops
    ensures Step(s, e).ops[k].cancelled
       <==> && !(Dispatches(s, e) && k == s.next)
            && k in s.ops && (s.ops[k].cancelled || (s.cancel == Some(k) && (Accepts(s, e) || e.ShutdownRecv?)))
  {
    OpsOfStep(s, e);
    match e
    case UpdateRecv(_) =>
    case ShutdownRecv =>
    case _ =>
  }

  lemma CancelsInPrefix(s: State, es: seq<Event>, k: nat)
    requires es != []
    ensures WasCancelled(s, es, k) <==> WasCancelled(s, es[..|es| - 1], k) || CancelsAt(s, es, |es| - 1, k)
  {
    var n := |es| - 1;
    forall i | 0 <= i < n ensures CancelsAt(s, es[..n], i, k) <==> CancelsAt(s, es, i, k) {
      assert es[..n][..i] == es[..i];
    }
    if i :| CancelsAt(s, es, i, k) { assert i == n || CancelsAt(s, es[..n], i, k); }
    if i :| CancelsAt(s, es[..n], i, k) { assert CancelsAt(s, es, i, k); }
  }

  /** An operation in flight is cancelled exactly when an update was accepted, or the shutdown taken,
      while it was the outstanding one. */
  lemma {:induction false} CancelledExactly(task: Task, es: seq<Event>, k: nat)
    requires Runs(Init(task), es) && k in Final(Init(task), es).ops
    ensures Final(Init(task), es).ops[k].cancelled <==> WasCancelled(Init(task), es, k)
    decreases |es|
  {
    var s0, n := Init(task), |es| - 1;
    var p := Final(s0, es[..n]);
    CancelledOfStep(p, es[n], k);
    CancelsInPrefix(s0, es, k);
    OpOfStep(p, es[n], k);
    if k in p.ops && !(Dispatches(p, es[n]) && k == p.next) {
      CancelledExactly(task, es[..n], k);
    } else if i :| CancelsAt(s0, es[..n], i, k) {
      CancelsEarlier(task, es[..n], i, k);
    }
  }

  // ---- what an operation works on ----

  /** Operation `k` was dispatched at step `i` of the run as `op`. */
  ghost predicate DispatchedAt(s: State, es: seq<Event>, i: int, k: nat, op: Op) {
    && HappensAt(s, es, i, true)
    && var p := Final(s, es[..i]);
       k == p.next && op.task == p.task && op.needsUpdate == AcceptedSince(s, es[..i])
  }

  /** `t` is the update last accepted before step `i`, with the status last taken before it. */
  ghost predicate WorksOn(task: Task, es: seq<Event>, i: int, t: Task) {
    && 0 <= i < |es| && LastTaken(task, es[..i]).Some?
    && t == LastAccepted(task, es[..i]).(status := LastTaken(task, es[..i]).value)
  }

  ghost predicate UpdatesBetween(es: seq<Event>, i: int, k: nat) {
    exists m :: 0 <= m < |es| && i < m && es[m] == Advance(k, CtlrUpdate(true))
  }

  ghost predicate Origin(s: State, es: seq<Event>, i: int, k: nat, op: Op) {
    DispatchedAt(s, es, i, k, op) && (op.phase.Updated? ==> UpdatesBetween(es, i, k))
  }

  lemma OpOfStep(s: State, e: Event, k: nat)
    requires Enabled(s, e) && k in Step(s, e).ops
    ensures var op := Step(s, e).ops[k];
            if k in s.ops && !(Dispatches(s, e) && k == s.next) then
              && op.task == s.ops[k].task && op.needsUpdate == s.ops[k].needsUpdate
              && (op.phase.Updated? ==> s.ops[k].phase.Updated? || e == Advance(k, CtlrUpdate(true)))
            else
              Dispatches(s, e) && k == s.next && op == Op(s.task, s.updated, Dispatched, false)
  {
    OpsOfStep(s, e);
    OpComes(s, e, k);
  }

  lemma OriginGrows(s: State, es: seq<Event>, i: int, k: nat, before: Op, op: Op)
    requires es != [] && Origin(s, es[..|es| - 1], i, k, before)
    requires op.task == before.task && op.needsUpdate == before.needsUpdate
    requires op.phase.Updated? ==> before.phase.Updated? || es[|es| - 1] == Advance(k, CtlrUpdate(true))
    ensures Origin(s, es, i, k, op)
  {
    var n := |es| - 1;
    HappensInPrefix(s, es, n, i, true);
    assert es[..n][..i] == es[..i];
    if before.phase.Updated? {
      var m :| 0 <= m < n && i < m && es[..n][m] == Advance(k, CtlrUpdate(true));
      assert es[m] == Advance(k, CtlrUpdate(true));
    }
  }

  lemma {:induction false} OperationOrigin(task: Task, es: seq<Event>, k: nat) returns (i: int)
    requires Runs(Init(task), es) && k in Final(Init(task), es).ops
    ensures Origin(Init(task), es, i, k, Final(Init(task), es).ops[k])
    ensures WorksOn(task, es, i, Final(Init(task), es).ops[k].task)
    decreases |es|
  {
    var s0, n := Init(task), |es| - 1;
    var p := Final(s0, es[..n]);
    OpOfStep(p, es[n], k);
    if k in p.ops && !(Dispatches(p, es[n]) && k == p.next) {
      i := OperationOrigin(task, es[..n], k);
      OriginGrows(s0, es, i, k, p.ops[k], Step(p, es[n]).ops[k]);
      assert es[..n][..i] == es[..i];
    } else {
      i := n;
      UpdatedMeansAccepted(task, es[..n]);
      TaskIsLastAccepted(task, es[..n]);
    }
  }

  /** Whenever an operation executes, it does so on the task as of its dispatch, and if an update
      had been accepted since the previous dispatch, its controller update came first. */
  lemma ExecutionFollowsDispatch(task: Task, es: seq<Event>, k: nat, outcome: Option<Status>, r: Result)
    requires Runs(Init(task), es)
    requires var s := Final(Init(task), es); Enabled(s, Advance(k, Do(outcome, r)))
    ensures var s := Final(Init(task), es);
            exists i ::
              && DispatchedAt(Init(task), es, i, k, s.ops[k])
              && WorksOn(task, es, i, s.ops[k].task)
              && (AcceptedSince(Init(task), es[..i]) ==> UpdatesBetween(es, i, k))
  {
    var i := OperationOrigin(task, es, k);
    assert DispatchedAt(Init(task), es, i, k, Final(Init(task), es).ops[k]);
  }
}
