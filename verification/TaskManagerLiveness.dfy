/**
 Progress of the task manager's loop. Under the fairness of Go's scheduler (a
 goroutine that can move eventually does) every accepted update reaches the
 controller through a new dispatch, and a requested shutdown completes.
 */
module TaskManagerLiveness {
  import opened Api
  import opened TaskManager
  import opened TaskManagerSafety

  /** The moves of the loop and of its operations; the rest is the environment's choice. */
  predicate Progress(e: Event) { !e.UpdateRecv? && !e.RequestShutdown? && !e.CancelContext? }

  ghost predicate CanProgress(s: State) { exists e :: Enabled(s, e) && Progress(e) }

  // ---- how much work the operations in flight still have ----

  function Rank(p: Phase): nat {
    match p
    case Dispatched => 5
    case Updated => 4
    case Sending(_, _) => 3
    case Finished(_) => 2
  }

  function RankAt(ops: map<nat, Op>, k: nat): nat { if k in ops then Rank(ops[k].phase) else 0 }

  function Work(ops: map<nat, Op>, n: nat): nat {
    if n == 0 then 0 else RankAt(ops, n - 1) + Work(ops, n - 1)
  }

  lemma {:induction false} WorkSame(a: map<nat, Op>, b: map<nat, Op>, n: nat)
    requires forall k :: 0 <= k < n ==> RankAt(a, k) == RankAt(b, k)
    ensures Work(a, n) == Work(b, n)
  {
    if n > 0 { WorkSame(a, b, n - 1); }
  }

  lemma {:induction false} WorkDiffers(a: map<nat, Op>, b: map<nat, Op>, k: nat, n: nat)
    requires k < n && forall j :: 0 <= j < n && j != k ==> RankAt(a, j) == RankAt(b, j)
    ensures Work(b, n) - Work(a, n) == RankAt(b, k) - RankAt(a, k)
  {
    if k == n - 1 { WorkSame(a, b, n - 1); } else { WorkDiffers(a, b, k, n - 1); }
  }

  lemma CancelKeepsWork(s: State)
    ensures Work(Cancelled(s), s.next) == Work(s.ops, s.next)
  {
    WorkSame(Cancelled(s), s.ops, s.next);
  }

  lemma MoveWork(s: State, k: nat, m: Move)
    requires Inv(s) && k in s.ops && CanMove(s, s.ops[k], m)
    ensures Work(s.ops[k := Moved(s.ops[k], m)], s.next) <= Work(s.ops, s.next) - 1
  {
    WorkDiffers(s.ops, s.ops[k := Moved(s.ops[k], m)], k, s.next);
  }

  lemma EndWork(s: State, k: nat)
    requires Inv(s) && k in s.ops
    ensures Work(s.ops - {k}, s.next) <= Work(s.ops, s.next) - 2
  {
    WorkDiffers(s.ops, s.ops - {k}, k, s.next);
  }

  lemma StatusWork(s: State, k: nat)
    requires Inv(s) && k in s.ops && s.ops[k].phase.Sending?
    ensures Work(s.ops[k := s.ops[k].(phase := Finished(s.ops[k].phase.result))], s.next) <= Work(s.ops, s.next) - 1
  {
    WorkDiffers(s.ops, s.ops[k := s.ops[k].(phase := Finished(s.ops[k].phase.result))], k, s.next);
  }

  /** The effect of every step on the work left, when the step starts no operation. */
  lemma WorkOfStep(s: State, e: Event)
    requires Inv(s) && Enabled(s, e) && !Dispatches(s, e)
    ensures var s' := Step(s, e);
            && s'.next == s.next
            && Work(s'.ops, s.next) <= Work(s.ops, s.next)
            && (e.OpResult? || e.Abandon? ==> Work(s'.ops, s.next) <= Work(s.ops, s.next) - 2)
            && (e.StatusRecv? || e.Advance? ==> Work(s'.ops, s.next) <= Work(s.ops, s.next) - 1)
  {
    OpsOfStep(s, e);
    match e
    case OpResult(k) => EndWork(s, k);
    case Abandon(k) => EndWork(s, k);
    case StatusRecv(k) => StatusWork(s, k);
    case Advance(k, m) => MoveWork(s, k, m);
    case UpdateRecv(_) => CancelKeepsWork(s);
    case ShutdownRecv => CancelKeepsWork(s);
    case _ =>
  }

  lemma OpCanMove(s: State)
    requires s.ops != map[] && !s.closed
    ensures CanProgress(s)
  {
    var k :| k in s.ops;
    var op := s.ops[k];
    match op.phase
    case Dispatched =>
      if op.needsUpdate { assert Enabled(s, Advance(k, CtlrUpdate(true))); }
      else { assert Enabled(s, Advance(k, Do(None, Ok))); }
    case Updated => assert Enabled(s, Advance(k, Do(None, Ok)));
    case Sending(_, _) => assert Enabled(s, StatusRecv(k));
    case Finished(_) => assert Enabled(s, OpResult(k));
  }

  // ---- infinite behaviours ----

  ghost predicate StepsAt(tr: nat -> State, ev: nat -> Event, n: nat) {
    Enabled(tr(n), ev(n)) && tr(n + 1) == Step(tr(n), ev(n))
  }

  ghost predicate Behaviour(tr: nat -> State, ev: nat -> Event) {
    Inv(tr(0)) && forall n: nat :: StepsAt(tr, ev, n)
  }

  /** Weak fairness: when something can move, something eventually does. */
  ghost predicate Fair(tr: nat -> State, ev: nat -> Event) {
    forall n: nat {:trigger CanProgress(tr(n))} ::
      CanProgress(tr(n)) ==> exists m: nat :: n <= m && Progress(ev(m))
  }

  lemma {:induction false} BehaviourKeepsInv(tr: nat -> State, ev: nat -> Event, n: nat)
    requires Behaviour(tr, ev)
    ensures Inv(tr(n))
  {
    if n > 0 {
      BehaviourKeepsInv(tr, ev, n - 1);
      assert StepsAt(tr, ev, n - 1);
      StepKeepsInv(tr(n - 1), ev(n - 1));
    }
  }

  // ---- every accepted update is dispatched ----

  /** While the loop is live and has not dispatched, each of its moves uses this up. */
  function Backlog(s: State): nat { Work(s.ops, s.next) + s.timers }

  lemma BacklogOfStep(s: State, e: Event)
    requires Inv(s) && Live(s) && Enabled(s, e) && !Dispatches(s, e) && Live(Step(s, e))
    ensures Backlog(Step(s, e)) <= Backlog(s) - (if Progress(e) then 1 else 0)
    ensures s.updated ==> Step(s, e).updated
  {
    WorkOfStep(s, e);
  }

  lemma UpdatedCanProgress(s: State)
    requires Inv(s) && Live(s) && s.updated
    ensures CanProgress(s)
  {
    if s.ops != map[] { OpCanMove(s); }
    else if s.runq { assert Enabled(s, Run(false)); }
    else { assert Enabled(s, TimerResult); }
  }

  ghost predicate AlwaysLive(tr: nat -> State) { forall i: nat :: Live(tr(i)) }

  lemma LiveStep(tr: nat -> State, ev: nat -> Event, n: nat)
    requires Behaviour(tr, ev) && AlwaysLive(tr) && !Dispatches(tr(n), ev(n))
    ensures Backlog(tr(n + 1)) <= Backlog(tr(n)) - (if Progress(ev(n)) then 1 else 0)
    ensures tr(n).updated || Accepts(tr(n), ev(n)) ==> tr(n + 1).updated && CanProgress(tr(n + 1))
  {
    BehaviourKeepsInv(tr, ev, n);
    BehaviourKeepsInv(tr, ev, n + 1);
    assert StepsAt(tr, ev, n) && Live(tr(n)) && Live(tr(n + 1));
    BacklogOfStep(tr(n), ev(n));
    if tr(n + 1).updated { UpdatedCanProgress(tr(n + 1)); }
  }

  lemma {:induction false} DispatchBefore(tr: nat -> State, ev: nat -> Event, n: nat, m: nat)
    requires Behaviour(tr, ev) && Fair(tr, ev) && AlwaysLive(tr)
    requires n <= m && Progress(ev(m)) && tr(n).updated
    ensures exists d: nat :: n <= d && Dispatches(tr(d), ev(d))
    decreases Backlog(tr(n)), m - n
  {
    if !Dispatches(tr(n), ev(n)) {
      LiveStep(tr, ev, n);
      var m' := m;
      if Progress(ev(n)) { m' :| n + 1 <= m' && Progress(ev(m')); }
      DispatchBefore(tr, ev, n + 1, m');
      var d: nat :| n + 1 <= d && Dispatches(tr(d), ev(d));
    }
  }

  /** On every fair behaviour that nobody stops, an accepted update is followed by a dispatch. */
  lemma AcceptedUpdateIsDispatched(tr: nat -> State, ev: nat -> Event, n: nat)
    requires Behaviour(tr, ev) && Fair(tr, ev) && AlwaysLive(tr)
    requires Accepts(tr(n), ev(n))
    ensures exists d: nat :: n < d && Dispatches(tr(d), ev(d))
  {
    LiveStep(tr, ev, n);
    var m: nat :| n + 1 <= m && Progress(ev(m));
    DispatchBefore(tr, ev, n + 1, m);
    var d: nat :| n + 1 <= d && Dispatches(tr(d), ev(d));
  }

  // ---- a requested shutdown completes ----

  function Bit(b: bool): nat { if b then 1 else 0 }

  /** After the shutdown request each move of the loop or of an operation uses this up. */
  function ShutdownFuel(s: State): nat {
    Work(s.ops, s.next) + Flags(s)
  }

  /** The part of the fuel that is not the work of operations. */
  function Flags(s: State): nat {
    2 * s.timers + 2 * Bit(s.runq) + Bit(s.shutdownOn) + Bit(!s.closed) + Bit(!s.exited)
  }

  lemma CompletedFlags(s: State, r: Result)
    requires s.shutdownReq
    ensures Completed(s, r).shutdownReq && Flags(Completed(s, r)) <= Flags(s) + 1
  {
  }

  /** How the flags change by a step of a shutdown. */
  predicate UsesFlags(s: State, e: Event)
    requires Enabled(s, e)
  {
    && Step(s, e).shutdownReq
    && (if e.OpResult? then Flags(Step(s, e)) <= Flags(s) + 1
        else if e.UpdateRecv? then Flags(Step(s, e)) <= Flags(s) + 2
        else if e.Run? || e.TimerResult? || e.ShutdownRecv? || e.ClosedRecv? || e.CtxRecv? then Flags(Step(s, e)) < Flags(s)
        else Flags(Step(s, e)) <= Flags(s))
  }

  lemma OpResultFlags(s: State, k: nat)
    requires s.shutdownReq && Enabled(s, OpResult(k))
    ensures UsesFlags(s, OpResult(k))
  {
    CompletedFlags(s.(ops := s.ops - {k}), s.ops[k].phase.result);
  }

  lemma TimerFlags(s: State)
    requires s.shutdownReq && Enabled(s, TimerResult)
    ensures UsesFlags(s, TimerResult)
  {
    CompletedFlags(s.(timers := s.timers - 1), Ok);
  }

  lemma RunFlags(s: State, pickClosed: bool)
    requires s.shutdownReq && Enabled(s, Run(pickClosed))
    ensures UsesFlags(s, Run(pickClosed))
  {
  }

  lemma UpdateFlags(s: State, t: Task)
    requires s.shutdownReq && Enabled(s, UpdateRecv(t))
    ensures UsesFlags(s, UpdateRecv(t))
  {
  }

  lemma ShutdownFlags(s: State)
    requires s.shutdownReq && Enabled(s, ShutdownRecv)
    ensures UsesFlags(s, ShutdownRecv)
  {
  }

  lemma OperationFlags(s: State, e: Event)
    requires s.shutdownReq && Enabled(s, e) && (e.StatusRecv? || e.Advance? || e.Abandon?)
    ensures UsesFlags(s, e)
  {
  }

  lemma SimpleFlags(s: State, e: Event)
    requires s.shutdownReq && Enabled(s, e) && Simple(e)
    ensures UsesFlags(s, e)
  {
  }

  lemma FlagsOfStep(s: State, e: Event)
    requires s.shutdownReq && Enabled(s, e)
    ensures UsesFlags(s, e)
  {
    match e
    case OpResult(k) => OpResultFlags(s, k);
    case TimerResult => TimerFlags(s);
    case Run(pickClosed) => RunFlags(s, pickClosed);
    case UpdateRecv(t) => UpdateFlags(s, t);
    case ShutdownRecv => ShutdownFlags(s);
    case _ => if Simple(e) { SimpleFlags(s, e); } else { OperationFlags(s, e); }
  }

  lemma FuelOfStep(s: State, e: Event)
    requires Inv(s) && s.shutdownReq && Enabled(s, e)
    ensures Step(s, e).shutdownReq
    ensures Progress(e) ==> ShutdownFuel(Step(s, e)) < ShutdownFuel(s)
    ensures ShutdownFuel(Step(s, e)) <= ShutdownFuel(s) + (if e.UpdateRecv? then 2 else 0)
  {
    WorkOfStep(s, e);
    FlagsOfStep(s, e);
  }

  lemma ShutdownCanProgress(s: State)
    requires Inv(s) && s.shutdownReq && !s.exited
    ensures CanProgress(s)
  {
    if s.closed { assert Enabled(s, ClosedRecv); }
    else if s.shutdownOn { assert Enabled(s, ShutdownRecv); }
    else if s.ops != map[] { OpCanMove(s); }
    else { assert Enabled(s, CtxRecv); }
  }

  function Count(es: seq<Event>, updates: bool): nat {
    if es == [] then 0
    else Count(es[..|es| - 1], updates)
         + Bit(if updates then es[|es| - 1].UpdateRecv? else Progress(es[|es| - 1]))
  }

  /** After the request, the moves of any run are bounded by the fuel at the request plus two for
      each further update; and as long as the loop has not returned, some move is possible. */
  lemma {:induction false} ShutdownIsBounded(s: State, es: seq<Event>)
    requires Inv(s) && s.shutdownReq && Runs(s, es)
    ensures var f := Final(s, es);
            && Inv(f) && f.shutdownReq
            && Count(es, false) + ShutdownFuel(f) <= ShutdownFuel(s) + 2 * Count(es, true)
            && (!f.exited ==> CanProgress(f))
    decreases |es|
  {
    if es != [] {
      var n := |es| - 1;
      ShutdownIsBounded(s, es[..n]);
      FuelOfStep(Final(s, es[..n]), es[n]);
      StepKeepsInv(Final(s, es[..n]), es[n]);
    }
    if !Final(s, es).exited { ShutdownCanProgress(Final(s, es)); }
  }

  lemma ShutdownStep(tr: nat -> State, ev: nat -> Event, n: nat)
    requires Behaviour(tr, ev) && tr(n).shutdownReq && !ev(n).UpdateRecv?
    ensures tr(n + 1).shutdownReq
    ensures ShutdownFuel(tr(n + 1)) <= ShutdownFuel(tr(n)) - (if Progress(ev(n)) then 1 else 0)
    ensures tr(n + 1).exited || CanProgress(tr(n + 1))
    ensures tr(n).exited ==> tr(n).closed
  {
    BehaviourKeepsInv(tr, ev, n);
    BehaviourKeepsInv(tr, ev, n + 1);
    assert StepsAt(tr, ev, n);
    FuelOfStep(tr(n), ev(n));
    if !tr(n + 1).exited { ShutdownCanProgress(tr(n + 1)); }
  }

  lemma {:induction false} ClosesBefore(tr: nat -> State, ev: nat -> Event, n: nat, m: nat)
    requires Behaviour(tr, ev) && Fair(tr, ev) && tr(n).shutdownReq
    requires forall i: nat :: n <= i ==> !ev(i).UpdateRecv?
    requires tr(n).exited || (n <= m && Progress(ev(m)))
    ensures exists c: nat :: n <= c && tr(c).closed && tr(c).exited
    decreases ShutdownFuel(tr(n)), m - n
  {
    ShutdownStep(tr, ev, n);
    if !tr(n).exited {
      var m' := m;
      if Progress(ev(n)) && !tr(n + 1).exited { m' :| n + 1 <= m' && Progress(ev(m')); }
      ClosesBefore(tr, ev, n + 1, m');
      var c: nat :| n + 1 <= c && tr(c).closed && tr(c).exited;
    }
  }

  /** On every fair behaviour with finitely many updates, a requested shutdown closes the manager
      and the loop returns. */
  lemma ShutdownCompletes(tr: nat -> State, ev: nat -> Event, n: nat)
    requires Behaviour(tr, ev) && Fair(tr, ev) && tr(n).shutdownReq
    requires forall i: nat :: n <= i ==> !ev(i).UpdateRecv?
    ensures exists c: nat :: n <= c && tr(c).closed && tr(c).exited
  {
    var m: nat := n;
    if !tr(n).exited {
      BehaviourKeepsInv(tr, ev, n);
      ShutdownCanProgress(tr(n));
      m :| n <= m && Progress(ev(m));
    }
    ClosesBefore(tr, ev, n, m);
  }
}
