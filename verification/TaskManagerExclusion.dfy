/**
 At most one operation in flight. The loop guarantees it on every run in which
 no update is accepted while a retry timer is pending, and only there: from any
 other state some continuation runs two operations at once.
 */
module TaskManagerExclusion {
  import opened Api
  import opened TaskManager
  import opened TaskManagerSafety

  /** Everything that is, or will turn into, an operation in flight. */
  function Tokens(s: State): nat {
    |s.ops| + s.timers + (if s.runq then 1 else 0)
  }

  predicate Exclusive(s: State) {
    Tokens(s) <= 1 && (s.ops != map[] ==> s.cancel.Some? && s.cancel.value in s.ops)
  }

  /** An accepted update meets a pending retry timer. */
  predicate Overlaps(s: State, e: Event) { Accepts(s, e) && s.timers > 0 }

  lemma RemoveOp(ops: map<nat, Op>, k: nat)
    requires k in ops
    ensures |ops - {k}| == |ops| - 1
  {
    assert (ops - {k}).Keys == ops.Keys - {k};
  }

  lemma UpdateOp(ops: map<nat, Op>, k: nat, op: Op)
    ensures |ops[k := op]| == |ops| + (if k in ops then 0 else 1)
  {
    assert ops[k := op].Keys == ops.Keys + {k};
  }

  lemma CompletedTokens(s: State, r: Result)
    ensures Tokens(Completed(s, r)) <= Tokens(s) + 1
  {
    CompletedOps(s, r);
  }

  /** No step but an accepted update makes tokens, and that keeps the operations. */
  predicate SpendsTokens(s: State, e: Event)
    requires Enabled(s, e)
  {
    if Accepts(s, e) then |Step(s, e).ops| == |s.ops| else Tokens(Step(s, e)) <= Tokens(s)
  }

  lemma RunTokens(s: State, pickClosed: bool)
    requires Enabled(s, Run(pickClosed))
    ensures SpendsTokens(s, Run(pickClosed))
  {
    UpdateOp(s.ops, s.next, Op(s.task, s.updated, Dispatched, false));
  }

  lemma OpResultTokens(s: State, k: nat)
    requires Enabled(s, OpResult(k))
    ensures SpendsTokens(s, OpResult(k))
  {
    RemoveOp(s.ops, k);
    CompletedTokens(s.(ops := s.ops - {k}), s.ops[k].phase.result);
  }

  lemma TimerTokens(s: State)
    requires Enabled(s, TimerResult)
    ensures SpendsTokens(s, TimerResult)
  {
    CompletedTokens(s.(timers := s.timers - 1), Ok);
  }

  lemma UpdateTokens(s: State, t: Task)
    requires Enabled(s, UpdateRecv(t))
    ensures SpendsTokens(s, UpdateRecv(t))
  {
    CancelKeepsSize(s);
  }

  lemma ShutdownTokens(s: State)
    requires Enabled(s, ShutdownRecv)
    ensures SpendsTokens(s, ShutdownRecv)
  {
    CancelKeepsSize(s);
  }

  lemma StatusTokens(s: State, k: nat)
    requires Enabled(s, StatusRecv(k))
    ensures SpendsTokens(s, StatusRecv(k))
  {
    UpdateOp(s.ops, k, StatusTaken(s, k).ops[k]);
  }

  lemma AdvanceTokens(s: State, k: nat, m: Move)
    requires Enabled(s, Advance(k, m))
    ensures SpendsTokens(s, Advance(k, m))
  {
    UpdateOp(s.ops, k, Moved(s.ops[k], m));
  }

  lemma SimpleTokens(s: State, e: Event)
    requires Enabled(s, e) && Simple(e)
    ensures SpendsTokens(s, e)
  {
  }

  lemma AbandonTokens(s: State, k: nat)
    requires Enabled(s, Abandon(k))
    ensures SpendsTokens(s, Abandon(k))
  {
    RemoveOp(s.ops, k);
  }

  lemma TokensOfStep(s: State, e: Event)
    requires Enabled(s, e)
    ensures SpendsTokens(s, e)
  {
    match e
    case Run(pickClosed) => RunTokens(s, pickClosed);
    case OpResult(k) => OpResultTokens(s, k);
    case TimerResult => TimerTokens(s);
    case StatusRecv(k) => StatusTokens(s, k);
    case Advance(k, m) => AdvanceTokens(s, k, m);
    case UpdateRecv(t) => UpdateTokens(s, t);
    case ShutdownRecv => ShutdownTokens(s);
    case Abandon(k) => AbandonTokens(s, k);
    case _ => SimpleTokens(s, e);
  }

  lemma CancelKeepsSize(s: State)
    ensures |Cancelled(s)| == |s.ops| && Cancelled(s).Keys == s.ops.Keys
  {
    assert Cancelled(s).Keys == s.ops.Keys;
  }

  lemma SmallMap(ops: map<nat, Op>)
    ensures |ops| == 0 <==> ops == map[]
    ensures forall k :: k in ops && |ops| <= 1 ==> ops - {k} == map[]
  {
    forall k | k in ops && |ops| <= 1 ensures ops - {k} == map[] {
      RemoveOp(ops, k);
      assert |(ops - {k}).Keys| == 0;
    }
    assert |ops| == |ops.Keys|;
  }

  lemma CompletedExclusive(s: State, r: Result)
    requires s.ops == map[] && s.timers == 0 && !s.runq
    ensures Exclusive(Completed(s, r))
  {
    CompletedOps(s, r);
  }

  predicate KeepsExclusive(s: State, e: Event)
    requires Enabled(s, e)
  {
    Exclusive(Step(s, e))
  }

  lemma RunExclusive(s: State, pickClosed: bool)
    requires Exclusive(s) && Enabled(s, Run(pickClosed))
    ensures KeepsExclusive(s, Run(pickClosed))
  {
    SmallMap(s.ops);
    UpdateOp(s.ops, s.next, Op(s.task, s.updated, Dispatched, false));
  }

  lemma OpResultExclusive(s: State, k: nat)
    requires Exclusive(s) && Enabled(s, OpResult(k))
    ensures KeepsExclusive(s, OpResult(k))
  {
    SmallMap(s.ops);
    CompletedExclusive(s.(ops := s.ops - {k}), s.ops[k].phase.result);
  }

  lemma TimerExclusive(s: State)
    requires Exclusive(s) && Enabled(s, TimerResult)
    ensures KeepsExclusive(s, TimerResult)
  {
    SmallMap(s.ops);
    CompletedExclusive(s.(timers := s.timers - 1), Ok);
  }

  lemma StatusExclusive(s: State, k: nat)
    requires Exclusive(s) && Enabled(s, StatusRecv(k))
    ensures KeepsExclusive(s, StatusRecv(k))
  {
    UpdateOp(s.ops, k, StatusTaken(s, k).ops[k]);
  }

  lemma AdvanceExclusive(s: State, k: nat, m: Move)
    requires Exclusive(s) && Enabled(s, Advance(k, m))
    ensures KeepsExclusive(s, Advance(k, m))
  {
    UpdateOp(s.ops, k, Moved(s.ops[k], m));
  }

  lemma UpdateExclusive(s: State, t: Task)
    requires Exclusive(s) && Enabled(s, UpdateRecv(t)) && !Overlaps(s, UpdateRecv(t))
    ensures KeepsExclusive(s, UpdateRecv(t))
  {
    CancelKeepsSize(s);
    SmallMap(s.ops);
    SmallMap(Cancelled(s));
  }

  lemma ShutdownExclusive(s: State)
    requires Exclusive(s) && Enabled(s, ShutdownRecv)
    ensures KeepsExclusive(s, ShutdownRecv)
  {
    CancelKeepsSize(s);
    SmallMap(s.ops);
  }

  lemma SimpleExclusive(s: State, e: Event)
    requires Exclusive(s) && Enabled(s, e) && Simple(e)
    ensures KeepsExclusive(s, e)
  {
  }

  lemma AbandonExclusive(s: State, k: nat)
    requires Exclusive(s) && Enabled(s, Abandon(k))
    ensures KeepsExclusive(s, Abandon(k))
  {
    SmallMap(s.ops);
  }

  lemma StepKeepsExclusive(s: State, e: Event)
    requires Exclusive(s) && Enabled(s, e) && !Overlaps(s, e)
    ensures KeepsExclusive(s, e)
  {
    match e
    case Run(pickClosed) => RunExclusive(s, pickClosed);
    case OpResult(k) => OpResultExclusive(s, k);
    case TimerResult => TimerExclusive(s);
    case StatusRecv(k) => StatusExclusive(s, k);
    case Advance(k, m) => AdvanceExclusive(s, k, m);
    case UpdateRecv(t) => UpdateExclusive(s, t);
    case ShutdownRecv => ShutdownExclusive(s);
    case Abandon(k) => AbandonExclusive(s, k);
    case _ => SimpleExclusive(s, e);
  }

  /** No accepted update of the run meets a pending retry timer. */
  ghost predicate OverlapFree(s: State, es: seq<Event>)
    requires Runs(s, es)
    decreases |es|
  {
    es == [] || (var n := |es| - 1; OverlapFree(s, es[..n]) && !Overlaps(Final(s, es[..n]), es[n]))
  }

  lemma {:induction false} RunKeepsExclusive(s: State, es: seq<Event>)
    requires Inv(s) && Exclusive(s) && Runs(s, es) && OverlapFree(s, es)
    ensures Inv(Final(s, es)) && Exclusive(Final(s, es))
    decreases |es|
  {
    if es != [] {
      var n := |es| - 1;
      RunKeepsExclusive(s, es[..n]);
      StepKeepsInv(Final(s, es[..n]), es[n]);
      StepKeepsExclusive(Final(s, es[..n]), es[n]);
    }
  }

  /** Without a retry/update overlap at most one operation is ever in flight, and the shutdown
      branch closes the manager only when none is. */
  lemma AtMostOneOperation(task: Task, es: seq<Event>)
    requires Runs(Init(task), es) && OverlapFree(Init(task), es)
    ensures var s := Final(Init(task), es);
            && |s.ops| <= 1
            && (Enabled(s, ShutdownRecv) && Step(s, ShutdownRecv).closed && !s.closed ==> s.ops == map[])
  {
    RunKeepsExclusive(Init(task), es);
  }

  // ---- the condition is exact ----

  ghost predicate UpdateFree(es: seq<Event>) { forall i :: 0 <= i < |es| ==> !es[i].UpdateRecv? }

  lemma {:induction false} Prepend(s: State, e: Event, es: seq<Event>)
    requires Enabled(s, e) && Runs(Step(s, e), es)
    ensures Runs(s, [e] + es) && Final(s, [e] + es) == Final(Step(s, e), es)
    decreases |es|
  {
    var l := [e] + es;
    if es == [] {
      assert l[..|l| - 1] == [];
    } else {
      Prepend(s, e, es[..|es| - 1]);
      assert l[..|l| - 1] == [e] + es[..|es| - 1];
    }
  }

  lemma {:induction false} TokensOfRun(s: State, es: seq<Event>)
    requires Inv(s) && Runs(s, es) && UpdateFree(es)
    ensures Inv(Final(s, es)) && Tokens(Final(s, es)) <= Tokens(s)
    decreases |es|
  {
    if es != [] {
      var n := |es| - 1;
      TokensOfRun(s, es[..n]);
      StepKeepsInv(Final(s, es[..n]), es[n]);
      TokensOfStep(Final(s, es[..n]), es[n]);
    }
  }

  lemma {:induction false} SpendTokens(s: State) returns (es: seq<Event>)
    requires Inv(s) && Live(s) && Tokens(s) >= 2
    ensures Runs(s, es) && UpdateFree(es) && |Final(s, es).ops| >= 2
    decreases 2 * s.timers + (if s.runq then 1 else 0)
  {
    if |s.ops| >= 2 { return []; }
    var e := if s.runq then Run(false) else TimerResult;
    StepKeepsInv(s, e);
    UpdateOp(s.ops, s.next, Op(s.task, s.updated, Dispatched, false));
    var rest := SpendTokens(Step(s, e));
    Prepend(s, e, rest);
    return [e] + rest;
  }

  /** A live state keeps to one operation on every continuation without further updates if and
      only if it holds at most one token. */
  lemma ExclusionExactly(s: State)
    requires Inv(s) && Live(s)
    ensures (forall es :: Runs(s, es) && UpdateFree(es) ==> |Final(s, es).ops| <= 1) <==> Tokens(s) <= 1
  {
    forall es | Runs(s, es) && UpdateFree(es)
      ensures Tokens(s) <= 1 ==> |Final(s, es).ops| <= 1
    {
      TokensOfRun(s, es);
    }
    if Tokens(s) >= 2 { var es := SpendTokens(s); }
  }

  /** An accepted update hands out a second token exactly when it finds `cancel` nil, the run
      queue empty and a retry timer or an orphaned operation outstanding. */
  lemma OverlapExactly(s: State, e: Event)
    requires Inv(s) && Live(s) && Enabled(s, e) && Accepts(s, e) && Tokens(s) <= 1
    ensures Tokens(Step(s, e)) >= 2 <==> s.cancel.None? && !s.runq && Tokens(s) == 1
  {
    CancelKeepsSize(s);
  }

  lemma OverlapTail(s: State)
    requires Live(s) && !s.closed && !s.exited && s.ops == map[] && s.runq && s.timers > 0
    ensures var es := [Run(false), TimerResult, Run(false)]; Runs(s, es) && |Final(s, es).ops| == 2
  {
    var s1 := Step(s, Run(false));
    var s2 := Step(s1, TimerResult);
    var s3 := Step(s2, Run(false));
    assert s3.ops.Keys == {s.next, s.next + 1};
    Prepend(s2, Run(false), []);
    Prepend(s1, TimerResult, [Run(false)] + []);
    Prepend(s, Run(false), [TimerResult] + ([Run(false)] + []));
    assert [Run(false)] + ([TimerResult] + ([Run(false)] + [])) == [Run(false), TimerResult, Run(false)];
  }

  /** The first operation asks for a retry: the loop is left with a timer and nothing else. */
  lemma RetryRun(task: Task)
    ensures var es := [Run(false), Advance(0, Do(None, Retry)), OpResult(0)];
            && Runs(Init(task), es)
            && Final(Init(task), es) == Init(task).(runq := false, next := 1, timers := 1, last := Some(Retry))
  {
    var s0 := Init(task);
    var s1 := Step(s0, Run(false));
    assert s1 == s0.(runq := false, cancel := Some(0), next := 1, ops := map[0 := Op(task, false, Dispatched, false)]);
    var s2 := Step(s1, Advance(0, Do(None, Retry)));
    assert s2 == s1.(ops := map[0 := Op(task, false, Finished(Retry), false)]);
    assert s2.ops - {0} == map[];
    assert Runs(s2, []) && Final(s2, []) == s2;
    Prepend(s2, OpResult(0), []);
    Prepend(s1, Advance(0, Do(None, Retry)), [OpResult(0)] + []);
    Prepend(s0, Run(false), [Advance(0, Do(None, Retry))] + ([OpResult(0)] + []));
    assert [Run(false)] + ([Advance(0, Do(None, Retry))] + ([OpResult(0)] + []))
        == [Run(false), Advance(0, Do(None, Retry)), OpResult(0)];
  }

  lemma {:induction false} Continue(s: State, es: seq<Event>, more: seq<Event>)
    requires Runs(s, es) && Runs(Final(s, es), more)
    ensures Runs(s, es + more) && Final(s, es + more) == Final(Final(s, es), more)
    decreases |more|
  {
    if more == [] {
      assert es + more == es;
    } else {
      var n := |more| - 1;
      Continue(s, es, more[..n]);
      assert (es + more)[..|es| + n] == es + more[..n];
    }
  }

  /** The overlap happens: a retry, an update that arrives before its timer, and the timer run two
      operations at once. */
  lemma OverlapRunsTwoOperations(task: Task, spec: string)
    requires spec != task.spec
    ensures var es := [Run(false), Advance(0, Do(None, Retry)), OpResult(0)]
                    + ([UpdateRecv(task.(spec := spec))] + [Run(false), TimerResult, Run(false)]);
            Runs(Init(task), es) && |Final(Init(task), es).ops| == 2
  {
    var t, tail := task.(spec := spec), [Run(false), TimerResult, Run(false)];
    RetryRun(task);
    var first := [Run(false), Advance(0, Do(None, Retry)), OpResult(0)];
    var s3 := Final(Init(task), first);
    assert Accepts(s3, UpdateRecv(t));
    OverlapTail(Step(s3, UpdateRecv(t)));
    Prepend(s3, UpdateRecv(t), tail);
    Continue(Init(task), first, [UpdateRecv(t)] + tail);
  }
}
