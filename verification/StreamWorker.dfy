/** The agent and the worker together: messages over any sessions, reports, closings and restarts. */
module StreamWorker {
  import opened Api
  import W = Worker
  import opened WorkerDelta
  import opened WorkerAgreement
  import S = WorkerSafety
  import opened Session
  import N = Stream

  datatype Event = Network(e: N.Event) | Report(id: string, st: Status) | ManagerClosed

  datatype System = System(net: N.Net, worker: W.State)

  const NEW_SYSTEM := System(N.NEW_NET, S.NEW_WORKER)

  /** What the event makes the worker do: `Assign` for a complete message, `Update` for an incremental
      one, `Init` after a restart. */
  ghost function Call(s: System, e: Event, ex: W.Executor): Option<S.Event>
    requires e.Network? ==> N.Enabled(s.net, e.e)
  {
    match e
    case Network(NewSession(restarted)) => if restarted then Some(S.Restart(ex)) else None
    case Network(m) => Some(S.Message(N.Forwarded(s.net, m).cs, N.Forwarded(s.net, m).full, ex))
    case Report(id, st) => Some(S.Report(id, st))
    case ManagerClosed => Some(S.ManagerClosed)
  }

  ghost predicate Enabled(s: System, e: Event, ex: W.Executor) {
    (e.Network? ==> N.Enabled(s.net, e.e)) && (Call(s, e, ex).Some? ==> S.Enabled(s.worker, Call(s, e, ex).value))
  }

  ghost function Step(s: System, e: Event, ex: W.Executor): System
    requires Enabled(s, e, ex)
  {
    System(
      if e.Network? then N.Step(s.net, e.e) else s.net,
      if Call(s, e, ex).Some? then S.Step(s.worker, Call(s, e, ex).value) else s.worker)
  }

  ghost predicate Runs(es: seq<Event>, ex: W.Executor)
    decreases |es|, 0
  {
    es == [] || (Runs(es[..|es| - 1], ex) && Enabled(Final(es[..|es| - 1], ex), es[|es| - 1], ex))
  }

  ghost function Final(es: seq<Event>, ex: W.Executor): System
    requires Runs(es, ex)
    decreases |es|, 1
  {
    if es == [] then NEW_SYSTEM else Step(Final(es[..|es| - 1], ex), es[|es| - 1], ex)
  }

  /** The executor has controllers for the tasks that are started, and a message is settled. */
  ghost predicate Good(s: System, e: Event, ex: W.Executor)
    requires e.Network? ==> N.Enabled(s.net, e.e)
  {
    && (e.Network? && e.e.Deliver? ==> Settled(e.e.msg.cs, e.e.msg.full))
    && (Call(s, e, ex).Some? && Call(s, e, ex).value.Message? ==> ResolvesAll(ex, W.TasksOf(Call(s, e, ex).value.cs, W.UpdateAction)))
    && (Call(s, e, ex).Some? && Call(s, e, ex).value.Restart? ==>
          forall id :: id in s.net.applied.tasks ==> Resolves(ex, s.net.applied.tasks[id]))
  }

  lemma {:induction false} WrappedIsSettled(ts: seq<Task>)
    ensures W.Removals(AsUpdates(ts), W.TaskOf) == {}
    ensures W.Removals(AsUpdates(ts), W.SecretOf) == {} && W.Removals(AsUpdates(ts), W.ConfigOf) == {}
  {
    if ts != [] {
      var front := AsUpdates(ts[..|ts| - 1]);
      WrappedIsSettled(ts[..|ts| - 1]);
      assert AsUpdates(ts)[..|front|] == front;
    }
  }

  lemma MessageStep(s: System, e: N.Event, ex: W.Executor)
    requires Represents(s.worker, s.net.applied) && Enabled(s, Network(e), ex) && Good(s, Network(e), ex) && !e.NewSession?
    ensures Represents(Step(s, Network(e), ex).worker, Step(s, Network(e), ex).net.applied)
  {
    var m := N.Forwarded(s.net, e);
    if e.DeliverTasks? { WrappedIsSettled(e.tasks); }
    assert Settled(m.cs, m.full);
    MessageRepresentsExactly(s.worker, s.net.applied, m.cs, m.full, ex);
  }

  lemma StepRepresents(s: System, e: Event, ex: W.Executor)
    requires Represents(s.worker, s.net.applied) && Enabled(s, e, ex) && Good(s, e, ex)
    ensures Represents(Step(s, e, ex).worker, Step(s, e, ex).net.applied)
  {
    match e
    case Network(Deliver(_, _)) => MessageStep(s, e.e, ex);
    case Network(DeliverTasks(_)) => MessageStep(s, e.e, ex);
    case Network(NewSession(restarted)) => if restarted { RestartRecovers(s.worker, s.net.applied.tasks, ex); }
    case Report(id, st) => ReportHolds(s.worker, s.net.applied.tasks, id, st);
    case ManagerClosed =>
  }

  ghost predicate GoodRun(es: seq<Event>, ex: W.Executor)
    requires Runs(es, ex)
    decreases |es|
  {
    es == [] || (GoodRun(es[..|es| - 1], ex) && Good(Final(es[..|es| - 1], ex), es[|es| - 1], ex))
  }

  lemma {:induction false} WorkerIsApplied(es: seq<Event>, ex: W.Executor)
    requires Runs(es, ex) && GoodRun(es, ex)
    ensures Represents(Final(es, ex).worker, Final(es, ex).net.applied) && N.Inv(Final(es, ex).net)
  {
    if es != [] {
      WorkerIsApplied(es[..|es| - 1], ex);
      StepRepresents(Final(es[..|es| - 1], ex), es[|es| - 1], ex);
      if es[|es| - 1].Network? { N.StepKeepsInv(Final(es[..|es| - 1], ex).net, es[|es| - 1].e); }
    }
  }

  /** From the manager's store to the node's database: with reports, closings, new sessions and restarts
      in between, after every message that does not break the chain the worker holds exactly the tasks,
      secrets and configs the manager last sent. */
  lemma WorkerFollowsManager(es: seq<Event>, ex: W.Executor)
    requires Runs(es, ex) && GoodRun(es, ex) && es != [] && es[|es| - 1].Network?
    requires !N.Gap(es[|es| - 1].e) && !es[|es| - 1].e.NewSession?
    ensures Represents(Final(es, ex).worker, Final(es, ex).net.sent)
  {
    var n := |es| - 1;
    WorkerIsApplied(es, ex);
    WorkerIsApplied(es[..n], ex);
    N.StepAgrees(Final(es[..n], ex).net, es[n].e);
  }

  /** A message that the network can deliver is refused only for a task without an ID. */
  lemma MessagesCommit(s: System, m: Msg, lost: seq<Msg>, ex: W.Executor)
    requires N.Enabled(s.net, N.Deliver(lost, m))
    ensures Enabled(s, Network(N.Deliver(lost, m)), ex) <==> "" !in W.Updates(m.cs, W.TaskOf)
  {
    MessageUnless(s.worker, m.cs, m.full, ex);
  }
}
