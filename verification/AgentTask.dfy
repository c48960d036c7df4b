/**
 From the assignment to the task manager: what the worker hands a manager, in order, is what the
 manager's loop receives, so the task it works on is the task the node was last assigned.
 */
module AgentTask {
  import opened Api
  import opened Storage
  import M = TaskManager
  import H = TaskManagerHistory
  import N = Stream
  import A = StreamWorker
  import W = Worker
  import opened WorkerSafety
  import opened WorkerAgreement

  /** The updates the loop received, in order. */
  function Received(es: seq<M.Event>): seq<Task> {
    if es == [] then []
    else var n := |es| - 1;
         if es[n].UpdateRecv? then Received(es[..n]) + [es[n].task] else Received(es[..n])
  }

  /** No earlier task had a higher desired state than the last. */
  predicate EndsHighest(given: seq<Task>) {
    given != [] && forall i :: 0 <= i < |given| ==> given[i].desired <= given[|given| - 1].desired
  }

  /** `n` is the highest desired state given. */
  ghost predicate Highest(given: seq<Task>, n: int) {
    && (forall i :: 0 <= i < |given| ==> given[i].desired <= n)
    && exists i :: 0 <= i < |given| && given[i].desired == n
  }

  /** The manager was started with the first task, and has received the others. */
  ghost predicate Obeys(given: seq<Task>, es: seq<M.Event>) {
    given != [] && M.Runs(M.Init(given[0]), es) && Received(es) == given[1..]
  }

  lemma HighestNext(given: seq<Task>, t: Task, n: int)
    requires Highest(given, n)
    ensures Highest(given + [t], if t.desired > n then t.desired else n)
    ensures EndsHighest(given + [t]) <==> t.desired >= n
  {
    var all := given + [t];
    assert all[|given|] == t && forall i :: 0 <= i < |given| ==> all[i] == given[i];
    var i :| 0 <= i < |given| && given[i].desired == n;
    assert all[i].desired == n;
  }

  /** The loop's task has the highest desired state given, and is the last given if that has it. */
  ghost predicate Agrees(given: seq<Task>, id: string, t: Task) {
    t.id == id && Highest(given, t.desired) && (EndsHighest(given) <==> EqualStable(given[|given| - 1], t))
  }

  lemma ReceivesLast(given: seq<Task>, id: string, t: Task, s: M.State)
    requires given != [] && Agrees(given, id, s.task) && t.id == id && !s.exited
    ensures Agrees(given + [t], id, M.Step(s, M.UpdateRecv(t)).task)
  {
    HighestNext(given, t, s.task.desired);
  }

  /** A manager that has received what it was given works on the last of it, whatever else happened, if
      and only if nothing earlier had a higher desired state. */
  lemma {:induction false} ManagerHasLastGiven(given: seq<Task>, es: seq<M.Event>, id: string)
    requires Obeys(given, es) && OfTask(given, id)
    ensures Agrees(given, id, M.Final(M.Init(given[0]), es).task)
    decreases |es|
  {
    if es == [] {
      assert |given| == 1 && given[0].id == id;
    } else {
      var n := |es| - 1;
      var p := M.Final(M.Init(given[0]), es[..n]);
      if es[n].UpdateRecv? {
        var front := given[..|given| - 1];
        assert given == front + [es[n].task] && front[1..] == Received(es[..n]);
        assert given[|given| - 1].id == id;
        ManagerHasLastGiven(front, es[..n], id);
        ReceivesLast(front, id, es[n].task, p);
      } else {
        ManagerHasLastGiven(given, es[..n], id);
        H.TaskOfStep(p, es[n]);
      }
    }
  }

  /** A task given with a lower desired state is ignored. */
  lemma LowerDesiredIsIgnored(t: Task, u: Task)
    requires u.id == t.id && u.desired < t.desired
    ensures var es := [M.UpdateRecv(u)];
            Obeys([t, u], es) && M.Final(M.Init(t), es) == M.Init(t) && !EqualStable(u, M.Final(M.Init(t), es).task)
  {
    var es := [M.UpdateRecv(u)];
    assert es[..0] == [] && M.Runs(M.Init(t), []) && M.Final(M.Init(t), []) == M.Init(t);
    assert Received(es) == [] + [u] == [t, u][1..];
  }

  lemma StableSame(a: Task, b: Task, c: Task)
    requires Blank(a) == Blank(b)
    ensures EqualStable(a, c) <==> EqualStable(b, c)
  {
  }

  /** In a worker that holds the assigned tasks, the manager of a task works on it as last assigned if
      and only if it was never assigned with a higher desired state since the manager was started. */
  lemma ManagerHasAssignedTask(w: W.State, ts: map<string, Task>, id: string, es: seq<M.Event>)
    requires Holds(w, ts) && id in ts && Inv(w) && Obeys(w.managers[id], es)
    ensures EqualStable(ts[id], M.Final(M.Init(w.managers[id][0]), es).task) <==> EndsHighest(w.managers[id])
  {
    var given := w.managers[id];
    assert Manages(w.managers, id, ts[id]) && OfTask(given, id);
    ManagerHasLastGiven(given, es, id);
    StableSame(given[|given| - 1], ts[id], M.Final(M.Init(given[0]), es).task);
  }

  lemma {:induction false} NodeKeepsInv(es: seq<A.Event>, ex: W.Executor)
    requires A.Runs(es, ex)
    ensures Inv(A.Final(es, ex).worker)
    decreases |es|
  {
    if es != [] {
      var front, e := es[..|es| - 1], es[|es| - 1];
      var p := A.Final(front, ex);
      NodeKeepsInv(front, ex);
      if A.Call(p, e, ex).Some? { StepKeepsInv(p.worker, A.Call(p, e, ex).value); }
    }
  }

  /** End to end: after every message that does not break the chain, every task of the set the manager
      last sent has a task manager on the node, and that works on the task as sent if and only if it
      was not given a higher desired state before. */
  lemma NodeRunsWhatWasSent(es: seq<A.Event>, ex: W.Executor, id: string, ms: seq<M.Event>)
    requires A.Runs(es, ex) && A.GoodRun(es, ex) && es != [] && es[|es| - 1].Network?
    requires !N.Gap(es[|es| - 1].e) && !es[|es| - 1].e.NewSession? && id in A.Final(es, ex).net.sent.tasks
    ensures var s := A.Final(es, ex);
            && id in s.worker.managers
            && (Obeys(s.worker.managers[id], ms) ==>
                  (EqualStable(s.net.sent.tasks[id], M.Final(M.Init(s.worker.managers[id][0]), ms).task)
                   <==> EndsHighest(s.worker.managers[id])))
  {
    NodeKeepsInv(es, ex);
    A.WorkerFollowsManager(es, ex);
    var s := A.Final(es, ex);
    if Obeys(s.worker.managers[id], ms) { ManagerHasAssignedTask(s.worker, s.net.sent.tasks, id, ms); }
  }
}
