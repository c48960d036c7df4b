/**
 The worker against the assignment set it was sent: incremental messages and complete snapshots
 leave the same worker, and a restart recovers it.
 */
module WorkerAgreement {
  import opened Api
  import opened Storage
  import opened Worker
  import opened WorkerDelta
  import opened WorkerSafety

  datatype Assignments = Assignments(tasks: map<string, Task>, secrets: map<string, string>, configs: map<string, string>)

  const NOTHING_ASSIGNED := Assignments(map[], map[], map[])

  /** The database holds exactly the assigned tasks, each with a manager that was last given the task. */
  ghost predicate Holds(w: State, ts: map<string, Task>) { Stores(w.db, ts) && ManagesAll(w.managers, ts) }

  ghost predicate Stores(db: Db, ts: map<string, Task>) {
    db.Keys == ts.Keys && forall id :: id in ts ==> HoldsTask(db, id, ts[id])
  }

  ghost predicate ManagesAll(managers: map<string, seq<Task>>, ts: map<string, Task>) {
    managers.Keys == ts.Keys && forall id :: id in ts ==> Manages(managers, id, ts[id])
  }

  /** What the task's manager was given last is the task, whatever its status. */
  ghost predicate Manages(managers: map<string, seq<Task>>, id: string, t: Task) {
    id in managers && managers[id] != [] && Blank(managers[id][|managers[id]| - 1]) == Blank(t)
  }

  ghost predicate HoldsTask(db: Db, id: string, t: Task) {
    Complete(db, id) && db[id].data == Some(Blank(t)) && t.id == id
  }

  ghost predicate Represents(w: State, a: Assignments) {
    Holds(w, a.tasks) && w.secrets == a.secrets && w.configs == a.configs
  }

  /** The executor has a controller for the task, whatever its status. */
  ghost predicate Resolves(ex: Executor, t: Task) { forall st :: ex(t.(status := st)).None? }

  ghost predicate ResolvesAll(ex: Executor, ts: seq<Task>) { forall i :: 0 <= i < |ts| ==> Resolves(ex, ts[i]) }

  lemma Resolved(ex: Executor, t: Task, st: Status)
    requires Resolves(ex, t)
    ensures ex(t.(status := st)).None?
  {
  }

  /** A complete message starts from nothing. */
  function From<V>(m: map<string, V>, full: bool): map<string, V> { if full then map[] else m }

  /** The assignment set after a message, its changes applied one after the other. */
  function After(a: Assignments, cs: seq<Change>, full: bool): Assignments {
    Assignments(
      InOrder(From(a.tasks, full), cs, TaskOf),
      InOrder(From(a.secrets, full), cs, SecretOf),
      InOrder(From(a.configs, full), cs, ConfigOf))
  }

  function BatchedTasks(m: map<string, Task>, cs: seq<Change>, full: bool): map<string, Task> {
    if full then Updates(cs, TaskOf) else m + Updates(cs, TaskOf) - Removals(cs, TaskOf)
  }

  /** The assignment set as the worker applies a message: in two batches. */
  function Batched(a: Assignments, cs: seq<Change>, full: bool): Assignments {
    Assignments(
      BatchedTasks(a.tasks, cs, full),
      DependenciesReconciled(a.secrets, cs, full, SecretOf),
      DependenciesReconciled(a.configs, cs, full, ConfigOf))
  }

  /** Every entry of a kind that is both updated and removed ends updated, or ends removed. */
  ghost predicate EndsAs<V>(cs: seq<Change>, sel: Selector<V>, updated: bool) {
    forall id :: id in Updates(cs, sel) && id in Removals(cs, sel) ==> EndsUpdated(cs, sel, id) == updated
  }

  /** Every entry that is both updated and removed ends the way the batches have it: a secret or config
      updated, a task removed by an incremental message and updated by a complete one. */
  ghost predicate Settled(cs: seq<Change>, full: bool) {
    EndsAs(cs, TaskOf, full) && EndsAs(cs, SecretOf, true) && EndsAs(cs, ConfigOf, true)
  }

  // ---- one message ----

  lemma StoresPut(db: Db, ts: map<string, Task>, t: Task, db': Db, ts': map<string, Task>)
    requires Stores(db, ts) && ts' == ts[t.id := t]
    requires t.id in db' && db' == db[t.id := db'[t.id]] && HoldsTask(db', t.id, t)
    ensures Stores(db', ts')
  {
    forall id | id in ts' ensures HoldsTask(db', id, ts'[id]) {
      if id != t.id { assert HoldsTask(db, id, ts[id]); }
    }
  }

  lemma ManagesPut(ms: map<string, seq<Task>>, ts: map<string, Task>, t: Task, ms': map<string, seq<Task>>, ts': map<string, Task>)
    requires ManagesAll(ms, ts) && ts' == ts[t.id := t]
    requires t.id in ms' && ms' == ms[t.id := ms'[t.id]] && Manages(ms', t.id, t)
    ensures ManagesAll(ms', ts')
  {
    forall id | id in ts' ensures Manages(ms', id, ts'[id]) {
      if id != t.id { assert Manages(ms, id, ts[id]); }
    }
  }

  lemma AssignedHolds(w: State, ts: map<string, Task>, t: Task, w': State, ts': map<string, Task>, ex: Executor)
    requires Holds(w, ts) && Resolves(ex, t) && Touches(w, w', t, ex) && ts' == ts[t.id := t]
    ensures Holds(w', ts')
  {
    Resolved(ex, t, Resumed(w.db, t).status);
    assert Resumed(w.db, t) == t.(status := Resumed(w.db, t).status);
    if t.id in ts { assert HoldsTask(w.db, t.id, ts[t.id]); }
    StoresPut(w.db, ts, t, w'.db, ts');
    ManagesPut(w.managers, ts, t, w'.managers, ts');
  }

  lemma IdSetNext(ts: seq<Task>)
    requires ts != []
    ensures IdSet(ts) == IdSet(ts[..|ts| - 1]) + {ts[|ts| - 1].id}
  {
    assert ts == ts[..|ts| - 1] + [ts[|ts| - 1]];
  }

  lemma MinusNext(m: map<string, Task>, ids: set<string>, id: string)
    ensures m - ids - {id} == m - (ids + {id})
  {
  }

  /** The loop over updated tasks fails only on a task without an ID. */
  lemma {:induction false} AllAssignedUnless(w: State, ts: seq<Task>, ex: Executor)
    ensures AllAssigned(w, ts, ex).Some? <==> "" !in IdSet(ts)
  {
    if ts != [] {
      var front, t := ts[..|ts| - 1], ts[|ts| - 1];
      AllAssignedUnless(w, front, ex);
      IdSetNext(ts);
      if "" !in IdSet(front) { AssignedShape(AllAssigned(w, front, ex).value, t, ex); }
    }
  }

  lemma LatestStep(m: map<string, Task>, ts: seq<Task>)
    requires ts != []
    ensures m + Latest(ts) == (m + Latest(ts[..|ts| - 1]))[ts[|ts| - 1].id := ts[|ts| - 1]]
  {
  }

  lemma {:induction false} AllAssignedHold(w: State, m: map<string, Task>, ts: seq<Task>, ex: Executor)
    requires Holds(w, m) && ResolvesAll(ex, ts) && AllAssigned(w, ts, ex).Some?
    ensures Holds(AllAssigned(w, ts, ex).value, m + Latest(ts))
  {
    if ts == [] {
      assert m + Latest(ts) == m;
    } else {
      var front, t := ts[..|ts| - 1], ts[|ts| - 1];
      var w1, w2 := LastRound(w, ts, ex);
      AllAssignedHold(w, m, front, ex);
      LatestStep(m, ts);
      AssignedHolds(w1, m + Latest(front), t, w2, m + Latest(ts), ex);
    }
  }

  lemma StoresDrop(db: Db, ts: map<string, Task>, gone: set<string>)
    requires Stores(db, ts)
    ensures Stores(db - gone, ts - gone)
  {
    forall id | id in ts - gone ensures HoldsTask(db - gone, id, (ts - gone)[id]) { assert HoldsTask(db, id, ts[id]); }
  }

  lemma ManagesDrop(ms: map<string, seq<Task>>, ts: map<string, Task>, gone: set<string>)
    requires ManagesAll(ms, ts)
    ensures ManagesAll(ms - gone, ts - gone)
  {
    forall id | id in ts - gone ensures Manages(ms - gone, id, (ts - gone)[id]) { assert Manages(ms, id, ts[id]); }
  }

  lemma UnassignedHolds(w: State, ts: map<string, Task>, id: string)
    requires Holds(w, ts)
    ensures Holds(Unassigned(w, id), ts - {id})
  {
    StoresDrop(w.db, ts, {id});
    ManagesDrop(w.managers, ts, {id});
    if id !in w.db { assert w.db - {id} == w.db && w.managers - {id} == w.managers; }
  }

  lemma {:induction false} AllUnassignedHold(w: State, m: map<string, Task>, rs: seq<Task>)
    requires Holds(w, m)
    ensures Holds(AllUnassigned(w, Ids(rs)), m - IdSet(rs))
  {
    if rs == [] {
      assert m - IdSet(rs) == m;
    } else {
      var front, t := rs[..|rs| - 1], rs[|rs| - 1];
      AllUnassignedHold(w, m, front);
      assert Ids(rs)[..|rs| - 1] == Ids(front);
      UnassignedHolds(AllUnassigned(w, Ids(front)), m - IdSet(front), t.id);
      IdSetNext(rs);
      MinusNext(m, IdSet(front), t.id);
    }
  }

  lemma OthersUnassignedHolds(w: State, m: map<string, Task>, n: map<string, Task>)
    requires Holds(w, m + n)
    ensures Holds(OthersUnassigned(w, n.Keys), n)
  {
    var gone := Others(w, n.Keys);
    StoresDrop(w.db, m + n, gone);
    ManagesDrop(w.managers, m + n, gone);
    assert m + n - gone == n;
  }

  lemma SnapshotHolds(w: State, m: map<string, Task>, cs: seq<Change>, ex: Executor)
    requires Holds(w, m) && ResolvesAll(ex, TasksOf(cs, UpdateAction)) && TasksReconciled(w, cs, true, ex).Some?
    ensures Holds(TasksReconciled(w, cs, true, ex).value, Updates(cs, TaskOf))
  {
    var ts := TasksOf(cs, UpdateAction);
    UpdatedTasks(cs);
    LatestKeys(ts);
    AllAssignedHold(w, m, ts, ex);
    OthersUnassignedHolds(AllAssigned(w, ts, ex).value, m, Latest(ts));
  }

  lemma DeltaHolds(w: State, m: map<string, Task>, cs: seq<Change>, ex: Executor)
    requires Holds(w, m) && ResolvesAll(ex, TasksOf(cs, UpdateAction)) && TasksReconciled(w, cs, false, ex).Some?
    ensures Holds(TasksReconciled(w, cs, false, ex).value, m + Updates(cs, TaskOf) - Removals(cs, TaskOf))
  {
    var ts := TasksOf(cs, UpdateAction);
    UpdatedTasks(cs);
    RemovedTasks(cs);
    AllAssignedHold(w, m, ts, ex);
    AllUnassignedHold(AllAssigned(w, ts, ex).value, m + Latest(ts), TasksOf(cs, RemoveAction));
  }

  /** A message fails only on a task without an ID. */
  lemma MessageUnless(w: State, cs: seq<Change>, full: bool, ex: Executor)
    ensures Reconciled(w, cs, full, ex).Some? <==> "" !in Updates(cs, TaskOf)
  {
    UpdatedTasks(cs);
    LatestKeys(TasksOf(cs, UpdateAction));
    AllAssignedUnless(WithDependencies(w, cs, full), TasksOf(cs, UpdateAction), ex);
  }

  /** Any message that commits leaves the worker representing the set with the two batches applied. */
  lemma MessageApplies(w: State, a: Assignments, cs: seq<Change>, full: bool, ex: Executor)
    requires Represents(w, a) && ResolvesAll(ex, TasksOf(cs, UpdateAction)) && Reconciled(w, cs, full, ex).Some?
    ensures Represents(Reconciled(w, cs, full, ex).value, Batched(a, cs, full))
  {
    var w0 := WithDependencies(w, cs, full);
    DependenciesStay(w0, cs, full, ex);
    if full { SnapshotHolds(w0, a.tasks, cs, ex); } else { DeltaHolds(w0, a.tasks, cs, ex); }
  }

  lemma DependenciesExactly(m: map<string, string>, cs: seq<Change>, full: bool, sel: Selector<string>)
    ensures DependenciesReconciled(m, cs, full, sel) == InOrder(From(m, full), cs, sel) <==> EndsAs(cs, sel, true)
  {
    var none: map<string, string> := map[];
    AddLastExactly(From(m, full), cs, sel);
    assert none - Removals(cs, sel) == none;
  }

  lemma TasksExactly(m: map<string, Task>, cs: seq<Change>, full: bool)
    ensures BatchedTasks(m, cs, full) == InOrder(From(m, full), cs, TaskOf) <==> EndsAs(cs, TaskOf, full)
  {
    var none: map<string, Task> := map[];
    if full {
      AddLastExactly(none, cs, TaskOf);
      assert none - Removals(cs, TaskOf) + Updates(cs, TaskOf) == Updates(cs, TaskOf);
    } else {
      RemoveLastExactly(m, cs, TaskOf);
    }
  }

  lemma BatchedExactly(a: Assignments, cs: seq<Change>, full: bool)
    ensures Batched(a, cs, full) == After(a, cs, full) <==> Settled(cs, full)
  {
    TasksExactly(a.tasks, cs, full);
    DependenciesExactly(a.secrets, cs, full, SecretOf);
    DependenciesExactly(a.configs, cs, full, ConfigOf);
  }

  /** The tasks that the batches and the order of the changes leave differ in their IDs, if at all. */
  lemma SameKeysSettle(m: map<string, Task>, cs: seq<Change>, full: bool)
    requires BatchedTasks(m, cs, full).Keys == InOrder(From(m, full), cs, TaskOf).Keys
    ensures EndsAs(cs, TaskOf, full)
  {
    forall id | id in Updates(cs, TaskOf) && id in Removals(cs, TaskOf) ensures EndsUpdated(cs, TaskOf, id) == full {
      InOrderAt(From(m, full), cs, TaskOf, id);
    }
  }

  lemma RepresentsBoth(w: State, a: Assignments, b: Assignments)
    requires Represents(w, a) && Represents(w, b)
    ensures a.tasks.Keys == b.tasks.Keys && a.secrets == b.secrets && a.configs == b.configs
  {
  }

  lemma RepresentedIsSettled(w: State, a: Assignments, cs: seq<Change>, full: bool)
    requires Represents(w, Batched(a, cs, full)) && Represents(w, After(a, cs, full))
    ensures Settled(cs, full)
  {
    RepresentsBoth(w, Batched(a, cs, full), After(a, cs, full));
    SameKeysSettle(a.tasks, cs, full);
    DependenciesExactly(a.secrets, cs, full, SecretOf);
    DependenciesExactly(a.configs, cs, full, ConfigOf);
  }

  /** From a worker that represents a set, a message that commits leaves one that represents the set with
      the changes applied one after the other if and only if every entry both updated and removed ends
      the way the batches have it. */
  lemma MessageRepresentsExactly(w: State, a: Assignments, cs: seq<Change>, full: bool, ex: Executor)
    requires Represents(w, a) && ResolvesAll(ex, TasksOf(cs, UpdateAction)) && Reconciled(w, cs, full, ex).Some?
    ensures Represents(Reconciled(w, cs, full, ex).value, After(a, cs, full)) <==> Settled(cs, full)
  {
    MessageApplies(w, a, cs, full, ex);
    var w' := Reconciled(w, cs, full, ex).value;
    if Settled(cs, full) { BatchedExactly(a, cs, full); }
    if Represents(w', After(a, cs, full)) { RepresentedIsSettled(w', a, cs, full); }
  }

  lemma {:induction false} TwoChanges(c: Change, d: Change, t: Task)
    requires c == Change(RemoveAction, TaskItem(t)) && d == Change(UpdateAction, TaskItem(t))
    ensures TasksOf([c, d], UpdateAction) == [t] && EndsUpdated([c, d], TaskOf, t.id)
    ensures Updates([c, d], TaskOf) == map[t.id := t] && Removals([c, d], TaskOf) == {t.id}
  {
    assert [c, d][..1] == [c] && [c][..0] == [];
    assert TasksOf([], UpdateAction) == [] && Updates([], TaskOf) == map[] && Removals([], TaskOf) == {};
    assert TasksOf([c], UpdateAction) == [] && Updates([c], TaskOf) == map[] && Removals([c], TaskOf) == {t.id};
    assert Updates([c, d], TaskOf) == Updates([c], TaskOf)[t.id := t];
    assert Removals([c, d], TaskOf) == Removals([c], TaskOf);
  }

  /** A message that removes a task and then assigns it leaves the task removed. */
  lemma RemovedThenUpdated(t: Task, ex: Executor)
    requires t.id != "" && Resolves(ex, t)
    ensures var cs := [Change(RemoveAction, TaskItem(t)), Change(UpdateAction, TaskItem(t))];
            && Reconciled(NEW_WORKER, cs, false, ex).Some?
            && t.id !in Reconciled(NEW_WORKER, cs, false, ex).value.db && t.id in After(NOTHING_ASSIGNED, cs, false).tasks
  {
    var c, d := Change(RemoveAction, TaskItem(t)), Change(UpdateAction, TaskItem(t));
    TwoChanges(c, d, t);
    MessageUnless(NEW_WORKER, [c, d], false, ex);
    NewWorkerRepresents();
    MessageApplies(NEW_WORKER, NOTHING_ASSIGNED, [c, d], false, ex);
    RemovedIsOut(Reconciled(NEW_WORKER, [c, d], false, ex).value, NOTHING_ASSIGNED, [c, d], t.id);
    InOrderAt(map[], [c, d], TaskOf, t.id);
  }

  lemma NewWorkerRepresents()
    ensures Represents(NEW_WORKER, NOTHING_ASSIGNED)
  {
  }

  lemma RemovedIsOut(w: State, a: Assignments, cs: seq<Change>, id: string)
    requires Represents(w, Batched(a, cs, false)) && id in Removals(cs, TaskOf)
    ensures id !in w.db
  {
  }

  lemma {:induction false} AllAssignedFrame(w: State, ts: seq<Task>, ex: Executor)
    requires AllAssigned(w, ts, ex).Some?
    ensures AllAssigned(w, ts, ex).value.secrets == w.secrets && AllAssigned(w, ts, ex).value.configs == w.configs
  {
    if ts != [] {
      var w1, w2 := LastRound(w, ts, ex);
      AllAssignedFrame(w, ts[..|ts| - 1], ex);
    }
  }

  lemma {:induction false} AllUnassignedFrame(w: State, ids: seq<string>)
    ensures AllUnassigned(w, ids).secrets == w.secrets && AllUnassigned(w, ids).configs == w.configs
  {
    if ids != [] { AllUnassignedFrame(w, ids[..|ids| - 1]); }
  }

  lemma DependenciesStay(w: State, cs: seq<Change>, full: bool, ex: Executor)
    requires TasksReconciled(w, cs, full, ex).Some?
    ensures TasksReconciled(w, cs, full, ex).value.secrets == w.secrets
    ensures TasksReconciled(w, cs, full, ex).value.configs == w.configs
  {
    var ts := TasksOf(cs, UpdateAction);
    AllAssignedFrame(w, ts, ex);
    AllUnassignedFrame(AllAssigned(w, ts, ex).value, Ids(TasksOf(cs, RemoveAction)));
  }

  // ---- incremental and complete messages agree ----

  /** The same tasks with the same data, the same managers, secrets and configs. */
  ghost predicate SameAssignments(w: State, v: State) {
    && w.db.Keys == v.db.Keys && w.managers.Keys == v.managers.Keys
    && w.secrets == v.secrets && w.configs == v.configs
    && forall id :: id in w.db ==> w.db[id].data == v.db[id].data && w.db[id].mark == v.db[id].mark
  }

  lemma RepresentsSame(w: State, v: State, a: Assignments)
    requires Represents(w, a) && Represents(v, a)
    ensures SameAssignments(w, v)
  {
    forall id | id in w.db ensures w.db[id].data == v.db[id].data && w.db[id].mark == v.db[id].mark {
      assert HoldsTask(w.db, id, a.tasks[id]) && HoldsTask(v.db, id, a.tasks[id]);
    }
  }

  /** `Update` with a delta leaves the worker that `Assign` with the whole new set leaves. */
  lemma UpdateIsAssign(w: State, a: Assignments, delta: seq<Change>, whole: seq<Change>, ex: Executor)
    requires Represents(w, a) && Settled(delta, false) && Settled(whole, true)
    requires ResolvesAll(ex, TasksOf(delta, UpdateAction)) && ResolvesAll(ex, TasksOf(whole, UpdateAction))
    requires "" !in Updates(delta, TaskOf) && "" !in Updates(whole, TaskOf)
    requires After(a, whole, true) == After(a, delta, false)
    ensures Reconciled(w, delta, false, ex).Some? && Reconciled(w, whole, true, ex).Some?
    ensures SameAssignments(Reconciled(w, delta, false, ex).value, Reconciled(w, whole, true, ex).value)
  {
    MessageUnless(w, delta, false, ex);
    MessageUnless(w, whole, true, ex);
    MessageRepresentsExactly(w, a, delta, false, ex);
    MessageRepresentsExactly(w, a, whole, true, ex);
    RepresentsSame(Reconciled(w, delta, false, ex).value, Reconciled(w, whole, true, ex).value, After(a, delta, false));
  }

  // ---- whole runs ----

  /** The set after an event: a restart keeps the tasks and loses the secrets and configs in memory. */
  function AfterEvent(a: Assignments, e: Event): Assignments {
    match e
    case Message(cs, full, _) => After(a, cs, full)
    case Report(_, _) => a
    case ManagerClosed => a
    case Restart(_) => a.(secrets := map[], configs := map[])
  }

  function AfterEvents(a: Assignments, es: seq<Event>): Assignments {
    if es == [] then a else AfterEvent(AfterEvents(a, es[..|es| - 1]), es[|es| - 1])
  }

  lemma ReportHolds(w: State, m: map<string, Task>, id: string, st: Status)
    requires Holds(w, m)
    ensures Holds(StatusReported(w, id, st), m)
  {
    if id in w.db {
      assert HoldsTask(w.db, id, m[id]);
      assert m == m[id := m[id]];
      StoresPut(w.db, m, m[id], StatusReported(w, id, st).db, m);
    }
  }

  /** The task is stored and managed again, from its stored status. */
  ghost predicate Recovered(db: Db, w': State, id: string, t: Task) {
    && id in db && db[id].status.Some? && HoldsTask(w'.db, id, t)
    && id in w'.managers && w'.managers[id] == [t.(status := db[id].status.value)]
  }

  lemma RestartOne(db: Db, id: string, t: Task, ex: Executor)
    requires HoldsTask(db, id, t) && Resolves(ex, t)
    ensures Recovered(db, Initialized(db, ex), id, t)
  {
    Resolved(ex, t, db[id].status.value);
    assert StoredTask(db[id]) == t.(status := db[id].status.value);
  }

  lemma InitializedCounts(db: Db, ex: Executor)
    ensures Initialized(db, ex).db.Keys <= db.Keys && Initialized(db, ex).managers.Keys <= db.Keys
    ensures Initialized(db, ex).closers == |Initialized(db, ex).managers| && Initialized(db, ex).closing == 0
  {
  }

  lemma RecoveredHolds(db: Db, m: map<string, Task>, w': State)
    requires db.Keys == m.Keys && w'.db.Keys <= db.Keys && w'.managers.Keys <= db.Keys
    requires forall id :: id in m ==> Recovered(db, w', id, m[id])
    ensures Holds(w', m) && w'.managers.Keys == m.Keys
  {
    forall id | id in m ensures id in w'.db && HoldsTask(w'.db, id, m[id]) && id in w'.managers && Manages(w'.managers, id, m[id]) {
      assert Recovered(db, w', id, m[id]);
    }
  }

  /** Crash recovery: `Init` deletes nothing and starts exactly one manager per assigned task, from
      the task as last assigned with the status as last reported. */
  lemma RestartRecovers(w: State, m: map<string, Task>, ex: Executor)
    requires Holds(w, m) && forall id :: id in m ==> Resolves(ex, m[id])
    ensures Holds(Initialized(w.db, ex), m)
    ensures forall id :: id in m ==> Recovered(w.db, Initialized(w.db, ex), id, m[id])
    ensures Initialized(w.db, ex).closers == |m| && Initialized(w.db, ex).closing == 0
  {
    forall id | id in m ensures Recovered(w.db, Initialized(w.db, ex), id, m[id]) {
      assert HoldsTask(w.db, id, m[id]);
      RestartOne(w.db, id, m[id], ex);
    }
    InitializedCounts(w.db, ex);
    RecoveredHolds(w.db, m, Initialized(w.db, ex));
  }

  /** The event finds controllers for the tasks it starts, and a message is settled. */
  ghost predicate Good(a: Assignments, e: Event) {
    match e
    case Message(cs, full, ex) => Settled(cs, full) && ResolvesAll(ex, TasksOf(cs, UpdateAction))
    case Report(_, _) => true
    case ManagerClosed => true
    case Restart(ex) => forall id :: id in a.tasks ==> Resolves(ex, a.tasks[id])
  }

  ghost predicate GoodRun(a: Assignments, es: seq<Event>) {
    forall i :: 0 <= i < |es| ==> Good(AfterEvents(a, es[..i]), es[i])
  }

  lemma EventRepresents(w: State, a: Assignments, e: Event)
    requires Represents(w, a) && Enabled(w, e) && Good(a, e)
    ensures Represents(Step(w, e), AfterEvent(a, e))
  {
    match e
    case Message(cs, full, ex) => MessageRepresentsExactly(w, a, cs, full, ex);
    case Report(id, st) => ReportHolds(w, a.tasks, id, st);
    case ManagerClosed =>
    case Restart(ex) => RestartRecovers(w, a.tasks, ex);
  }

  /** After any run of messages, reports and restarts, the worker is the set it was sent. */
  lemma {:induction false} RunRepresents(w: State, a: Assignments, es: seq<Event>)
    requires Represents(w, a) && Runs(w, es) && GoodRun(a, es)
    ensures Represents(Final(w, es), AfterEvents(a, es))
  {
    if es != [] {
      var n := |es| - 1;
      assert GoodRun(a, es[..n]) by {
        assert forall i :: 0 <= i < n ==> es[..n][..i] == es[..i] && es[..n][i] == es[i];
      }
      RunRepresents(w, a, es[..n]);
      assert Good(AfterEvents(a, es[..n]), es[n]);
      EventRepresents(Final(w, es[..n]), AfterEvents(a, es[..n]), es[n]);
    }
  }

  // ---- what a complete message leaves behind ----

  lemma {:induction false} AllAssignedKeys(w: State, ts: seq<Task>, ex: Executor)
    requires AllAssigned(w, ts, ex).Some?
    ensures AllAssigned(w, ts, ex).value.db.Keys == w.db.Keys + IdSet(ts)
    ensures w.managers.Keys <= AllAssigned(w, ts, ex).value.managers.Keys <= w.managers.Keys + IdSet(ts)
  {
    if ts != [] {
      var w1, w2 := LastRound(w, ts, ex);
      AllAssignedKeys(w, ts[..|ts| - 1], ex);
      IdSetNext(ts);
      assert w2.db.Keys == w1.db.Keys + {ts[|ts| - 1].id};
    }
  }

  lemma LeftKeys(db: set<string>, managers: set<string>, ids: set<string>, managers': set<string>)
    requires managers <= db && managers <= managers' <= managers + ids
    ensures managers' <= db + ids
    ensures db + ids - (managers' - ids) == ids + (db - managers)
  {
  }

  /** Whatever resolves: a complete message leaves a manager only for assigned tasks, and buckets for
      them and for the older tasks that never got a manager. */
  lemma AssignLeaves(w: State, cs: seq<Change>, ex: Executor)
    requires w.managers.Keys <= w.db.Keys && Reconciled(w, cs, true, ex).Some?
    ensures Reconciled(w, cs, true, ex).value.db.Keys == Updates(cs, TaskOf).Keys + (w.db.Keys - w.managers.Keys)
    ensures Reconciled(w, cs, true, ex).value.managers.Keys <= Updates(cs, TaskOf).Keys
  {
    var w0, ts := WithDependencies(w, cs, true), TasksOf(cs, UpdateAction);
    AllAssignedKeys(w0, ts, ex);
    var w1 := AllAssigned(w0, ts, ex).value;
    LeftKeys(w.db.Keys, w.managers.Keys, IdSet(ts), w1.managers.Keys);
    UpdatedTasks(cs);
    LatestKeys(ts);
    OthersUnassignedKeys(w1, IdSet(ts));
  }

  lemma OthersUnassignedKeys(w: State, kept: set<string>)
    requires w.managers.Keys <= w.db.Keys
    ensures OthersUnassigned(w, kept).db.Keys == w.db.Keys - (w.managers.Keys - kept)
    ensures OthersUnassigned(w, kept).managers.Keys == w.managers.Keys * kept
  {
  }

  /** The database is exactly the assigned set if and only if every older task outside it had a
      live manager: `Assign` walks the managers, not the database. */
  lemma AssignExactly(w: State, cs: seq<Change>, ex: Executor)
    requires Inv(w) && Reconciled(w, cs, true, ex).Some?
    ensures Reconciled(w, cs, true, ex).value.db.Keys == Updates(cs, TaskOf).Keys
       <==> forall id :: id in w.db && id !in Updates(cs, TaskOf) ==> id in w.managers
  {
    AssignLeaves(w, cs, ex);
    var ids, rest := Updates(cs, TaskOf).Keys, w.db.Keys - w.managers.Keys;
    assert ids + rest == ids <==> rest <= ids;
  }

  /** A first message whose task's controller does not resolve leaves a bucket without a manager. */
  lemma RejectedTask(t: Task, ex: Executor)
    requires t.id != "" && ex(t).Some?
    ensures var r := Reconciled(NEW_WORKER, [Change(UpdateAction, TaskItem(t))], true, ex);
            r.Some? && t.id in r.value.db && r.value.managers == map[]
  {
    var c := Change(UpdateAction, TaskItem(t));
    var w0 := WithDependencies(NEW_WORKER, [c], true);
    assert TasksOf([c], UpdateAction) == [t];
    AssignedIsStarted(w0, t, ex);
    assert AllAssigned(w0, [t], ex) == Assigned(w0, t, ex);
    assert IdSet([t]) == {t.id};
  }

  /** Its bucket then survives the next complete message, which does not name it. */
  lemma OrphanSurvives(t: Task, ex: Executor, ex': Executor)
    requires t.id != "" && ex(t).Some?
    ensures var es := [Message([Change(UpdateAction, TaskItem(t))], true, ex), Message([], true, ex')];
            Runs(NEW_WORKER, es) && t.id in Final(NEW_WORKER, es).db
  {
    var e, e' := Message([Change(UpdateAction, TaskItem(t))], true, ex), Message([], true, ex');
    RejectedTask(t, ex);
    RunsTwo(NEW_WORKER, e, e');
    AssignLeaves(Step(NEW_WORKER, e), [], ex');
  }

  lemma RunsTwo(w: State, e: Event, e': Event)
    requires Enabled(w, e) && Enabled(Step(w, e), e')
    ensures Runs(w, [e, e']) && Final(w, [e, e']) == Step(Step(w, e), e')
  {
    assert [e, e'][..1] == [e] && [e][..0] == [];
    assert Runs(w, []) && Final(w, []) == w;
    assert Runs(w, [e]) && Final(w, [e]) == Step(w, e);
  }

  // ---- leaving the cluster ----

  /** Neither a message nor a restart. */
  ghost predicate Quiet(e: Event) { e.Report? || e.ManagerClosed? }

  function Closings(es: seq<Event>): nat {
    if es == [] then 0 else Closings(es[..|es| - 1]) + if es[|es| - 1].ManagerClosed? then 1 else 0
  }

  /** `Leave` assigns nothing and waits. From then on no manager runs, and the wait ends exactly when
      every manager that was alive or closing at that moment has closed. */
  lemma {:induction false} LeaveWaitsForAll(w: State, ex: Executor, es: seq<Event>)
    requires Inv(w) && Enabled(w, Message([], true, ex)) && Runs(Step(w, Message([], true, ex)), es)
    requires forall i :: 0 <= i < |es| ==> Quiet(es[i])
    ensures var w' := Final(Step(w, Message([], true, ex)), es);
            w'.managers == map[] && Closings(es) <= |w.managers| + w.closing
            && (w'.closers == 0 <==> Closings(es) == |w.managers| + w.closing)
  {
    var w1 := Step(w, Message([], true, ex));
    LeaveStarts(w, ex);
    CountsDown(w1, es);
  }

  lemma LeaveStarts(w: State, ex: Executor)
    requires Inv(w) && Enabled(w, Message([], true, ex))
    ensures Step(w, Message([], true, ex)).managers == map[]
    ensures Step(w, Message([], true, ex)).closers == |w.managers| + w.closing
    ensures Inv(Step(w, Message([], true, ex)))
  {
    AssignLeaves(w, [], ex);
    StepKeepsInv(w, Message([], true, ex));
    assert Step(w, Message([], true, ex)).managers.Keys == {};
  }

  lemma {:induction false} CountsDown(w: State, es: seq<Event>)
    requires Inv(w) && w.managers == map[] && Runs(w, es) && forall i :: 0 <= i < |es| ==> Quiet(es[i])
    ensures Final(w, es).managers == map[] && Closings(es) <= w.closers
    ensures Final(w, es).closers == Final(w, es).closing == w.closers - Closings(es)
  {
    if es != [] {
      CountsDown(w, es[..|es| - 1]);
      assert Quiet(es[|es| - 1]);
    }
  }
}
