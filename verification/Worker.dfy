/**
 The worker (agent/worker.go) on values: what one assignment message does to the
 database, the task managers, the count of closers, the secrets and the configs.
 */
module Worker {
  import opened Api
  import opened Storage

  datatype Action = UpdateAction | RemoveAction
  datatype Item = TaskItem(task: Task) | SecretItem(id: string, value: string) | ConfigItem(id: string, value: string)
  datatype Change = Change(action: Action, item: Item)

  /** `managers` maps a task's ID to what its manager was given, in order: the task it was started
      with, then the tasks `Update` handed it; `closing` counts the managers removed from the map whose
      goroutine has not called `Done` yet. */
  datatype State = State(
    db: Db,
    managers: map<string, seq<Task>>,
    closers: nat,
    closing: nat,
    secrets: map<string, string>,
    configs: map<string, string>)

  /** The executor: the error of resolving a controller for a task, if any. */
  type Executor = Task -> Option<string>

  const ACCEPTED := 256
  const STARTING := 448
  const RUNNING := 512
  const FAILED := 704
  const REJECTED := 768

  /** `exec.Resolve`: the status after trying to resolve a controller. */
  function ResolvedStatus(t: Task, err: Option<string>): Status {
    if err.Some? then
      var st := if t.status.state < STARTING then REJECTED else if t.status.state <= RUNNING then FAILED else t.status.state;
      Status(st, "resolving controller failed", err.value)
    else if t.status.state < ACCEPTED then Status(ACCEPTED, "accepted", "")
    else t.status
  }

  /** `updateTaskStatus`: a status for a task that is gone is dropped. */
  function StatusReported(w: State, id: string, st: Status): State {
    match PutTaskStatus(w.db, id, st) case Some(db) => w.(db := db) case None => w
  }

  /** `startTask`, for a task without a manager. */
  function Started(w: State, t: Task, ex: Executor): State {
    var w1 := StatusReported(w, t.id, ResolvedStatus(t, ex(t)));
    if ex(t).Some? then w1
    else w1.(managers := w1.managers[t.id := [t]], closers := w1.closers + 1)
  }

  /** One round of the loop over updated tasks; `None` is a database error. */
  function Assigned(w: State, t: Task, ex: Executor): Option<State> {
    match PutTask(w.db, t)
    case None => None
    case Some(db1) =>
      match SetTaskAssignment(db1, t.id, true)
      case None => None
      case Some(db2) =>
        if t.id in w.managers then Some(w.(db := db2, managers := w.managers[t.id := w.managers[t.id] + [t]]))
        else
          match GetTaskStatus(db2, t.id)
          case Some(st) => Some(Started(w.(db := db2), t.(status := st), ex))
          case None =>
            match PutTaskStatus(db2, t.id, t.status)
            case None => None
            case Some(db3) => Some(Started(w.(db := db3), t, ex))
  }

  function AllAssigned(w: State, ts: seq<Task>, ex: Executor): Option<State> {
    if ts == [] then Some(w)
    else match AllAssigned(w, ts[..|ts| - 1], ex)
      case None => None
      case Some(w1) => Assigned(w1, ts[|ts| - 1], ex)
  }

  /** `removeTaskAssignment` and the removal of the manager. */
  function Unassigned(w: State, id: string): State {
    match DeleteTask(w.db, id)
    case None => w
    case Some(db) =>
      if id in w.managers then w.(db := db, managers := w.managers - {id}, closing := w.closing + 1)
      else w.(db := db)
  }

  function AllUnassigned(w: State, ids: seq<string>): State {
    if ids == [] then w else Unassigned(AllUnassigned(w, ids[..|ids| - 1]), ids[|ids| - 1])
  }

  /** The full-snapshot removal: the managers outside `kept`. */
  function OthersUnassigned(w: State, kept: set<string>): State {
    Without(w, Others(w, kept))
  }

  function Others(w: State, kept: set<string>): set<string> { set id | id in w.managers && id in w.db && id !in kept }

  function Without(w: State, gone: set<string>): State {
    w.(db := w.db - gone, managers := w.managers - gone, closing := w.closing + |gone|)
  }

  function TasksOf(cs: seq<Change>, a: Action): seq<Task> {
    if cs == [] then []
    else var c := cs[|cs| - 1];
         TasksOf(cs[..|cs| - 1], a) + (if c.action == a && c.item.TaskItem? then [c.item.task] else [])
  }

  function Ids(ts: seq<Task>): seq<string> { seq(|ts|, i requires 0 <= i < |ts| => ts[i].id) }

  function IdSet(ts: seq<Task>): set<string> { set t | t in ts :: t.id }

  /** `reconcileTaskState` up to the commit. */
  function TasksReconciled(w: State, cs: seq<Change>, full: bool, ex: Executor): Option<State> {
    var updated := TasksOf(cs, UpdateAction);
    match AllAssigned(w, updated, ex)
    case None => None
    case Some(w1) =>
      Some(if full then OthersUnassigned(w1, IdSet(updated))
           else AllUnassigned(w1, Ids(TasksOf(cs, RemoveAction))))
  }

  /** What a change is about: a task, a secret or a config, and which one. */
  type Selector<!V> = Change -> Option<(string, V)>

  function TaskOf(c: Change): Option<(string, Task)> {
    if c.item.TaskItem? then Some((c.item.task.id, c.item.task)) else None
  }

  function SecretOf(c: Change): Option<(string, string)> {
    if c.item.SecretItem? then Some((c.item.id, c.item.value)) else None
  }

  function ConfigOf(c: Change): Option<(string, string)> {
    if c.item.ConfigItem? then Some((c.item.id, c.item.value)) else None
  }

  /** The updated entries, the last update of a key winning. */
  function Updates<V>(cs: seq<Change>, sel: Selector<V>): map<string, V> {
    if cs == [] then map[]
    else
      var c, m := cs[|cs| - 1], Updates(cs[..|cs| - 1], sel);
      match sel(c)
      case Some(p) => if c.action.UpdateAction? then m[p.0 := p.1] else m
      case None => m
  }

  function Removals<V>(cs: seq<Change>, sel: Selector<V>): set<string> {
    if cs == [] then {}
    else
      var c, s := cs[|cs| - 1], Removals(cs[..|cs| - 1], sel);
      match sel(c)
      case Some(p) => if c.action.RemoveAction? then s + {p.0} else s
      case None => s
  }

  /** `reconcileSecrets` and `reconcileConfigs`: reset or remove, then add. */
  function DependenciesReconciled(m: map<string, string>, cs: seq<Change>, full: bool, sel: Selector<string>)
    : map<string, string>
  {
    (if full then map[] else m - Removals(cs, sel)) + Updates(cs, sel)
  }

  function WithDependencies(w: State, cs: seq<Change>, full: bool): State {
    w.(secrets := DependenciesReconciled(w.secrets, cs, full, SecretOf),
       configs := DependenciesReconciled(w.configs, cs, full, ConfigOf))
  }

  /** `Assign` (full) or `Update` when the transaction commits; `None` when it does not get there. */
  function Reconciled(w: State, cs: seq<Change>, full: bool, ex: Executor): Option<State> {
    TasksReconciled(WithDependencies(w, cs, full), cs, full, ex)
  }

  // ---- Init ----

  /** The stored task with its stored status. */
  function StoredTask(b: Bucket): Task
    requires b.data.Some? && b.status.Some?
  {
    b.data.value.(status := b.status.value)
  }

  predicate Startable(b: Bucket) { b.data.Some? && b.mark && b.status.Some? }

  predicate Unmarked(b: Bucket) { b.data.Some? && !b.mark }

  /** `Init`, whatever order the walk has: unmarked tasks are deleted, a task without a status is
      left alone, and every other task gets its resolved status and, if its controller resolves,
      a manager. */
  function Initialized(db: Db, ex: Executor): State {
    var up := map id | id in db && Startable(db[id]) && ex(StoredTask(db[id])).None? :: [StoredTask(db[id])];
    var db' := map id | id in db && !Unmarked(db[id]) ::
      if Startable(db[id])
      then db[id].(status := Some(ResolvedStatus(StoredTask(db[id]), ex(StoredTask(db[id])))))
      else db[id];
    State(db', up, |up|, 0, map[], map[])
  }
}
