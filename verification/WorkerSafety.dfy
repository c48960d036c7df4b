/**
 What every run of the worker keeps: assignment messages whose transaction commits, status reports
 of task managers, managers that finish closing, and restarts of the process at any moment.
 */
module WorkerSafety {
  import opened Api
  import opened Storage
  import opened Worker

  datatype Event =
    | Message(cs: seq<Change>, full: bool, ex: Executor)
    | Report(id: string, st: Status)
    | ManagerClosed
    | Restart(ex: Executor)

  predicate Enabled(w: State, e: Event) {
    match e
    case Message(cs, full, ex) => Reconciled(w, cs, full, ex).Some?
    case Report(_, _) => true
    case ManagerClosed => w.closing > 0 && w.closers > 0
    case Restart(_) => true
  }

  function Step(w: State, e: Event): State
    requires Enabled(w, e)
  {
    match e
    case Message(cs, full, ex) => Reconciled(w, cs, full, ex).value
    case Report(id, st) => StatusReported(w, id, st)
    case ManagerClosed => w.(closers := w.closers - 1, closing := w.closing - 1)
    case Restart(ex) => Initialized(w.db, ex)
  }

  predicate Runs(w: State, es: seq<Event>)
    decreases |es|, 0
  {
    es == [] || (Runs(w, es[..|es| - 1]) && Enabled(Final(w, es[..|es| - 1]), es[|es| - 1]))
  }

  function Final(w: State, es: seq<Event>): State
    requires Runs(w, es)
    decreases |es|, 1
  {
    if es == [] then w else Step(Final(w, es[..|es| - 1]), es[|es| - 1])
  }

  const NEW_WORKER := State(map[], map[], 0, 0, map[], map[])

  ghost predicate AllComplete(db: Db) { forall id :: id in db ==> Complete(db, id) && id != "" }

  /** A manager was given something, and only its own task. */
  predicate OfTask(given: seq<Task>, id: string) { given != [] && forall i :: 0 <= i < |given| ==> given[i].id == id }

  /** Every bucket is complete, every manager has its bucket and was given its task, and the closers
      count the managers. */
  ghost predicate Inv(w: State) {
    && AllComplete(w.db)
    && w.managers.Keys <= w.db.Keys
    && (forall id :: id in w.managers ==> OfTask(w.managers[id], id))
    && w.closers == |w.managers| + w.closing
  }

  /** `Started` for a task that has a bucket, field by field. */
  lemma StartedIs(w: State, t: Task, ex: Executor)
    requires t.id in w.db
    ensures Started(w, t, ex)
         == w.(db := w.db[t.id := w.db[t.id].(status := Some(ResolvedStatus(t, ex(t))))],
               managers := if ex(t).Some? then w.managers else w.managers[t.id := [t]],
               closers := if ex(t).Some? then w.closers else w.closers + 1)
  {
  }

  lemma AddManager(m: map<string, seq<Task>>, id: string, given: seq<Task>)
    ensures |m[id := given]| == if id in m then |m| else |m| + 1
  {
    assert m[id := given].Keys == m.Keys + {id};
  }

  lemma DropManager(m: map<string, seq<Task>>, id: string)
    requires id in m
    ensures |m - {id}| == |m| - 1
  {
    assert (m - {id}).Keys == m.Keys - {id};
  }

  /** A complete bucket whose status changes stays complete, and so do the others. */
  lemma StatusKeepsComplete(db: Db, id: string, st: Status, db': Db)
    requires id in db && AllComplete(db) && db' == db[id := db[id].(status := Some(st))]
    ensures AllComplete(db')
  {
    forall k | k in db' ensures Complete(db', k) && k != "" { assert Complete(db, k); }
  }

  lemma StartedKeeps(w: State, t: Task, ex: Executor)
    requires Inv(w) && t.id in w.db && t.id !in w.managers
    ensures Inv(Started(w, t, ex))
  {
    StartedIs(w, t, ex);
    StatusKeepsComplete(w.db, t.id, ResolvedStatus(t, ex(t)), Started(w, t, ex).db);
    AddManager(w.managers, t.id, [t]);
  }

  lemma FilledKeeps(w: State, t: Task)
    requires Inv(w) && t.id != ""
    ensures Inv(w.(db := w.db[t.id := Filled(w.db, t)]))
  {
    var w1 := w.(db := w.db[t.id := Filled(w.db, t)]);
    forall id | id in w1.db ensures Complete(w1.db, id) && id != "" {
      if id != t.id { assert Complete(w.db, id); }
    }
  }

  lemma HandedKeeps(w: State, t: Task)
    requires Inv(w) && t.id in w.managers
    ensures Inv(w.(managers := w.managers[t.id := w.managers[t.id] + [t]]))
  {
    assert OfTask(w.managers[t.id], t.id);
    AddManager(w.managers, t.id, w.managers[t.id] + [t]);
  }

  lemma AssignedKeeps(w: State, t: Task, ex: Executor)
    requires Inv(w) && Assigned(w, t, ex).Some?
    ensures Inv(Assigned(w, t, ex).value)
  {
    var w1 := w.(db := w.db[t.id := Filled(w.db, t)]);
    FilledKeeps(w, t);
    if t.id in w.managers {
      HandedKeeps(w1, t);
      assert Complete(w.db, t.id);
      assert Assigned(w, t, ex).value == w1.(managers := w1.managers[t.id := w1.managers[t.id] + [t]]);
    } else {
      StartedKeeps(w1, Resumed(w.db, t), ex);
      AssignedIsStarted(w, t, ex);
    }
  }

  /** The task with the status it starts from: the stored one, if there is one. */
  function Resumed(db: Db, t: Task): Task {
    var b := BucketOf(db, t.id);
    if b.status.Some? then t.(status := b.status.value) else t
  }

  function Filled(db: Db, t: Task): Bucket { Bucket(Some(Blank(t)), Some(Resumed(db, t).status), true) }

  /** A task without a manager starts from the stored status, if there is one. */
  lemma AssignedIsStarted(w: State, t: Task, ex: Executor)
    requires t.id != "" && t.id !in w.managers
    ensures Assigned(w, t, ex) == Some(Started(w.(db := w.db[t.id := Filled(w.db, t)]), Resumed(w.db, t), ex))
  {
    var b := BucketOf(w.db, t.id);
    var db1 := w.db[t.id := b.(data := Some(Blank(t)))];
    var db2 := db1[t.id := db1[t.id].(mark := true)];
    if b.status.None? {
      var db3 := db2[t.id := db2[t.id].(status := Some(t.status))];
      assert db3 == w.db[t.id := Bucket(Some(Blank(t)), Some(t.status), true)];
    } else {
      assert db2 == w.db[t.id := Bucket(Some(Blank(t)), b.status, true)];
    }
  }

  /** What assigning one task does: to its bucket, and to its manager, which is handed the task or, if
      there is none, started with it. */
  ghost predicate Touches(w: State, w': State, t: Task, ex: Executor) {
    && t.id in w'.db && w'.db == w.db[t.id := w'.db[t.id]]
    && w'.db[t.id].data == Some(Blank(t)) && w'.db[t.id].mark
    && (t.id in w.managers ==> w'.db[t.id].status == BucketOf(w.db, t.id).status)
    && (t.id !in w.managers ==> w'.db[t.id].status == Some(ResolvedStatus(Resumed(w.db, t), ex(Resumed(w.db, t)))))
    && w'.managers == (if t.id in w.managers then w.managers[t.id := w.managers[t.id] + [t]]
                       else if ex(Resumed(w.db, t)).Some? then w.managers
                       else w.managers[t.id := [Resumed(w.db, t)]])
    && w'.secrets == w.secrets && w'.configs == w.configs
  }

  lemma ManagedShape(w: State, t: Task, ex: Executor)
    requires t.id != "" && t.id in w.managers
    ensures Assigned(w, t, ex).Some? && Touches(w, Assigned(w, t, ex).value, t, ex)
  {
    var b := BucketOf(w.db, t.id).(data := Some(Blank(t)), mark := true);
    assert Assigned(w, t, ex).value.db == w.db[t.id := b];
  }

  lemma StartedShape(w: State, t: Task, ex: Executor)
    requires t.id != "" && t.id !in w.managers
    ensures Assigned(w, t, ex).Some? && Touches(w, Assigned(w, t, ex).value, t, ex)
  {
    AssignedIsStarted(w, t, ex);
    StartedIs(w.(db := w.db[t.id := Filled(w.db, t)]), Resumed(w.db, t), ex);
  }

  lemma AssignedShape(w: State, t: Task, ex: Executor)
    ensures Assigned(w, t, ex).Some? <==> t.id != ""
    ensures t.id != "" ==> Touches(w, Assigned(w, t, ex).value, t, ex)
  {
    if t.id == "" {
    } else if t.id in w.managers {
      ManagedShape(w, t, ex);
    } else {
      StartedShape(w, t, ex);
    }
  }

  /** The last round of the loop over updated tasks. */
  lemma LastRound(w: State, ts: seq<Task>, ex: Executor) returns (w1: State, w2: State)
    requires ts != [] && AllAssigned(w, ts, ex).Some?
    ensures AllAssigned(w, ts[..|ts| - 1], ex) == Some(w1) && AllAssigned(w, ts, ex) == Some(w2)
    ensures Assigned(w1, ts[|ts| - 1], ex) == Some(w2) && Touches(w1, w2, ts[|ts| - 1], ex)
  {
    w1, w2 := AllAssigned(w, ts[..|ts| - 1], ex).value, AllAssigned(w, ts, ex).value;
    AssignedShape(w1, ts[|ts| - 1], ex);
  }

  lemma {:induction false} AllAssignedKeep(w: State, ts: seq<Task>, ex: Executor)
    requires Inv(w) && AllAssigned(w, ts, ex).Some?
    ensures Inv(AllAssigned(w, ts, ex).value)
  {
    if ts != [] {
      var w1, w2 := LastRound(w, ts, ex);
      AllAssignedKeep(w, ts[..|ts| - 1], ex);
      AssignedKeeps(w1, ts[|ts| - 1], ex);
    }
  }

  lemma OthersUnassignedKeeps(w: State, kept: set<string>)
    requires Inv(w)
    ensures Inv(OthersUnassigned(w, kept))
  {
    var gone := Others(w, kept);
    var w' := OthersUnassigned(w, kept);
    assert w'.managers.Keys == w.managers.Keys - gone;
    assert |w.managers.Keys - gone| == |w.managers.Keys| - |gone|;
    forall id | id in w'.db ensures Complete(w'.db, id) && id != "" { assert Complete(w.db, id); }
  }

  lemma DropKeepsComplete(db: Db, id: string)
    requires AllComplete(db)
    ensures AllComplete(db - {id})
  {
    forall k | k in db - {id} ensures Complete(db - {id}, k) && k != "" { assert Complete(db, k); }
  }

  lemma UnassignedKeeps(w: State, id: string)
    requires Inv(w)
    ensures Inv(Unassigned(w, id))
  {
    if id in w.managers { DropManager(w.managers, id); }
    if id in w.db { DropKeepsComplete(w.db, id); }
  }

  lemma {:induction false} AllUnassignedKeep(w: State, ids: seq<string>)
    requires Inv(w)
    ensures Inv(AllUnassigned(w, ids))
  {
    if ids != [] {
      AllUnassignedKeep(w, ids[..|ids| - 1]);
      UnassignedKeeps(AllUnassigned(w, ids[..|ids| - 1]), ids[|ids| - 1]);
    }
  }

  lemma MessageKeeps(w: State, cs: seq<Change>, full: bool, ex: Executor)
    requires Inv(w) && Reconciled(w, cs, full, ex).Some?
    ensures Inv(Reconciled(w, cs, full, ex).value)
  {
    var w0, ts := WithDependencies(w, cs, full), TasksOf(cs, UpdateAction);
    AllAssignedKeep(w0, ts, ex);
    var w1 := AllAssigned(w0, ts, ex).value;
    if full { OthersUnassignedKeeps(w1, IdSet(ts)); }
    else { AllUnassignedKeep(w1, Ids(TasksOf(cs, RemoveAction))); }
  }

  lemma RestartKeeps(db: Db, ex: Executor)
    requires AllComplete(db)
    ensures Inv(Initialized(db, ex)) && Initialized(db, ex).db.Keys == db.Keys
  {
    var w := Initialized(db, ex);
    forall id | id in w.db ensures Complete(w.db, id) && id != "" { assert Complete(db, id); }
    forall id | id in db ensures id in w.db { assert Complete(db, id); }
  }

  lemma StepKeepsInv(w: State, e: Event)
    requires Inv(w) && Enabled(w, e)
    ensures Inv(Step(w, e))
  {
    match e
    case Message(cs, full, ex) => MessageKeeps(w, cs, full, ex);
    case Report(id, st) =>
      if id in w.db { StatusKeepsComplete(w.db, id, st, Step(w, e).db); }
    case ManagerClosed =>
    case Restart(ex) => RestartKeeps(w.db, ex);
  }

  /** In every run, every bucket holds its task's data, a status and the assignment mark, every
      live manager has its bucket, and `closers` is the number of managers not yet closed. */
  lemma {:induction false} RunKeepsInv(w: State, es: seq<Event>)
    requires Inv(w) && Runs(w, es)
    ensures Inv(Final(w, es))
  {
    if es != [] {
      RunKeepsInv(w, es[..|es| - 1]);
      StepKeepsInv(Final(w, es[..|es| - 1]), es[|es| - 1]);
    }
  }

  /** `Wait` returns nil when the wait group is empty: then no manager runs and none is closing. */
  lemma WaitMeansAllClosed(es: seq<Event>)
    requires Runs(NEW_WORKER, es)
    ensures Final(NEW_WORKER, es).closers == 0
       <==> Final(NEW_WORKER, es).managers == map[] && Final(NEW_WORKER, es).closing == 0
  {
    RunKeepsInv(NEW_WORKER, es);
  }

  // ---- statuses never go back ----

  /** Resolving a controller never takes a task's state back; without a controller it ends in a final
      state, and with one it is at least accepted. */
  lemma ResolveNeverGoesBack(t: Task, err: Option<string>)
    ensures ResolvedStatus(t, err).state >= t.status.state
    ensures err.Some? ==> ResolvedStatus(t, err).state > RUNNING && ResolvedStatus(t, err).err == err.value
    ensures err.None? ==> ResolvedStatus(t, err).state >= ACCEPTED
    ensures err.None? && t.status.state >= ACCEPTED ==> ResolvedStatus(t, err) == t.status
  {
  }

  /** Case by case: a controller takes a new task to ACCEPTED (256) and leaves any other status alone;
      without one a task that has not started (448) is REJECTED (768), one that runs (512) has FAILED
      (704), and one past that keeps its state. */
  lemma ResolvesExactly(t: Task, err: Option<string>)
    ensures err.None? && t.status.state < 256 ==> ResolvedStatus(t, err) == Status(256, "accepted", "")
    ensures err.None? && t.status.state >= 256 ==> ResolvedStatus(t, err) == t.status
    ensures err.Some? && t.status.state < 448 ==> ResolvedStatus(t, err).state == 768
    ensures err.Some? && 448 <= t.status.state <= 512 ==> ResolvedStatus(t, err).state == 704
    ensures err.Some? && t.status.state > 512 ==> ResolvedStatus(t, err).state == t.status.state
    ensures err.Some? ==>
              ResolvedStatus(t, err).message == "resolving controller failed" && ResolvedStatus(t, err).err == err.value
  {
  }

  /** `Init` bucket by bucket, on any database: a task without the assignment mark is deleted, one with
      data, mark and status gets the resolved status and, if its controller resolves, a manager started
      with the stored task, and every other bucket is left as it is. */
  lemma InitTreatsEach(db: Db, ex: Executor, id: string)
    requires id in db
    ensures var b, w := db[id], Initialized(db, ex);
            if b.data.None? || (b.mark && b.status.None?) then id in w.db && w.db[id] == b && id !in w.managers
            else if !b.mark then id !in w.db && id !in w.managers
            else
              var t := b.data.value.(status := b.status.value);
              && id in w.db && w.db[id] == b.(status := Some(ResolvedStatus(t, ex(t))))
              && (if ex(t).None? then id in w.managers && w.managers[id] == [t] else id !in w.managers)
  {
  }

  /** A restart keeps every task and takes no stored state back, whichever controllers resolve. */
  lemma RestartNeverGoesBack(es: seq<Event>, ex: Executor, id: string)
    requires Runs(NEW_WORKER, es) && id in Final(NEW_WORKER, es).db
    ensures var db, w := Final(NEW_WORKER, es).db, Initialized(Final(NEW_WORKER, es).db, ex);
            && id in w.db && w.db[id].data == db[id].data && db[id].status.Some? && w.db[id].status.Some?
            && w.db[id].status.value.state >= db[id].status.value.state
            && (id in w.managers <==> w.db[id].data.Some? && ex(StoredTask(db[id])).None?)
  {
    RunKeepsInv(NEW_WORKER, es);
    var db := Final(NEW_WORKER, es).db;
    assert Complete(db, id);
    ResolveNeverGoesBack(StoredTask(db[id]), ex(StoredTask(db[id])));
  }

  // ---- the stored status is the last reported one ----

  /** Those of the tasks that have the ID, in order. */
  function About(ts: seq<Task>, id: string): seq<Task> {
    if ts == [] then []
    else var t := ts[|ts| - 1];
         if t.id == id then About(ts[..|ts| - 1], id) + [t] else About(ts[..|ts| - 1], id)
  }

  /** The task has the same manager, handed the tasks `more`, and the same stored status. */
  ghost predicate SameTask(w: State, w': State, id: string, more: seq<Task>) {
    && id in w.managers && id in w.db && id in w'.managers && id in w'.db
    && w'.managers[id] == w.managers[id] + more && w'.db[id].status == w.db[id].status
  }

  lemma {:induction false} AllAssignedSame(w: State, ts: seq<Task>, ex: Executor, id: string)
    requires id in w.managers && id in w.db && AllAssigned(w, ts, ex).Some?
    ensures SameTask(w, AllAssigned(w, ts, ex).value, id, About(ts, id))
  {
    if ts != [] {
      var w1, w2 := LastRound(w, ts, ex);
      AllAssignedSame(w, ts[..|ts| - 1], ex, id);
    }
  }

  lemma {:induction false} AllUnassignedSame(w: State, ids: seq<string>, id: string)
    requires id in w.managers && id in w.db && id in AllUnassigned(w, ids).managers
    ensures SameTask(w, AllUnassigned(w, ids), id, [])
  {
    if ids != [] { AllUnassignedSame(w, ids[..|ids| - 1], id); }
  }

  /** A message hands a task that keeps its manager to it each time it names it, in order, and leaves
      its stored status alone. */
  lemma MessageKeepsStatus(w: State, cs: seq<Change>, full: bool, ex: Executor, id: string)
    requires id in w.managers && id in w.db && Reconciled(w, cs, full, ex).Some?
    requires id in Reconciled(w, cs, full, ex).value.managers
    ensures SameTask(w, Reconciled(w, cs, full, ex).value, id, About(TasksOf(cs, UpdateAction), id))
  {
    var w0, ts := WithDependencies(w, cs, full), TasksOf(cs, UpdateAction);
    AllAssignedSame(w0, ts, ex, id);
    if !full { AllUnassignedSame(AllAssigned(w0, ts, ex).value, Ids(TasksOf(cs, RemoveAction)), id); }
  }

  /** The last status reported for the task in the run. */
  function LastReport(es: seq<Event>, id: string): Option<Status> {
    if es == [] then None
    else
      var e := es[|es| - 1];
      if e.Report? && e.id == id then Some(e.st) else LastReport(es[..|es| - 1], id)
  }

  /** The task has a manager after every step, and the process is not restarted. */
  ghost predicate KeepsManager(w: State, es: seq<Event>, id: string)
    requires Runs(w, es)
    decreases |es|
  {
    id in Final(w, es).managers && (es == [] || (!es[|es| - 1].Restart? && KeepsManager(w, es[..|es| - 1], id)))
  }

  lemma StatusOfStep(w: State, e: Event, id: string)
    requires Enabled(w, e) && !e.Restart? && id in w.managers && id in w.db && id in Step(w, e).managers
    ensures id in Step(w, e).db
    ensures Step(w, e).db[id].status == if e.Report? && e.id == id then Some(e.st) else w.db[id].status
  {
    if e.Message? { MessageKeepsStatus(w, e.cs, e.full, e.ex, id); }
  }

  /** As long as a task keeps its manager, what is stored for it is the last status reported for it,
      whatever messages arrive. */
  lemma {:induction false} StatusIsLastReport(w: State, es: seq<Event>, id: string)
    requires Inv(w) && Runs(w, es) && KeepsManager(w, es, id)
    ensures id in w.db && id in Final(w, es).db
    ensures Final(w, es).db[id].status == if LastReport(es, id).Some? then LastReport(es, id) else w.db[id].status
  {
    if es != [] {
      var front, e := es[..|es| - 1], es[|es| - 1];
      StatusIsLastReport(w, front, id);
      StatusOfStep(Final(w, front), e, id);
    }
  }

  // ---- removed tasks stay removed ----

  ghost predicate Gone(w: State, id: string) { id !in w.db && id !in w.managers }

  /** The event assigns the task. */
  ghost predicate Assigns(e: Event, id: string) { e.Message? && id in IdSet(TasksOf(e.cs, UpdateAction)) }

  lemma {:induction false} AllAssignedGone(w: State, ts: seq<Task>, ex: Executor, id: string)
    requires Gone(w, id) && id !in IdSet(ts) && AllAssigned(w, ts, ex).Some?
    ensures Gone(AllAssigned(w, ts, ex).value, id)
  {
    if ts != [] {
      var front := ts[..|ts| - 1];
      assert ts[|ts| - 1] in ts;
      assert forall t :: t in front ==> t in ts;
      var w1, w2 := LastRound(w, ts, ex);
      AllAssignedGone(w, front, ex, id);
    }
  }

  lemma {:induction false} AllUnassignedGone(w: State, ids: seq<string>, id: string)
    requires Gone(w, id)
    ensures Gone(AllUnassigned(w, ids), id)
  {
    if ids != [] { AllUnassignedGone(w, ids[..|ids| - 1], id); }
  }

  lemma StepKeepsGone(w: State, e: Event, id: string)
    requires Gone(w, id) && Enabled(w, e) && !Assigns(e, id)
    ensures Gone(Step(w, e), id)
  {
    match e
    case Message(cs, full, ex) =>
      var w0, ts := WithDependencies(w, cs, full), TasksOf(cs, UpdateAction);
      AllAssignedGone(w0, ts, ex, id);
      if !full { AllUnassignedGone(AllAssigned(w0, ts, ex).value, Ids(TasksOf(cs, RemoveAction)), id); }
    case Report(_, _) =>
    case ManagerClosed =>
    case Restart(_) =>
  }

  /** Once a task is out of the database, only a message that assigns it brings it back: no late
      status report, no other message and no restart recreates its bucket or its manager. */
  lemma {:induction false} NeverRevived(w: State, es: seq<Event>, id: string)
    requires Gone(w, id) && Runs(w, es) && forall i :: 0 <= i < |es| ==> !Assigns(es[i], id)
    ensures Gone(Final(w, es), id)
  {
    if es != [] {
      NeverRevived(w, es[..|es| - 1], id);
      StepKeepsGone(Final(w, es[..|es| - 1]), es[|es| - 1], id);
    }
  }
}
