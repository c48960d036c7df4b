/** The worker as the source has it: an object whose methods run these loops over the changes. */
module WorkerObject {
  import opened Api
  import opened Storage
  import opened Worker

  /** The map built by adding the pairs in order. */
  function Added(m: map<string, string>, ps: seq<(string, string)>): map<string, string> {
    if ps == [] then m else Added(m, ps[..|ps| - 1])[ps[|ps| - 1].0 := ps[|ps| - 1].1]
  }

  lemma {:induction false} AddedIsMerge(m: map<string, string>, ps: seq<(string, string)>)
    ensures Added(m, ps) == m + Added(map[], ps)
  {
    if ps != [] { AddedIsMerge(m, ps[..|ps| - 1]); }
  }

  function SetOf(ids: seq<string>): set<string> { set id | id in ids }

  lemma SetOfAppend(ids: seq<string>, id: string)
    ensures SetOf(ids + [id]) == SetOf(ids) + {id}
  {
  }

  lemma AddedNext(m: map<string, string>, ps: seq<(string, string)>, p: (string, string))
    ensures Added(m, ps + [p]) == Added(m, ps)[p.0 := p.1]
  {
    assert (ps + [p])[..|ps|] == ps;
  }

  lemma CollectNext(cs: seq<Change>, i: nat, sel: Selector<string>)
    requires i < |cs|
    ensures sel(cs[i]).Some? && cs[i].action.UpdateAction? ==>
              Updates(cs[..i + 1], sel) == Updates(cs[..i], sel)[sel(cs[i]).value.0 := sel(cs[i]).value.1]
    ensures sel(cs[i]).Some? && cs[i].action.RemoveAction? ==>
              Removals(cs[..i + 1], sel) == Removals(cs[..i], sel) + {sel(cs[i]).value.0}
    ensures sel(cs[i]).None? || cs[i].action.RemoveAction? ==> Updates(cs[..i + 1], sel) == Updates(cs[..i], sel)
    ensures sel(cs[i]).None? || cs[i].action.UpdateAction? ==> Removals(cs[..i + 1], sel) == Removals(cs[..i], sel)
  {
    Extend(cs, i);
  }

  lemma SetOfNext(ids: seq<string>, i: nat)
    requires i < |ids|
    ensures SetOf(ids[..i + 1]) == SetOf(ids[..i]) + {ids[i]}
  {
    assert ids[..i + 1] == ids[..i] + [ids[i]];
  }

  lemma MinusMinus<V>(m: map<string, V>, gone: set<string>, id: string)
    ensures m - gone - {id} == m - (gone + {id})
  {
  }

  /** The managers already taken out when `todo` is yet to be visited. */
  function Out(w: State, kept: set<string>, todo: set<string>): set<string> {
    set id | id in w.managers && id in w.db && id !in kept && id !in todo
  }

  lemma OutNone(w: State, kept: set<string>)
    ensures Without(w, Out(w, kept, w.managers.Keys)) == w
  {
    assert Out(w, kept, w.managers.Keys) == {};
    assert w.db - {} == w.db && w.managers - {} == w.managers;
  }

  lemma WithoutNext(w: State, gone: set<string>, id: string)
    requires id !in gone && id in w.managers
    ensures id in w.db ==> Without(w, gone + {id}) == Unassigned(Without(w, gone), id)
    ensures id !in w.db ==> Without(w, gone) == Unassigned(Without(w, gone), id)
  {
    MinusMinus(w.db, gone, id);
    MinusMinus(w.managers, gone, id);
  }

  lemma OutStep(w: State, kept: set<string>, todo: set<string>, id: string)
    requires id in todo && todo <= w.managers.Keys
    ensures id in kept ==> Without(w, Out(w, kept, todo - {id})) == Without(w, Out(w, kept, todo))
    ensures id !in kept ==> Without(w, Out(w, kept, todo - {id})) == Unassigned(Without(w, Out(w, kept, todo)), id)
  {
    var gone, gone' := Out(w, kept, todo), Out(w, kept, todo - {id});
    assert if id in kept || id !in w.db then gone' == gone else gone' == gone + {id};
    WithoutNext(w, gone, id);
  }

  lemma OutAll(w: State, kept: set<string>)
    ensures Out(w, kept, {}) == Others(w, kept)
  {
  }

  lemma Extend(cs: seq<Change>, i: nat)
    requires i < |cs|
    ensures cs[..i + 1][..|cs[..i + 1]| - 1] == cs[..i] && cs[..i + 1][|cs[..i + 1]| - 1] == cs[i]
  {
  }

  method CollectTasks(cs: seq<Change>) returns (updated: seq<Task>, removed: seq<Task>)
    ensures updated == TasksOf(cs, UpdateAction) && removed == TasksOf(cs, RemoveAction)
  {
    updated, removed := [], [];
    for i := 0 to |cs|
      invariant updated == TasksOf(cs[..i], UpdateAction) && removed == TasksOf(cs[..i], RemoveAction)
    {
      Extend(cs, i);
      if cs[i].item.TaskItem? {
        match cs[i].action
        case UpdateAction => updated := updated + [cs[i].item.task];
        case RemoveAction => removed := removed + [cs[i].item.task];
      }
    }
    assert cs[..|cs|] == cs;
  }

  method CollectDependencies(cs: seq<Change>, sel: Selector<string>)
    returns (updated: seq<(string, string)>, removed: seq<string>)
    ensures Added(map[], updated) == Updates(cs, sel)
    ensures SetOf(removed) == Removals(cs, sel)
  {
    updated, removed := [], [];
    for i := 0 to |cs|
      invariant Added(map[], updated) == Updates(cs[..i], sel)
      invariant SetOf(removed) == Removals(cs[..i], sel)
    {
      CollectNext(cs, i, sel);
      match sel(cs[i]) {
        case Some(p) =>
          match cs[i].action {
            case UpdateAction =>
              AddedNext(map[], updated, p);
              updated := updated + [p];
            case RemoveAction =>
              SetOfAppend(removed, p.0);
              removed := removed + [p.0];
          }
        case None =>
      }
    }
    assert cs[..|cs|] == cs;
  }

  /** `reconcileSecrets` and `reconcileConfigs` on the map of the dependency manager. */
  method ReconcileDependencies(m: map<string, string>, cs: seq<Change>, full: bool, sel: Selector<string>)
    returns (r: map<string, string>)
    ensures r == DependenciesReconciled(m, cs, full, sel)
  {
    var updated, removed := CollectDependencies(cs, sel);
    if full {
      r := map[];
    } else {
      r := m;
      for i := 0 to |removed|
        invariant r == m - SetOf(removed[..i])
      {
        MinusMinus(m, SetOf(removed[..i]), removed[i]);
        SetOfNext(removed, i);
        r := r - {removed[i]};
      }
      assert removed[..|removed|] == removed;
    }
    ghost var start := r;
    for i := 0 to |updated|
      invariant r == Added(start, updated[..i])
    {
      r := r[updated[i].0 := updated[i].1];
      assert updated[..i + 1][..i] == updated[..i];
    }
    assert updated[..|updated|] == updated;
    AddedIsMerge(start, updated);
  }

  class NodeWorker {
    var db: Db
    var managers: map<string, seq<Task>>
    var closers: nat
    var closing: nat
    var secrets: map<string, string>
    var configs: map<string, string>
    var closed: bool

    /** The state seen from inside a transaction whose working copy of the database is `tx`. */
    function Seen(tx: Db): State
      reads this
    {
      State(tx, managers, closers, closing, secrets, configs)
    }

    function View(): State
      reads this
    {
      Seen(db)
    }

    constructor (db0: Db)
      ensures View() == State(db0, map[], 0, 0, map[], map[]) && !closed
    {
      db, managers, closers, closing, secrets, configs, closed := db0, map[], 0, 0, map[], map[], false;
    }

    /** A report of a task manager, live or closing. */
    method UpdateTaskStatus(id: string, st: Status)
      modifies `db
      ensures View() == StatusReported(old(View()), id, st)
    {
      match PutTaskStatus(db, id, st) {
        case Some(db1) => db := db1;
        case None =>
      }
    }

    method StartTask(tx: Db, t: Task, ex: Executor) returns (tx': Db)
      requires t.id !in managers
      modifies `managers, `closers
      ensures Seen(tx') == Started(old(Seen(tx)), t, ex)
    {
      var err := ex(t);
      tx' := tx;
      match PutTaskStatus(tx, t.id, ResolvedStatus(t, err)) {
        case Some(tx1) => tx' := tx1;
        case None =>
      }
      if err.None? {
        managers := managers[t.id := [t]];
        closers := closers + 1;
      }
    }

    /** One round of the loop over the updated tasks. */
    method AssignTask(tx: Db, t: Task, ex: Executor) returns (ok: bool, tx': Db)
      modifies `managers, `closers
      ensures ok <==> Assigned(old(Seen(tx)), t, ex).Some?
      ensures ok ==> Seen(tx') == Assigned(old(Seen(tx)), t, ex).value
      ensures !ok ==> managers == old(managers) && closers == old(closers)
    {
      var put := PutTask(tx, t);
      if put.None? { return false, tx; }
      var marked := SetTaskAssignment(put.value, t.id, true);
      if marked.None? { return false, tx; }
      tx' := marked.value;
      if t.id in managers {
        managers := managers[t.id := managers[t.id] + [t]];
      } else {
        match GetTaskStatus(tx', t.id) {
          case Some(st) =>
            tx' := StartTask(tx', t.(status := st), ex);
          case None =>
            var kept := PutTaskStatus(tx', t.id, t.status);
            if kept.None? { return false, tx; }
            tx' := StartTask(kept.value, t, ex);
        }
      }
      return true, tx';
    }

    /** The loop over the updated tasks; it stops at the first that fails. */
    method AssignTasks(tx0: Db, ts: seq<Task>, ex: Executor) returns (ok: bool, tx: Db, n: nat)
      modifies `managers, `closers
      ensures n <= |ts| && AllAssigned(old(Seen(tx0)), ts[..n], ex) == Some(Seen(tx))
      ensures ok <==> n == |ts|
      ensures !ok ==> Assigned(Seen(tx), ts[n], ex).None?
    {
      tx, n := tx0, 0;
      while n < |ts|
        invariant n <= |ts| && AllAssigned(old(Seen(tx0)), ts[..n], ex) == Some(Seen(tx))
      {
        var done, tx1 := AssignTask(tx, ts[n], ex);
        if !done { return false, tx, n; }
        assert ts[..n + 1][..n] == ts[..n];
        tx, n := tx1, n + 1;
      }
      return true, tx, n;
    }

    /** `removeTaskAssignment`, then the manager goes. */
    method RemoveTask(tx: Db, id: string) returns (tx': Db)
      modifies `managers, `closing
      ensures Seen(tx') == Unassigned(old(Seen(tx)), id)
    {
      tx' := tx;
      match DeleteTask(tx, id) {
        case Some(tx1) =>
          tx' := tx1;
          if id in managers {
            managers := managers - {id};
            closing := closing + 1;
          }
        case None =>
      }
    }

    /** The loop over the managers of a complete message. */
    method RemoveOthers(tx0: Db, kept: set<string>) returns (tx: Db)
      modifies `managers, `closing
      ensures Seen(tx) == OthersUnassigned(old(Seen(tx0)), kept)
    {
      tx := tx0;
      var todo := managers.Keys;
      ghost var w0 := Seen(tx0);
      OutNone(w0, kept);
      while todo != {}
        invariant todo <= w0.managers.Keys && Seen(tx) == Without(w0, Out(w0, kept, todo))
        decreases |todo|
      {
        var id :| id in todo;
        OutStep(w0, kept, todo, id);
        todo := todo - {id};
        if id !in kept { tx := RemoveTask(tx, id); }
      }
      OutAll(w0, kept);
    }

    /** The loop over the removed tasks of an incremental message. */
    method RemoveTasks(tx0: Db, rs: seq<Task>) returns (tx: Db)
      modifies `managers, `closing
      ensures Seen(tx) == AllUnassigned(old(Seen(tx0)), Ids(rs))
    {
      tx := tx0;
      for i := 0 to |rs|
        invariant Seen(tx) == AllUnassigned(old(Seen(tx0)), Ids(rs)[..i])
      {
        tx := RemoveTask(tx, rs[i].id);
        assert Ids(rs)[..i + 1][..i] == Ids(rs)[..i];
      }
      assert Ids(rs)[..|rs|] == Ids(rs);
    }

    /** `reconcileTaskState`; `commits` is the outcome of the commit. A failure rolls the database
        back but keeps the managers started or removed before it. */
    method ReconcileTasks(cs: seq<Change>, full: bool, ex: Executor, commits: bool) returns (ok: bool)
      modifies `db, `managers, `closers, `closing
      ensures ok <==> commits && TasksReconciled(old(View()), cs, full, ex).Some?
      ensures ok ==> View() == TasksReconciled(old(View()), cs, full, ex).value
      ensures !ok && TasksReconciled(old(View()), cs, full, ex).Some? ==>
                View() == TasksReconciled(old(View()), cs, full, ex).value.(db := old(db))
      ensures TasksReconciled(old(View()), cs, full, ex).None? ==>
                exists n :: StoppedAt(old(View()), View(), TasksOf(cs, UpdateAction), n, ex)
    {
      var updated, removed := CollectTasks(cs);
      var done, tx, n := AssignTasks(db, updated, ex);
      if !done {
        StopsAt(old(View()), updated, n, ex);
        assert StoppedAt(old(View()), View(), updated, n, ex);
        return false;
      }
      assert updated[..n] == updated;
      if full { tx := RemoveOthers(tx, set t | t in updated :: t.id); }
      else { tx := RemoveTasks(tx, removed); }
      if commits { db := tx; }
      return commits;
    }

    /** `Assign` for a complete message, `Update` for an incremental one. */
    method Reconcile(cs: seq<Change>, full: bool, ex: Executor, commits: bool) returns (ok: bool)
      modifies `db, `managers, `closers, `closing, `secrets, `configs
      ensures ok <==> !closed && commits && Reconciled(old(View()), cs, full, ex).Some?
      ensures ok ==> View() == Reconciled(old(View()), cs, full, ex).value
      ensures !ok ==> db == old(db)
      ensures closed ==> View() == old(View())
    {
      if closed { return false; }
      secrets := ReconcileDependencies(secrets, cs, full, SecretOf);
      configs := ReconcileDependencies(configs, cs, full, ConfigOf);
      ok := ReconcileTasks(cs, full, ex, commits);
    }

    /** `Init`, on the object of a fresh process. */
    method Init(ex: Executor)
      requires View() == State(db, map[], 0, 0, map[], map[])
      requires forall id :: id in db && db[id].data.Some? ==> db[id].data.value.id == id
      modifies `db, `managers, `closers
      ensures View() == Initialized(old(db), ex)
    {
      var todo, before := db.Keys, db;
      while todo != {}
        invariant todo <= before.Keys && before == old(db)
        invariant View() == Walked(before, todo, ex)
        decreases |todo|
      {
        var id :| id in todo;
        assert id in db && db[id] == before[id] && id !in managers;
        if db[id].data.Some? {
          if !db[id].mark {
            db := db - {id};
          } else {
            match GetTaskStatus(db, id) {
              case None =>
              case Some(st) =>
                var t := db[id].data.value.(status := st);
                var tx := StartTask(db, t, ex);
                db := tx;
            }
          }
        }
        WalkStep(before, todo, id, ex);
        todo := todo - {id};
      }
      WalkEnd(before, ex);
    }

    method Close()
      modifies `closed
      ensures closed
    {
      closed := true;
    }
  }

  /** The loop got as far as the `n`th task, and its transaction was rolled back. */
  ghost predicate StoppedAt(w: State, w': State, ts: seq<Task>, n: nat, ex: Executor) {
    n < |ts| && AllAssigned(w, ts[..n], ex).Some? && w' == AllAssigned(w, ts[..n], ex).value.(db := w.db)
  }

  lemma {:induction false} StopsAt(w: State, ts: seq<Task>, n: nat, ex: Executor)
    requires n < |ts| && AllAssigned(w, ts[..n], ex).Some?
    requires Assigned(AllAssigned(w, ts[..n], ex).value, ts[n], ex).None?
    ensures AllAssigned(w, ts, ex).None?
  {
    if n < |ts| - 1 {
      assert ts[..|ts| - 1][..n] == ts[..n];
      StopsAt(w, ts[..|ts| - 1], n, ex);
    } else {
      assert ts[..|ts| - 1] == ts[..n];
    }
  }

  /** The managers and the database when the walk has yet to visit `todo`. */
  function WalkedUp(db: Db, todo: set<string>, ex: Executor): map<string, seq<Task>> {
    map id | id in db && id !in todo && Startable(db[id]) && ex(StoredTask(db[id])).None? :: [StoredTask(db[id])]
  }

  function WalkedDb(db: Db, todo: set<string>, ex: Executor): Db {
    map id | id in db && (id in todo || !Unmarked(db[id])) :: if id in todo then db[id] else Visited(db[id], ex)
  }

  function Walked(db: Db, todo: set<string>, ex: Executor): State {
    State(WalkedDb(db, todo, ex), WalkedUp(db, todo, ex), |WalkedUp(db, todo, ex)|, 0, map[], map[])
  }

  function Visited(b: Bucket, ex: Executor): Bucket {
    if Startable(b) then b.(status := Some(ResolvedStatus(StoredTask(b), ex(StoredTask(b))))) else b
  }

  /** The effect of visiting one bucket. */
  function Visit(w: State, id: string, ex: Executor): State
    requires id in w.db
  {
    var b := w.db[id];
    if Unmarked(b) then w.(db := w.db - {id})
    else if Startable(b) then Started(w, StoredTask(b), ex)
    else w
  }

  lemma WalkDbStep(db: Db, todo: set<string>, id: string, ex: Executor)
    requires id in todo && id in db
    ensures WalkedDb(db, todo - {id}, ex)
         == if Unmarked(db[id]) then WalkedDb(db, todo, ex) - {id} else WalkedDb(db, todo, ex)[id := Visited(db[id], ex)]
  {
  }

  lemma WalkUpStep(db: Db, todo: set<string>, id: string, ex: Executor)
    requires id in todo && id in db
    ensures id !in WalkedUp(db, todo, ex)
    ensures WalkedUp(db, todo - {id}, ex)
         == if Startable(db[id]) && ex(StoredTask(db[id])).None?
            then WalkedUp(db, todo, ex)[id := [StoredTask(db[id])]] else WalkedUp(db, todo, ex)
  {
  }

  lemma WalkStep(db: Db, todo: set<string>, id: string, ex: Executor)
    requires id in todo && id in db && (db[id].data.Some? ==> db[id].data.value.id == id)
    ensures Walked(db, todo - {id}, ex) == Visit(Walked(db, todo, ex), id, ex)
  {
    WalkDbStep(db, todo, id, ex);
    WalkUpStep(db, todo, id, ex);
    var w, b := Walked(db, todo, ex), db[id];
    assert w.db[id] == b;
    if !Startable(b) && !Unmarked(b) { assert w.db[id := b] == w.db; }
  }

  lemma WalkEnd(db: Db, ex: Executor)
    ensures Walked(db, {}, ex) == Initialized(db, ex)
  {
    assert WalkedUp(db, {}, ex) == Initialized(db, ex).managers;
    assert WalkedDb(db, {}, ex) == Initialized(db, ex).db;
  }
}
