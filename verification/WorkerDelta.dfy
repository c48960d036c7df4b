/**
 What a list of changes means: applied one after the other. The worker applies a message in two
 batches instead; these lemmas say exactly when the two agree.
 */
module WorkerDelta {
  import opened Api
  import opened Worker

  /** The changes of one kind, one after the other. */
  function InOrder<V>(m: map<string, V>, cs: seq<Change>, sel: Selector<V>): map<string, V> {
    if cs == [] then m
    else
      var c, m1 := cs[|cs| - 1], InOrder(m, cs[..|cs| - 1], sel);
      match sel(c)
      case Some(p) => if c.action.UpdateAction? then m1[p.0 := p.1] else m1 - {p.0}
      case None => m1
  }

  /** The last change about `id` is an update. */
  predicate EndsUpdated<V>(cs: seq<Change>, sel: Selector<V>, id: string) {
    cs != [] &&
    var c := cs[|cs| - 1];
    match sel(c)
    case Some(p) => if p.0 == id then c.action.UpdateAction? else EndsUpdated(cs[..|cs| - 1], sel, id)
    case None => EndsUpdated(cs[..|cs| - 1], sel, id)
  }

  lemma {:induction false} InOrderAt<V>(m: map<string, V>, cs: seq<Change>, sel: Selector<V>, id: string)
    ensures EndsUpdated(cs, sel, id) ==>
              id in Updates(cs, sel) && id in InOrder(m, cs, sel) && InOrder(m, cs, sel)[id] == Updates(cs, sel)[id]
    ensures !EndsUpdated(cs, sel, id) && id in Updates(cs, sel) ==> id in Removals(cs, sel)
    ensures !EndsUpdated(cs, sel, id) && id in Removals(cs, sel) ==> id !in InOrder(m, cs, sel)
    ensures id !in Updates(cs, sel) && id !in Removals(cs, sel) ==>
              (id in InOrder(m, cs, sel) <==> id in m) && (id in m ==> InOrder(m, cs, sel)[id] == m[id])
  {
    if cs != [] { InOrderAt(m, cs[..|cs| - 1], sel, id); }
  }

  /** Removing first and adding then is the in-order meaning exactly when every key that is both
      updated and removed ends updated. */
  lemma AddLastExactly<V>(m: map<string, V>, cs: seq<Change>, sel: Selector<V>)
    ensures m - Removals(cs, sel) + Updates(cs, sel) == InOrder(m, cs, sel)
       <==> forall id :: id in Updates(cs, sel) && id in Removals(cs, sel) ==> EndsUpdated(cs, sel, id)
  {
    var x, y := m - Removals(cs, sel) + Updates(cs, sel), InOrder(m, cs, sel);
    forall id ensures (id in Updates(cs, sel) && id in Removals(cs, sel) ==> EndsUpdated(cs, sel, id))
                 <==> (id in x <==> id in y) && (id in x && id in y ==> x[id] == y[id])
    {
      InOrderAt(m, cs, sel, id);
    }
    if forall id :: id in Updates(cs, sel) && id in Removals(cs, sel) ==> EndsUpdated(cs, sel, id) {
      assert x.Keys == y.Keys;
    }
  }

  /** Adding first and removing then is the in-order meaning exactly when no removed key ends updated. */
  lemma RemoveLastExactly<V>(m: map<string, V>, cs: seq<Change>, sel: Selector<V>)
    ensures m + Updates(cs, sel) - Removals(cs, sel) == InOrder(m, cs, sel)
       <==> forall id :: id in Updates(cs, sel) && id in Removals(cs, sel) ==> !EndsUpdated(cs, sel, id)
  {
    var x, y := m + Updates(cs, sel) - Removals(cs, sel), InOrder(m, cs, sel);
    forall id ensures (id in Updates(cs, sel) && id in Removals(cs, sel) ==> !EndsUpdated(cs, sel, id))
                 <==> (id in x <==> id in y) && (id in x && id in y ==> x[id] == y[id])
    {
      InOrderAt(m, cs, sel, id);
    }
    if forall id :: id in Updates(cs, sel) && id in Removals(cs, sel) ==> !EndsUpdated(cs, sel, id) {
      assert x.Keys == y.Keys;
    }
  }

  // ---- the lists of the source as maps and sets ----

  function Latest(ts: seq<Task>): map<string, Task> {
    if ts == [] then map[] else Latest(ts[..|ts| - 1])[ts[|ts| - 1].id := ts[|ts| - 1]]
  }

  lemma LatestAppend(ts: seq<Task>, t: Task)
    ensures Latest(ts + [t]) == Latest(ts)[t.id := t]
  {
    assert (ts + [t])[..|ts|] == ts;
  }

  lemma TasksOfNext(front: seq<Change>, c: Change, a: Action)
    ensures TasksOf(front + [c], a)
         == if c.action == a && c.item.TaskItem? then TasksOf(front, a) + [c.item.task] else TasksOf(front, a)
  {
    assert (front + [c])[..|front|] == front;
    assert TasksOf(front, a) + [] == TasksOf(front, a);
  }

  lemma {:induction false} UpdatedTasks(cs: seq<Change>)
    ensures Latest(TasksOf(cs, UpdateAction)) == Updates(cs, TaskOf)
  {
    if cs != [] {
      var front, c := cs[..|cs| - 1], cs[|cs| - 1];
      UpdatedTasks(front);
      TasksOfNext(front, c, UpdateAction);
      assert front + [c] == cs;
      if c.item.TaskItem? { LatestAppend(TasksOf(front, UpdateAction), c.item.task); }
    }
  }

  lemma {:induction false} RemovedTasks(cs: seq<Change>)
    ensures IdSet(TasksOf(cs, RemoveAction)) == Removals(cs, TaskOf)
  {
    if cs != [] {
      var front, c := cs[..|cs| - 1], cs[|cs| - 1];
      RemovedTasks(front);
      TasksOfNext(front, c, RemoveAction);
      assert front + [c] == cs;
      if c.item.TaskItem? {
        var ts := TasksOf(front, RemoveAction);
        assert IdSet(ts + [c.item.task]) == IdSet(ts) + {c.item.task.id};
      }
    }
  }

  lemma {:induction false} LatestKeys(ts: seq<Task>)
    ensures Latest(ts).Keys == IdSet(ts)
  {
    if ts != [] {
      LatestKeys(ts[..|ts| - 1]);
      assert ts == ts[..|ts| - 1] + [ts[|ts| - 1]];
    }
  }
}
