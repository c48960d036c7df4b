/** The passes that tell nodes to rotate. */
module ReconcilerBatch {
  import opened Api
  import opened Reconciler
  import opened ReconcilerIndex

  /** Not already asked to renew or rotate. */
  predicate Eligible(n: Node) { n.state != Renew && n.state != Pending && n.state != Rotate }

  function EligibleIds(tracked: map<string, Node>): set<string> { set id | id in tracked && Eligible(tracked[id]) }

  function Marked(n: Node): Node { n.(state := Rotate) }

  ghost predicate Collects(tracked: map<string, Node>, ids: set<string>, batch: seq<Node>)
    requires ids <= tracked.Keys
  {
    && |batch| == |ids|
    && (forall n :: n in batch ==> n.id in ids && n == Marked(tracked[n.id]))
    && (forall id :: id in ids ==> Marked(tracked[id]) in batch)
  }

  lemma CollectsNext(tracked: map<string, Node>, ids: set<string>, batch: seq<Node>, id: string)
    requires ids <= tracked.Keys && Collects(tracked, ids, batch)
    requires id in tracked && id !in ids && tracked[id].id == id
    ensures Collects(tracked, ids + {id}, batch + [Marked(tracked[id])])
  {
    var batch' := batch + [Marked(tracked[id])];
    forall k | k in ids + {id} ensures Marked(tracked[k]) in batch' {
      if k in ids { assert Marked(tracked[k]) in batch; } else { assert batch'[|batch|] == Marked(tracked[k]); }
    }
  }

  lemma CollectsIds(tracked: map<string, Node>, ids: set<string>, batch: seq<Node>)
    requires ids <= tracked.Keys && Collects(tracked, ids, batch) && forall id :: id in ids ==> tracked[id].id == id
    ensures IdsOf(batch) == ids
  {
    forall id | id in ids ensures id in IdsOf(batch) { assert Marked(tracked[id]) in batch; }
  }

  /** The eligible nodes the loop has passed when `todo` is left. */
  function Seen(tracked: map<string, Node>, todo: set<string>): set<string> {
    set id | id in tracked && id !in todo && Eligible(tracked[id])
  }

  function IdsOf(batch: seq<Node>): set<string> { set n | n in batch :: n.id }

  /** A batch: at most 30 eligible nodes, each once, changed in nothing but the certificate state, and
      fewer than 30 only if there are no more. */
  ghost predicate IsBatch(tracked: map<string, Node>, batch: seq<Node>) {
    var ids := IdsOf(batch);
    && ids <= EligibleIds(tracked) && Collects(tracked, ids, batch)
    && |ids| <= 30 && (|ids| < 30 ==> ids == EligibleIds(tracked))
  }

  /** What the loop has collected when `todo` is left. */
  ghost predicate Collecting(tracked: map<string, Node>, todo: set<string>, ids: set<string>, batch: seq<Node>) {
    todo <= tracked.Keys && ids == Seen(tracked, todo) && Collects(tracked, ids, batch)
  }

  lemma PickNext(tracked: map<string, Node>, todo: set<string>, ids: set<string>, batch: seq<Node>, id: string)
    requires Collecting(tracked, todo, ids, batch) && id in todo && Eligible(tracked[id]) && tracked[id].id == id
    ensures Collecting(tracked, todo - {id}, ids + {id}, batch + [Marked(tracked[id])])
  {
    CollectsNext(tracked, ids, batch, id);
  }

  lemma SkipNext(tracked: map<string, Node>, todo: set<string>, ids: set<string>, batch: seq<Node>, id: string)
    requires Collecting(tracked, todo, ids, batch) && id in todo && !Eligible(tracked[id])
    ensures Collecting(tracked, todo - {id}, ids, batch)
  {
  }

  lemma CollectedIsBatch(tracked: map<string, Node>, todo: set<string>, ids: set<string>, batch: seq<Node>)
    requires Collecting(tracked, todo, ids, batch) && forall id :: id in tracked ==> tracked[id].id == id
    requires |batch| == MAX_BATCH || (todo == {} && |batch| < MAX_BATCH)
    ensures IsBatch(tracked, batch)
  {
    CollectsIds(tracked, ids, batch);
  }

  /** The loop over the tracked map, whose order is arbitrary. */
  method CollectBatch(tracked: map<string, Node>) returns (toUpdate: seq<Node>)
    requires forall id :: id in tracked ==> tracked[id].id == id
    ensures IsBatch(tracked, toUpdate)
  {
    toUpdate := [];
    ghost var ids := {};
    var todo := tracked.Keys;
    while todo != {}
      invariant Collecting(tracked, todo, ids, toUpdate) && |toUpdate| < MAX_BATCH
      decreases |todo|
    {
      var id :| id in todo;
      var n := tracked[id];
      if n.state != Renew && n.state != Pending && n.state != Rotate {
        PickNext(tracked, todo, ids, toUpdate, id);
        toUpdate, ids := toUpdate + [n.(state := Rotate)], ids + {id};
        if |toUpdate| >= MAX_BATCH {
          CollectedIsBatch(tracked, todo - {id}, ids, toUpdate);
          return;
        }
      } else {
        SkipNext(tracked, todo, ids, toUpdate, id);
      }
      todo := todo - {id};
    }
    CollectedIsBatch(tracked, todo, ids, toUpdate);
  }

  /** One pass, with every write succeeding and coming back as an event: the batch is marked. */
  ghost predicate IsPass(before: map<string, Node>, after: map<string, Node>) {
    exists batch :: IsBatch(before, batch) && Passed(before, IdsOf(batch), after)
  }

  ghost predicate Passed(before: map<string, Node>, ids: set<string>, after: map<string, Node>) {
    && after.Keys == before.Keys
    && forall id :: id in before ==> after[id] == if id in ids then Marked(before[id]) else before[id]
  }

  lemma PassMarks(before: map<string, Node>, batch: seq<Node>, after: map<string, Node>)
    requires IsBatch(before, batch) && Passed(before, IdsOf(batch), after)
    ensures |EligibleIds(after)| == if |EligibleIds(before)| <= 30 then 0 else |EligibleIds(before)| - 30
  {
    var ids := IdsOf(batch);
    assert EligibleIds(after) == EligibleIds(before) - ids;
    Smaller(ids, EligibleIds(before));
  }

  lemma Smaller(a: set<string>, b: set<string>)
    requires a <= b
    ensures |b - a| == |b| - |a| && (|a| == |b| ==> a == b)
  {
    assert b == a + (b - a);
  }

  function Left(k: nat, j: nat): nat { if k <= 30 * j then 0 else k - 30 * j }

  /** After `j` passes over `k` eligible nodes, `30 * j` fewer are left. */
  lemma {:induction false} PassesCount(ms: seq<map<string, Node>>, j: nat)
    requires j < |ms| && forall i :: 0 <= i < |ms| - 1 ==> IsPass(ms[i], ms[i + 1])
    ensures |EligibleIds(ms[j])| == Left(|EligibleIds(ms[0])|, j)
  {
    if j > 0 {
      PassesCount(ms, j - 1);
      assert IsPass(ms[j - 1], ms[j - 1 + 1]);
      var batch :| IsBatch(ms[j - 1], batch) && Passed(ms[j - 1], IdsOf(batch), ms[j]);
      PassMarks(ms[j - 1], batch, ms[j]);
    }
  }

  function CeilDiv(k: nat): nat { (k + 29) / 30 }

  /** `k` eligible nodes are all marked after exactly `ceil(k / 30)` passes, not earlier. */
  lemma AllMarkedAfterCeil(ms: seq<map<string, Node>>, j: nat)
    requires j < |ms| && forall i :: 0 <= i < |ms| - 1 ==> IsPass(ms[i], ms[i + 1])
    ensures EligibleIds(ms[j]) == {} <==> j >= CeilDiv(|EligibleIds(ms[0])|)
  {
    PassesCount(ms, j);
    var k := |EligibleIds(ms[0])|;
    assert k <= 30 * j <==> j >= CeilDiv(k);
  }

  /** A pass changes nothing but the certificate state, and only of nodes not yet asked. */
  lemma {:induction false} PassesChangeOnlyStates(ms: seq<map<string, Node>>, j: nat)
    requires j < |ms| && forall i :: 0 <= i < |ms| - 1 ==> IsPass(ms[i], ms[i + 1])
    ensures ms[j].Keys == ms[0].Keys
    ensures forall id :: id in ms[0] ==> ms[j][id] == ms[0][id] || (Eligible(ms[0][id]) && ms[j][id] == Marked(ms[0][id]))
  {
    if j > 0 {
      PassesChangeOnlyStates(ms, j - 1);
      assert IsPass(ms[j - 1], ms[j - 1 + 1]);
      var batch :| IsBatch(ms[j - 1], batch) && Passed(ms[j - 1], IdsOf(batch), ms[j]);
    }
  }

  // ---- a pass comes about through the store ----

  /** `batchUpdateNodes`, every write succeeding: the nodes are put one after the other. */
  function Put(s: State, batch: seq<Node>): State {
    if batch == [] then s else Step(Put(s, batch[..|batch| - 1]), PutNode(batch[|batch| - 1]))
  }

  function Changes(batch: seq<Node>): seq<Change> { seq(|batch|, i requires 0 <= i < |batch| => NodeChange(batch[i])) }

  lemma {:induction false} PutQueues(s: State, batch: seq<Node>)
    ensures Put(s, batch).queue == s.queue + Changes(batch)
    ensures Put(s, batch) == s.(nodes := Put(s, batch).nodes, queue := Put(s, batch).queue)
  {
    if batch == [] {
      assert s.queue + Changes(batch) == s.queue;
    } else {
      var front := batch[..|batch| - 1];
      PutQueues(s, front);
      assert Changes(batch) == Changes(front) + [NodeChange(batch[|batch| - 1])];
    }
  }

  /** The map with the nodes of the list in it, the last one of an ID winning. */
  function With(m: map<string, Node>, ns: seq<Node>): map<string, Node>
    decreases |ns|
  {
    if ns == [] then m else With(m[ns[0].id := ns[0]], ns[1..])
  }

  /** Consuming the events of nodes that lack the issuer puts them into the map. */
  lemma {:induction false} Drain(s: State, ns: seq<Node>) returns (s': State, es: seq<Event>)
    requires s.queue == Changes(ns) && s.pending.None? && !s.crashed && Rotating(s.rec)
    requires s.rec.issuer.Some? && s.rec.tracked.Some? && forall n :: n in ns ==> !HasIssuer(n, s.rec.issuer.value)
    ensures |es| == |ns| && (forall e :: e in es ==> e == Consume) && RunsTo(s, es, s')
    ensures s'.queue == [] && s'.rec.tracked == Some(With(s.rec.tracked.value, ns))
    decreases |ns|
  {
    if ns == [] {
      return s, [];
    }
    var n := ns[0];
    assert n in ns && s.queue[0] == NodeChange(n);
    var s1 := Consumed(s);
    assert s1.queue == Changes(ns[1..]);
    assert s1.rec == s.rec.(tracked := Some(s.rec.tracked.value[n.id := n]), ignored := s.rec.ignored - {n.id});
    assert forall x :: x in ns[1..] ==> x in ns;
    var rest;
    s', rest := Drain(s1, ns[1..]);
    es := [Consume] + rest;
  }

  /** The events lead from one state to the other, first event first. */
  ghost predicate RunsTo(s: State, es: seq<Event>, s': State)
    decreases |es|
  {
    if es == [] then s == s' else Enabled(s, es[0]) && RunsTo(Step(s, es[0]), es[1..], s')
  }

  lemma {:induction false} WithAt(m: map<string, Node>, ns: seq<Node>, id: string)
    ensures id in With(m, ns) <==> id in m || id in IdsOf(ns)
    ensures id !in IdsOf(ns) && id in m ==> With(m, ns)[id] == m[id]
    ensures id in IdsOf(ns) ==> With(m, ns)[id] in ns && With(m, ns)[id].id == id
    decreases |ns|
  {
    if ns != [] {
      WithAt(m[ns[0].id := ns[0]], ns[1..], id);
      assert ns == [ns[0]] + ns[1..];
      assert IdsOf(ns) == {ns[0].id} + IdsOf(ns[1..]);
    }
  }

  /** With an empty queue, writing a batch and consuming its events is a pass. */
  lemma BatchIsPass(s: State, batch: seq<Node>) returns (s': State, es: seq<Event>)
    requires Inv(s) && s.rec.begun && s.rec.tracked.Some? && s.queue == [] && s.pending.None? && !s.crashed
    requires IsBatch(s.rec.tracked.value, batch)
    ensures RunsTo(Put(s, batch), es, s') && s'.queue == []
    ensures s'.rec.tracked.Some? && IsPass(s.rec.tracked.value, s'.rec.tracked.value)
  {
    var m := s.rec.tracked.value;
    assert Indexed(s, "");
    PutQueues(s, batch);
    assert [] + Changes(batch) == Changes(batch);
    forall n | n in batch ensures !HasIssuer(n, s.rec.issuer.value) {
      assert Indexed(s, n.id);
      assert n == Marked(m[n.id]);
    }
    s', es := Drain(Put(s, batch), batch);
    forall id ensures id in With(m, batch) <==> id in m
              ensures id in m ==> With(m, batch)[id] == if id in IdsOf(batch) then Marked(m[id]) else m[id]
    {
      WithAt(m, batch, id);
    }
    assert Passed(m, IdsOf(batch), With(m, batch));
  }
}
