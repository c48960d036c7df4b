/** The tracked map is a correct incremental index of the store. */
module ReconcilerIndex {
  import opened Api
  import opened Reconciler

  /** The last event about a node in the queue. */
  function LastFor(q: seq<Change>, id: string): Option<Change> {
    if q == [] then None
    else
      var c := q[|q| - 1];
      if !c.RootChange? && c.node.id == id then Some(c) else LastFor(q[..|q| - 1], id)
  }

  /** The last queued event about a node says what the store holds. */
  ghost predicate Agrees(s: State, id: string) {
    match LastFor(s.queue, id)
    case None => true
    case Some(c) => if c.NodeChange? then id in s.nodes && s.nodes[id] == c.node else id !in s.nodes
  }

  ghost predicate Tracks(m: map<string, Node>, nodes: map<string, Node>, issuer: string, id: string) {
    if id in nodes && nodes[id].tls != Some(issuer) then id in m && m[id] == nodes[id] else id !in m
  }

  /** As long as there is a map: a node without queued events is tracked exactly when it should be, or
      its last event was ignored and is what the store holds. */
  ghost predicate IndexedBy(r: Rec, nodes: map<string, Node>, queued: bool, id: string) {
    && (r.begun ==> r.tracked.Some? && Rotating(r) && r.ignored == map[])
    && (r.current.Some? || r.tracked.Some? ==> r.issuer.Some?)
    && (r.tracked.Some? && !queued ==>
          if id in r.ignored then id in nodes && nodes[id] == r.ignored[id]
          else Tracks(r.tracked.value, nodes, r.issuer.value, id))
  }

  ghost predicate Indexed(s: State, id: string) { IndexedBy(s.rec, s.nodes, LastFor(s.queue, id).Some?, id) }

  ghost predicate Inv(s: State) {
    && (forall id :: id in s.nodes ==> s.nodes[id].id == id)
    && (forall id :: Agrees(s, id)) && (forall id :: Indexed(s, id))
  }

  lemma LastForAppend(q: seq<Change>, c: Change, id: string)
    ensures LastFor(q + [c], id) == if !c.RootChange? && c.node.id == id then Some(c) else LastFor(q, id)
  {
    assert (q + [c])[..|q|] == q;
  }

  lemma {:induction false} LastForRest(q: seq<Change>, id: string)
    requires q != []
    ensures LastFor(q[1..], id).Some? ==> LastFor(q[1..], id) == LastFor(q, id)
    ensures LastFor(q[1..], id).None? ==> LastFor(q, id) == if !q[0].RootChange? && q[0].node.id == id then Some(q[0]) else None
    decreases |q|
  {
    if |q| > 1 {
      var front := q[..|q| - 1];
      LastForRest(front, id);
      assert front[1..] == q[1..][..|q[1..]| - 1];
    }
  }

  /** The event is the last one of its node, or another one of it is still queued. */
  lemma UpdatedIndexes(r: Rec, nodes: map<string, Node>, n: Node, queued: bool, id: string)
    requires IndexedBy(r, nodes, queued || n.id == id, id) && NodeUpdated(r, n).Some?
    requires n.id == id && !queued ==> id in nodes && nodes[id] == n
    ensures IndexedBy(NodeUpdated(r, n).value, nodes, queued, id)
  {
    if !Rotating(r) {
    } else if HasIssuer(n, r.issuer.value) {
      DeletedIndexes(r, nodes, n, queued, id);
    }
  }

  lemma DeletedIndexes(r: Rec, nodes: map<string, Node>, n: Node, queued: bool, id: string)
    requires IndexedBy(r, nodes, queued || n.id == id, id)
    requires n.id == id && !queued && r.tracked.Some? ==> id !in nodes || HasIssuer(nodes[id], r.issuer.value)
    ensures IndexedBy(NodeDeleted(r, n), nodes, queued, id)
  {
  }

  lemma ConsumeNode(s: State, id: string)
    requires Inv(s) && Enabled(s, Consume) && !s.queue[0].RootChange?
    ensures Agrees(Consumed(s), id) && Indexed(Consumed(s), id)
  {
    assert Agrees(s, id) && Indexed(s, id);
    LastForRest(s.queue, id);
    var queued := LastFor(s.queue[1..], id).Some?;
    match s.queue[0]
    case NodeChange(n) => if NodeUpdated(s.rec, n).Some? { UpdatedIndexes(s.rec, s.nodes, n, queued, id); }
    case NodeGone(n) => DeletedIndexes(s.rec, s.nodes, n, queued, id);
  }

  lemma RootIndexes(r: Rec, nodes: map<string, Node>, root: RootCA, queued: bool, id: string)
    requires IndexedBy(r, nodes, queued, id)
    ensures IndexedBy(RootUpdated(r, root, nodes), nodes, queued, id)
  {
  }

  lemma ConsumeRoot(s: State, id: string)
    requires Inv(s) && Enabled(s, Consume) && s.queue[0].RootChange?
    ensures Agrees(Consumed(s), id) && Indexed(Consumed(s), id)
  {
    assert Agrees(s, id) && Indexed(s, id);
    LastForRest(s.queue, id);
    RootIndexes(s.rec, s.nodes, s.queue[0].root, LastFor(s.queue, id).Some?, id);
  }

  lemma StoreStep(s: State, e: Event, id: string)
    requires Inv(s) && Enabled(s, e) && (e.PutNode? || e.DropNode? || e.PutRoot? || e.Commit?)
    ensures Agrees(Step(s, e), id) && Indexed(Step(s, e), id)
  {
    assert Agrees(s, id) && Indexed(s, id);
    var s' := Step(s, e);
    if s'.queue != s.queue { LastForAppend(s.queue, s'.queue[|s.queue|], id); }
  }

  lemma StepKeepsInv(s: State, e: Event)
    requires Inv(s) && Enabled(s, e)
    ensures Inv(Step(s, e))
  {
    forall id ensures Agrees(Step(s, e), id) && Indexed(Step(s, e), id) {
      if e.Consume? {
        if s.queue[0].RootChange? { ConsumeRoot(s, id); } else { ConsumeNode(s, id); }
      } else if e.PutNode? || e.DropNode? || e.PutRoot? || e.Commit? {
        StoreStep(s, e, id);
      } else {
        assert Agrees(s, id) && Indexed(s, id);
      }
    }
  }

  lemma {:induction false} RunKeepsInv(s: State, es: seq<Event>)
    requires Inv(s) && Runs(s, es)
    ensures Inv(Final(s, es))
  {
    if es != [] {
      RunKeepsInv(s, es[..|es| - 1]);
      StepKeepsInv(Final(s, es[..|es| - 1]), es[|es| - 1]);
    }
  }

  // ---- replaying the queue ----

  /** The node events of the queue, applied to the tracked map in order. */
  function Replay(m: map<string, Node>, q: seq<Change>, issuer: string): map<string, Node> {
    if q == [] then m
    else
      var m1 := Replay(m, q[..|q| - 1], issuer);
      match q[|q| - 1]
      case NodeChange(n) => if n.tls == Some(issuer) then m1 - {n.id} else m1[n.id := n]
      case NodeGone(n) => m1 - {n.id}
      case RootChange(_, _) => m1
  }

  lemma {:induction false} ReplayAt(m: map<string, Node>, q: seq<Change>, issuer: string, id: string)
    ensures var m', last := Replay(m, q, issuer), LastFor(q, id);
            if last.None? then (id in m' <==> id in m) && (id in m ==> m'[id] == m[id])
            else if last.value.NodeChange? && !HasIssuer(last.value.node, issuer) then id in m' && m'[id] == last.value.node
            else id !in m'
  {
    if q != [] { ReplayAt(m, q[..|q| - 1], issuer, id); }
  }

  /** In every run, while a rotation begun by a change of issuer is current, the tracked map with
      the queued node events replayed is exactly the set of stored nodes that lack the issuer. */
  lemma IndexIsCorrect(nodes: map<string, Node>, root: RootCA, es: seq<Event>)
    requires (forall id :: id in nodes ==> nodes[id].id == id) && Runs(Init(nodes, root), es)
    requires Final(Init(nodes, root), es).rec.begun
    ensures var s := Final(Init(nodes, root), es);
            s.rec.tracked.Some? && s.rec.issuer.Some? &&
            Replay(s.rec.tracked.value, s.queue, s.rec.issuer.value) == Lacking(s.nodes, s.rec.issuer.value)
  {
    InitInv(nodes, root);
    RunKeepsInv(Init(nodes, root), es);
    var s := Final(Init(nodes, root), es);
    assert Indexed(s, "");
    ReplayIsLacking(s);
  }

  lemma InitInv(nodes: map<string, Node>, root: RootCA)
    requires forall id :: id in nodes ==> nodes[id].id == id
    ensures Inv(Init(nodes, root))
  {
    forall id ensures Agrees(Init(nodes, root), id) && Indexed(Init(nodes, root), id) {
      LastForAppend([], RootChange(root, false), id);
    }
  }

  lemma ReplayIsLacking(s: State)
    requires Inv(s) && s.rec.begun && s.rec.tracked.Some? && s.rec.issuer.Some?
    ensures Replay(s.rec.tracked.value, s.queue, s.rec.issuer.value) == Lacking(s.nodes, s.rec.issuer.value)
  {
    var m, issuer := s.rec.tracked.value, s.rec.issuer.value;
    var a, b := Replay(m, s.queue, issuer), Lacking(s.nodes, issuer);
    forall id ensures (id in a <==> id in b) && (id in a && id in b ==> a[id] == b[id]) {
      assert Agrees(s, id) && Indexed(s, id);
      ReplayAt(m, s.queue, issuer, id);
    }
    assert a.Keys == b.Keys;
  }

  /** An empty set then means: every stored node that lacks the issuer has an event still queued. */
  lemma EmptyMeansQueued(s: State, id: string)
    requires Inv(s) && s.rec.begun && s.rec.tracked == Some(map[]) && s.rec.issuer.Some?
    requires id in s.nodes && !HasIssuer(s.nodes[id], s.rec.issuer.value)
    ensures LastFor(s.queue, id) == Some(NodeChange(s.nodes[id]))
  {
    assert Agrees(s, id) && Indexed(s, id);
  }

  /** The reconciler writes to its map only when there is one, as long as the rotation was begun by a
      change of issuer. */
  lemma NoCrashWhileBegun(s: State)
    requires Inv(s) && Enabled(s, Consume) && s.rec.begun
    ensures !Consumed(s).crashed || s.crashed
  {
    assert Indexed(s, "");
  }

  // ---- a rotation that keeps the issuer ----

  /** The events of the run lead from one state to the other. */
  ghost predicate Reaches(s0: State, es: seq<Event>, s: State) { Runs(s0, es) && Final(s0, es) == s }

  lemma Next(s0: State, es: seq<Event>, s: State, e: Event) returns (es': seq<Event>, s': State)
    requires Reaches(s0, es, s) && Enabled(s, e)
    ensures Reaches(s0, es', s') && s' == Step(s, e)
  {
    es', s' := es + [e], Step(s, e);
    assert es'[..|es|] == es;
  }

  /** The first event of every run: the root CA that the server starts with. */
  lemma FirstRoot(nodes: map<string, Node>, a: RootCA) returns (es: seq<Event>, s: State)
    requires a.rotation.Some? && IssuerOf(a).Some?
    ensures Reaches(Init(nodes, a), es, s)
    ensures s == State(nodes, a, [], Rec(Some(a), IssuerOf(a), Some(Lacking(nodes, IssuerOf(a).value)), true, map[]), false,
                       [Loop(0, a, false, false)], 1, true, None)
  {
    var s0 := Init(nodes, a);
    es, s := Next(s0, [], s0, Consume);
  }

  /** A rotation to a certificate with the issuer the cluster already has is current without being
      begun: nothing is tracked, and the next event of a node that lacks the issuer writes to nil. */
  lemma SameIssuerRotation(n: Node, root: RootCA, rotation: Rotation) returns (es: seq<Event>, s: State)
    requires root.rotation.None? && root.cert.issuer.Some? && rotation.cert.issuer == root.cert.issuer
    requires !HasIssuer(n, root.cert.issuer.value)
    ensures Reaches(Init(map[n.id := n], root), es, s)
    ensures Rotating(s.rec) && !s.rec.begun && s.rec.tracked.None? && s.queue == [] && NodeUpdated(s.rec, n).None?
    ensures s.rec.issuer.Some? && n.id in Lacking(s.nodes, s.rec.issuer.value)
  {
    var s0, b := Init(map[n.id := n], root), root.(rotation := Some(rotation));
    es, s := Next(s0, [], s0, Consume);
    assert s == s0.(queue := [], rec := Rec(Some(root), IssuerOf(root), None, false, map[]));
    es, s := Next(s0, es, s, PutRoot(b));
    es, s := Next(s0, es, s, Consume);
  }

  /** A rotation of an empty cluster, finished, and its event consumed: the empty map is left over. */
  lemma FinishedRun(a: RootCA, hash: string, tokens: string) returns (es: seq<Event>, s: State)
    requires a.rotation.Some? && IssuerOf(a).Some?
    ensures Reaches(Init(map[], a), es, s)
    ensures var b := Finished(a, hash, tokens);
            s == State(map[], b, [], Rec(Some(b), IssuerOf(a), Some(map[]), false, map[]), false, [], 1, true, None)
  {
    var s0, b := Init(map[], a), Finished(a, hash, tokens);
    es, s := FirstRoot(map[], a);
    assert s.rec.tracked == Some(map[]);
    es, s := Next(s0, es, s, SeeEmpty(0));
    es, s := Next(s0, es, s, Commit(0, hash, tokens));
    assert s == State(map[], b, [RootChange(b, true)], Rec(Some(a), IssuerOf(a), Some(map[]), true, map[]), false, [], 1, true, None);
    es, s := Next(s0, es, s, Consume);
  }

  /** After a finished rotation the map is left over: a node that comes while there is no rotation is
      ignored, and a second rotation to the same issuer finds the map without it. */
  lemma LeftoverIsStale(n: Node, a: RootCA, b: RootCA, hash: string, tokens: string) returns (es: seq<Event>, s: State)
    requires a.rotation.Some? && b.rotation.Some? && IssuerOf(a).Some? && IssuerOf(b) == IssuerOf(a) && n.tls != IssuerOf(a)
    ensures Reaches(Init(map[], a), es, s)
    ensures Rotating(s.rec) && !s.rec.begun && s.rec.tracked == Some(map[]) && s.queue == []
    ensures s.rec.issuer.Some? && n.id in Lacking(s.nodes, s.rec.issuer.value)
  {
    var s0 := Init(map[], a);
    es, s := FinishedRun(a, hash, tokens);
    es, s := Next(s0, es, s, PutNode(n));
    es, s := Next(s0, es, s, Consume);
    assert s.nodes == map[n.id := n] && s.queue == [] && s.rec.tracked == Some(map[]) && s.rec.issuer == IssuerOf(a);
    es, s := Next(s0, es, s, PutRoot(b));
    es, s := Next(s0, es, s, Consume);
  }

  /** The tracked map holds what it should of the node, given the node's last event. */
  predicate Agreed(m: map<string, Node>, n: Node, issuer: string) {
    if HasIssuer(n, issuer) then n.id !in m else n.id in m && m[n.id] == n
  }

  /** Every current rotation that was not begun, in every run, has one of two shapes. Without a map,
      the next event of any node that lacks the issuer writes to nil. With a map left over from the
      rotation before, a node without queued events is tracked rightly if and only if none of its
      events was ignored or the ignored one agrees with the map. */
  lemma KeptIssuerExactly(nodes: map<string, Node>, root: RootCA, es: seq<Event>, n: Node)
    requires (forall id :: id in nodes ==> nodes[id].id == id) && Runs(Init(nodes, root), es)
    requires var s := Final(Init(nodes, root), es); Rotating(s.rec) && !s.rec.begun
    ensures var s := Final(Init(nodes, root), es);
            && s.rec.issuer.Some?
            && (if s.rec.tracked.None? then NodeUpdated(s.rec, n).None? <==> !HasIssuer(n, s.rec.issuer.value)
                else NodeUpdated(s.rec, n).Some? && (LastFor(s.queue, n.id).None? ==>
                  (Tracks(s.rec.tracked.value, s.nodes, s.rec.issuer.value, n.id) <==>
                   n.id !in s.rec.ignored || Agreed(s.rec.tracked.value, s.rec.ignored[n.id], s.rec.issuer.value))))
  {
    InitInv(nodes, root);
    RunKeepsInv(Init(nodes, root), es);
    var s := Final(Init(nodes, root), es);
    assert Indexed(s, n.id);
  }
}
