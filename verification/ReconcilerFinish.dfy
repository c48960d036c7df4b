/** When a loop that sees an empty set may take the rotation for finished. */
module ReconcilerFinish {
  import opened Api
  import opened Reconciler
  import opened ReconcilerIndex
  import opened ReconcilerLoops

  /** A loop that is not cancelled works on the issuer of the rotation that was begun. */
  ghost predicate LoopIssuer(s: State) {
    s.rec.begun ==>
      && (forall l :: l in s.loops && !l.cancelled ==> IssuerOf(l.root) == s.rec.issuer)
      && (s.pending.Some? ==> IssuerOf(s.pending.value) == s.rec.issuer)
  }

  lemma ConsumeKeepsIssuer(s: State)
    requires LoopIssuer(s) && LoopInv(s) && Enabled(s, Consume)
    ensures LoopIssuer(Consumed(s))
  {
    if s.queue[0].RootChange? && StartsLoop(s.rec, s.queue[0].root) && s.hasCancel && s.loops != [] {
      assert s.loops[0] in s.loops;
    }
  }

  lemma StepKeepsIssuer(s: State, e: Event)
    requires LoopIssuer(s) && LoopInv(s) && Enabled(s, e)
    ensures LoopIssuer(Step(s, e))
  {
    if e.Consume? { ConsumeKeepsIssuer(s); }
    else if |s.loops| == 1 { assert s.loops[0] in s.loops; }
  }

  lemma {:induction false} RunKeepsIssuer(nodes: map<string, Node>, root: RootCA, es: seq<Event>)
    requires Runs(Init(nodes, root), es)
    ensures LoopIssuer(Final(Init(nodes, root), es))
  {
    if es != [] {
      RunKeepsIssuer(nodes, root, es[..|es| - 1]);
      AtMostOneLoop(nodes, root, es[..|es| - 1]);
      StepKeepsIssuer(Final(Init(nodes, root), es[..|es| - 1]), es[|es| - 1]);
    }
  }

  /** When a loop that is not cancelled sees an empty set during the rotation that was begun, every
      stored node lacking its issuer still has an event in the queue; with no node events queued,
      every stored node has converged. */
  lemma SeenEmptyIsConverged(nodes: map<string, Node>, root: RootCA, es: seq<Event>, i: nat, id: string)
    requires (forall k :: k in nodes ==> nodes[k].id == k) && Runs(Init(nodes, root), es)
    requires var s := Final(Init(nodes, root), es);
             Enabled(s, SeeEmpty(i)) && s.rec.begun && !s.loops[i].cancelled
             && IssuerOf(s.loops[i].root).Some? && id in Lacking(s.nodes, IssuerOf(s.loops[i].root).value)
    ensures var s := Final(Init(nodes, root), es); id in s.nodes && LastFor(s.queue, id) == Some(NodeChange(s.nodes[id]))
  {
    var s := Final(Init(nodes, root), es);
    RunKeepsIssuer(nodes, root, es);
    InitInv(nodes, root);
    RunKeepsInv(Init(nodes, root), es);
    assert s.loops[i] in s.loops;
    assert Indexed(s, id);
    EmptyMeansQueued(s, id);
  }

  // ---- what stands behind a commit ----

  /** Step `m` consumed the root CA and started, or queued, a loop for it. */
  ghost predicate StartedAt(s0: State, es: seq<Event>, m: nat, root: RootCA) {
    && m < |es| && es[m] == Consume && Runs(s0, es[..m])
    && var p := Final(s0, es[..m]);
       p.queue != [] && p.queue[0].RootChange? && p.queue[0].root == root && StartsLoop(p.rec, root)
  }

  /** At step `k` this very loop looked, and the tracked map was empty or nil; no transaction failed
      since. */
  ghost predicate SeenAt(s0: State, es: seq<Event>, k: nat, l: Loop) {
    && k < |es| && es[k].SeeEmpty? && Runs(s0, es[..k])
    && (forall j :: k < j < |es| ==> !es[j].CommitFails?)
    && var p := Final(s0, es[..k]);
       && es[k].i < |p.loops| && p.loops[es[k].i].number == l.number && p.loops[es[k].i].root == l.root
       && (p.rec.tracked.Some? ==> p.rec.tracked.value == map[])
  }

  ghost predicate HasStart(s0: State, es: seq<Event>, root: RootCA) { exists m: nat :: StartedAt(s0, es, m, root) }

  ghost predicate HasSeen(s0: State, es: seq<Event>, l: Loop) { exists k: nat :: SeenAt(s0, es, k, l) }

  lemma StartGrows(s0: State, es: seq<Event>, root: RootCA)
    requires es != [] && HasStart(s0, es[..|es| - 1], root)
    ensures HasStart(s0, es, root)
  {
    var front := es[..|es| - 1];
    var m: nat :| StartedAt(s0, front, m, root);
    assert front[..m] == es[..m];
    assert StartedAt(s0, es, m, root);
  }

  lemma SeenGrows(s0: State, es: seq<Event>, l: Loop, l': Loop)
    requires es != [] && HasSeen(s0, es[..|es| - 1], l) && l'.number == l.number && l'.root == l.root
    requires !es[|es| - 1].CommitFails?
    ensures HasSeen(s0, es, l')
  {
    var front := es[..|es| - 1];
    var k: nat :| SeenAt(s0, front, k, l);
    assert front[..k] == es[..k];
    assert forall j :: k < j < |front| ==> es[j] == front[j];
    assert SeenAt(s0, es, k, l');
  }

  /** Loop `l'` after a step was loop `l` before it. */
  predicate SameLoop(s: State, e: Event, l: Loop, l': Loop) {
    && l in s.loops && l'.number == l.number && l'.root == l.root
    && (l'.sawEmpty ==> (l.sawEmpty && !e.CommitFails?) || (e.SeeEmpty? && e.i < |s.loops| && s.loops[e.i] == l))
  }

  /** The step starts the loop. */
  predicate NewLoop(s: State, e: Event, l': Loop) {
    && !l'.sawEmpty
    && (s.pending == Some(l'.root) ||
        (e == Consume && s.queue != [] && s.queue[0].RootChange? && s.queue[0].root == l'.root && StartsLoop(s.rec, l'.root)))
  }

  lemma LoopComes(s: State, e: Event, l': Loop)
    requires LoopInv(s) && Enabled(s, e) && l' in Step(s, e).loops
    ensures NewLoop(s, e, l') || (s.loops != [] && SameLoop(s, e, s.loops[0], l'))
  {
    if s.loops != [] { assert s.loops == [s.loops[0]]; }
  }

  lemma PendingComes(s: State, e: Event)
    requires Enabled(s, e) && Step(s, e).pending.Some?
    ensures s.pending == Step(s, e).pending ||
            (e == Consume && s.queue != [] && s.queue[0].RootChange? && Some(s.queue[0].root) == Step(s, e).pending
             && StartsLoop(s.rec, s.queue[0].root))
  {
  }

  /** Every loop of every run was started by a consumed root CA, and one that is about to commit has
      looked and seen an empty or nil map. */
  lemma {:induction false} LoopsHaveCauses(nodes: map<string, Node>, root: RootCA, es: seq<Event>)
    requires Runs(Init(nodes, root), es)
    ensures var s0 := Init(nodes, root);
            && (forall l :: l in Final(s0, es).loops ==> HasStart(s0, es, l.root) && (l.sawEmpty ==> HasSeen(s0, es, l)))
            && (Final(s0, es).pending.Some? ==> HasStart(s0, es, Final(s0, es).pending.value))
  {
    var s0 := Init(nodes, root);
    if es != [] {
      var front, e := es[..|es| - 1], es[|es| - 1];
      var s := Final(s0, front);
      LoopsHaveCauses(nodes, root, front);
      AtMostOneLoop(nodes, root, front);
      forall l' | l' in Final(s0, es).loops
        ensures HasStart(s0, es, l'.root) && (l'.sawEmpty ==> HasSeen(s0, es, l'))
      {
        LoopCause(s0, es, l');
      }
      if Final(s0, es).pending.Some? {
        PendingComes(s, e);
        if s.pending == Final(s0, es).pending { StartGrows(s0, es, s.pending.value); }
        else { assert StartedAt(s0, es, |es| - 1, Final(s0, es).pending.value); }
      }
    }
  }

  lemma LoopCause(s0: State, es: seq<Event>, l': Loop)
    requires es != [] && Runs(s0, es) && l' in Final(s0, es).loops && LoopInv(Final(s0, es[..|es| - 1]))
    requires var s, front := Final(s0, es[..|es| - 1]), es[..|es| - 1];
             && (forall l :: l in s.loops ==> HasStart(s0, front, l.root) && (l.sawEmpty ==> HasSeen(s0, front, l)))
             && (s.pending.Some? ==> HasStart(s0, front, s.pending.value))
    ensures HasStart(s0, es, l'.root) && (l'.sawEmpty ==> HasSeen(s0, es, l'))
  {
    var front, e := es[..|es| - 1], es[|es| - 1];
    var s := Final(s0, front);
    LoopComes(s, e, l');
    if NewLoop(s, e, l') {
      if s.pending == Some(l'.root) { StartGrows(s0, es, l'.root); }
      else { assert StartedAt(s0, es, |es| - 1, l'.root); }
    } else {
      var l := s.loops[0];
      assert l in s.loops;
      StartGrows(s0, es, l'.root);
      if l'.sawEmpty && l.sawEmpty && !e.CommitFails? { SeenGrows(s0, es, l, l'); }
      else if l'.sawEmpty { assert SeenAt(s0, es, |es| - 1, l'); }
    }
  }

  /** Every commit of every run that changes the stored root CA is that of a loop which a consumed root
      CA started, which is still the stored one up to the join tokens, and which looked before, saw an
      empty or nil map, and had no transaction fail since. It installs that rotation's certificate and
      key and keeps the wanted issuer. */
  lemma CommitHasCause(nodes: map<string, Node>, root: RootCA, es: seq<Event>, i: nat, hash: string, tokens: string)
    requires Runs(Init(nodes, root), es) && Enabled(Final(Init(nodes, root), es), Commit(i, hash, tokens))
    requires var s := Final(Init(nodes, root), es); Step(s, Commit(i, hash, tokens)).root != s.root
    ensures var s0 := Init(nodes, root);
            var s := Final(s0, es);
            var l, s' := s.loops[i], Step(s, Commit(i, hash, tokens));
            && HasStart(s0, es, l.root) && HasSeen(s0, es, l) && SameButTokens(l.root, s.root)
            && l.root.rotation.Some? && Installs(l.root.rotation.value, hash, tokens, s.root, s'.root)
            && IssuerOf(s'.root) == IssuerOf(l.root)
  {
    var s := Final(Init(nodes, root), es);
    LoopsHaveCauses(nodes, root, es);
    assert s.loops[i] in s.loops;
    CommitIsOwn(s, i, hash, tokens);
    StableMeansSame(s.loops[i].root, s.root);
  }

  // ---- who has converged when a rotation is finished ----

  predicate Writes(e: Event, id: string) { (e.PutNode? && e.node.id == id) || (e.DropNode? && e.id == id) }

  /** The last write of the node since step `k`. */
  function LastWrite(es: seq<Event>, k: nat, id: string): Option<Event> {
    if |es| <= k then None
    else if Writes(es[|es| - 1], id) then Some(es[|es| - 1])
    else LastWrite(es[..|es| - 1], k, id)
  }

  ghost predicate StoredAs(nodes: map<string, Node>, id: string, w: Event) {
    if w.PutNode? then id in nodes && nodes[id] == w.node else id !in nodes
  }

  lemma NodeStep(s: State, e: Event, id: string)
    requires Enabled(s, e)
    ensures Writes(e, id) ==> StoredAs(Step(s, e).nodes, id, e)
    ensures !Writes(e, id) ==>
              (id in Step(s, e).nodes <==> id in s.nodes) && (id in s.nodes ==> Step(s, e).nodes[id] == s.nodes[id])
  {
    match e
    case PutNode(_) =>
    case DropNode(_) =>
    case _ => assert Step(s, e).nodes == s.nodes;
  }

  lemma {:induction false} NodeSince(s0: State, es: seq<Event>, k: nat, id: string)
    requires Runs(s0, es) && k <= |es| && Runs(s0, es[..k])
    ensures var a, b, w := Final(s0, es[..k]).nodes, Final(s0, es).nodes, LastWrite(es, k, id);
            && (w.Some? ==> StoredAs(b, id, w.value))
            && (w.None? ==> (id in b <==> id in a) && (id in a ==> b[id] == a[id]))
    decreases |es|
  {
    if k == |es| {
      assert es[..k] == es;
    } else {
      var front := es[..|es| - 1];
      assert front[..k] == es[..k];
      NodeSince(s0, front, k, id);
      NodeStep(Final(s0, front), es[|es| - 1], id);
    }
  }

  /** The node as of its last write since step `k`, or else as of its last event queued at step `k`,
      lacks the issuer. */
  ghost predicate WrittenLacking(es: seq<Event>, k: nat, queue: seq<Change>, id: string, issuer: string) {
    match LastWrite(es, k, id)
    case Some(w) => w.PutNode? && w.node.tls != Some(issuer)
    case None =>
      var c := LastFor(queue, id);
      c.Some? && c.value.NodeChange? && c.value.node.tls != Some(issuer)
  }

  /** At the look of a loop that is not cancelled, in a rotation that was begun, a stored node lacks the
      issuer if and only if its last queued event does. */
  lemma AtTheLook(nodes: map<string, Node>, root: RootCA, es: seq<Event>, k: nat, l: Loop, id: string)
    requires (forall n :: n in nodes ==> nodes[n].id == n) && SeenAt(Init(nodes, root), es, k, l)
    requires var p := Final(Init(nodes, root), es[..k]); p.rec.begun && !p.loops[es[k].i].cancelled
    ensures var p := Final(Init(nodes, root), es[..k]);
            && IssuerOf(l.root).Some? && Agrees(p, id)
            && (LastFor(p.queue, id).None? ==> id !in Lacking(p.nodes, IssuerOf(l.root).value))
  {
    var front := es[..k];
    RunKeepsIssuer(nodes, root, front);
    AtMostOneLoop(nodes, root, front);
    InitInv(nodes, root);
    RunKeepsInv(Init(nodes, root), front);
    var p := Final(Init(nodes, root), front);
    assert p.loops[es[k].i] in p.loops;
    assert Agrees(p, id) && Indexed(p, id);
  }

  /** When a rotation that was begun is finished by a loop that was not cancelled when it looked, a
      stored node lacks the issuer if and only if its last write after the look lacks it, or there is
      none and its last event queued at the look lacks it. Every other node has converged. */
  lemma FinishedExactly(nodes: map<string, Node>, root: RootCA, es: seq<Event>, k: nat, i: nat,
                        hash: string, tokens: string, id: string)
    requires (forall n :: n in nodes ==> nodes[n].id == n) && Runs(Init(nodes, root), es)
    requires Enabled(Final(Init(nodes, root), es), Commit(i, hash, tokens))
    requires var s := Final(Init(nodes, root), es);
             RootEqualStable(s.loops[i].root, s.root) && SeenAt(Init(nodes, root), es, k, s.loops[i])
    requires var p := Final(Init(nodes, root), es[..k]); p.rec.begun && !p.loops[es[k].i].cancelled
    ensures var s' := Step(Final(Init(nodes, root), es), Commit(i, hash, tokens));
            && IssuerOf(s'.root).Some?
            && (id in Lacking(s'.nodes, IssuerOf(s'.root).value) <==>
                WrittenLacking(es, k, Final(Init(nodes, root), es[..k]).queue, id, IssuerOf(s'.root).value))
  {
    var s := Final(Init(nodes, root), es);
    AtTheLook(nodes, root, es, k, s.loops[i], id);
    NodeSince(Init(nodes, root), es, k, id);
    CommitIsOwn(s, i, hash, tokens);
  }

  /** The condition is needed: a node that comes between the look and the commit is missed. */
  lemma LateNodeIsMissed(n: Node, a: RootCA, hash: string, tokens: string) returns (es: seq<Event>, s: State)
    requires Startable(a) && n.tls != IssuerOf(a)
    ensures Reaches(Init(map[], a), es, s)
    ensures s.root == Finished(a, hash, tokens) && n.id in s.nodes && s.nodes[n.id] == n && n.tls != IssuerOf(s.root)
  {
    var s0 := Init(map[], a);
    es, s := FirstRoot(map[], a);
    assert s.rec.tracked == Some(map[]);
    es, s := Next(s0, es, s, SeeEmpty(0));
    es, s := Next(s0, es, s, PutNode(n));
    es, s := Next(s0, es, s, Commit(0, hash, tokens));
  }

  // ---- outside a begun rotation ----

  /** The loop of a rotation that is abandoned for a root without one keeps running, and sees nil. If the
      rotation is issued again before it commits, it finishes it although the node `n` lacks the issuer. */
  lemma ReissuedRotationFinishesEarly(n: Node, a: RootCA, b: RootCA, hash: string, tokens: string)
    returns (es: seq<Event>, s: State)
    requires Startable(a) && b.rotation.None? && IssuerOf(b).Some? && IssuerOf(b) != IssuerOf(a)
    requires n.tls != IssuerOf(a)
    ensures Reaches(Init(map[n.id := n], a), es, s)
    ensures s.root == Finished(a, hash, tokens) && s.nodes == map[n.id := n] && n.tls != IssuerOf(s.root)
  {
    var s0 := Init(map[n.id := n], a);
    es, s := FirstRoot(map[n.id := n], a);
    es, s := Next(s0, es, s, PutRoot(b));
    es, s := Next(s0, es, s, Consume);
    assert s.rec.tracked.None? && s.loops == [Loop(0, a, false, false)] && s.queue == [];
    es, s := Next(s0, es, s, SeeEmpty(0));
    es, s := Next(s0, es, s, PutRoot(a));
    es, s := Next(s0, es, s, Commit(0, hash, tokens));
  }
}
