/** Hand-over between the loops of successive rotations. */
module ReconcilerLoops {
  import opened Api
  import opened Reconciler

  /** At most one loop, none before the first cancel function exists, and while a new one waits the
      old one is cancelled. Every loop's root has a rotation that parses, and its number is past. */
  ghost predicate LoopInv(s: State) {
    && |s.loops| <= 1
    && (!s.hasCancel ==> s.loops == [] && s.pending.None?)
    && (s.pending.Some? ==> forall l :: l in s.loops ==> l.cancelled)
    && (forall l :: l in s.loops ==> Startable(l.root) && l.number < s.started)
    && (s.pending.Some? ==> Startable(s.pending.value))
  }

  predicate Startable(root: RootCA) { root.rotation.Some? && IssuerOf(root).Some? }

  lemma StepKeepsLoopInv(s: State, e: Event)
    requires LoopInv(s) && Enabled(s, e)
    ensures LoopInv(Step(s, e))
  {
    if e.Consume? {
      ConsumeKeepsLoopInv(s);
    } else if |s.loops| == 1 {
      assert s.loops[0] in s.loops;
    }
  }

  lemma ConsumeKeepsLoopInv(s: State)
    requires LoopInv(s) && Enabled(s, Consume)
    ensures LoopInv(Consumed(s))
  {
    if s.queue[0].RootChange? && StartsLoop(s.rec, s.queue[0].root) {
      if s.hasCancel && s.loops != [] { assert s.loops[0] in s.loops; }
    }
  }

  /** In every run at most one loop is live, whatever the order of updates, waits and exits. */
  lemma {:induction false} AtMostOneLoop(nodes: map<string, Node>, root: RootCA, es: seq<Event>)
    requires Runs(Init(nodes, root), es)
    ensures LoopInv(Final(Init(nodes, root), es)) && |Final(Init(nodes, root), es).loops| <= 1
  {
    if es != [] {
      AtMostOneLoop(nodes, root, es[..|es| - 1]);
      StepKeepsLoopInv(Final(Init(nodes, root), es[..|es| - 1]), es[|es| - 1]);
    }
  }

  // ---- what a commit does ----

  lemma SameIssuer(root: RootCA, hash: string, tokens: string)
    requires root.rotation.Some?
    ensures IssuerOf(Finished(root, hash, tokens)) == IssuerOf(root)
  {
  }

  lemma StableIssuer(a: RootCA, b: RootCA)
    requires RootEqualStable(a, b)
    ensures IssuerOf(a) == IssuerOf(b) && a.rotation == b.rotation
  {
    assert a.(tokens := "").rotation == a.rotation && b.(tokens := "").rotation == b.rotation;
    assert a.(tokens := "").cert == a.cert && b.(tokens := "").cert == b.cert;
  }

  /** The rotation's certificate and key replace those of the root CA, with the digest and the join tokens
      made for it; the count of forced rotations stays and no rotation is left. */
  predicate Installs(r: Rotation, hash: string, tokens: string, before: RootCA, after: RootCA) {
    && after.cert == r.cert && after.key == r.key && after.hash == hash && after.tokens == tokens
    && after.rotation.None? && after.forced == before.forced
  }

  /** The same but for the join tokens. */
  predicate SameButTokens(a: RootCA, b: RootCA) { b == a.(tokens := b.tokens) }

  lemma StableMeansSame(a: RootCA, b: RootCA)
    ensures RootEqualStable(a, b) <==> SameButTokens(a, b)
  {
    assert a.(tokens := "").(tokens := b.tokens) == a.(tokens := b.tokens);
    assert b.(tokens := "").(tokens := b.tokens) == b;
  }

  /** A loop changes the stored root CA only if it has seen an empty set and the stored one is still
      its own up to the join tokens; then it installs its own rotation's certificate, keeps the
      wanted issuer, and ends. Otherwise it ends and changes nothing. */
  lemma CommitIsOwn(s: State, i: nat, hash: string, tokens: string)
    requires Enabled(s, Commit(i, hash, tokens))
    ensures var s', l := Step(s, Commit(i, hash, tokens)), s.loops[i];
            && l.sawEmpty && |s'.loops| == |s.loops| - 1 && s'.nodes == s.nodes && s'.rec == s.rec
            && (if RootEqualStable(l.root, s.root)
                then l.root.rotation.Some? && Installs(l.root.rotation.value, hash, tokens, s.root, s'.root)
                     && IssuerOf(s'.root) == IssuerOf(l.root)
                else s'.root == s.root && s'.queue == s.queue)
  {
    if RootEqualStable(s.loops[i].root, s.root) {
      StableIssuer(s.loops[i].root, s.root);
      SameIssuer(s.root, hash, tokens);
    }
  }

  // ---- the event of a commit ----

  /** The issuer the reconciler will have after the root events of the queue. */
  function IssuerAfter(issuer: Option<string>, q: seq<Change>): Option<string> {
    if q == [] then issuer
    else
      var before, c := IssuerAfter(issuer, q[..|q| - 1]), q[|q| - 1];
      if c.RootChange? && IssuerOf(c.root).Some? then IssuerOf(c.root) else before
  }

  lemma IssuerAfterAppend(issuer: Option<string>, q: seq<Change>, c: Change)
    ensures IssuerAfter(issuer, q + [c])
         == if c.RootChange? && IssuerOf(c.root).Some? then IssuerOf(c.root) else IssuerAfter(issuer, q)
  {
    assert (q + [c])[..|q|] == q;
  }

  lemma {:induction false} IssuerAfterRest(issuer: Option<string>, q: seq<Change>)
    requires q != []
    ensures IssuerAfter(issuer, q) == IssuerAfter(IssuerAfter(issuer, [q[0]]), q[1..])
    decreases |q|
  {
    if |q| == 1 {
      assert q == [q[0]];
    } else {
      var front := q[..|q| - 1];
      IssuerAfterRest(issuer, front);
      assert front[1..] == q[1..][..|q[1..]| - 1];
    }
  }

  lemma RootUpdatedIssuer(r: Rec, root: RootCA, own: bool, nodes: map<string, Node>)
    ensures RootUpdated(r, root, nodes).issuer == IssuerAfter(r.issuer, [RootChange(root, own)])
  {
    assert [RootChange(root, own)][..0] == [];
    assert IssuerAfter(r.issuer, []) == r.issuer;
  }

  /** When the event of a loop's commit comes up, the reconciler already has its issuer. */
  ghost predicate OwnIsKnown(issuer: Option<string>, q: seq<Change>, k: nat)
    requires k < |q|
  {
    q[k].RootChange? && q[k].own ==> IssuerOf(q[k].root).Some? && IssuerAfter(issuer, q[..k]) == IssuerOf(q[k].root)
  }

  ghost predicate QueueInv(s: State) {
    && (IssuerOf(s.root).Some? ==> IssuerAfter(s.rec.issuer, s.queue) == IssuerOf(s.root))
    && forall k :: 0 <= k < |s.queue| ==> OwnIsKnown(s.rec.issuer, s.queue, k)
  }

  lemma AppendKeeps(s: State, c: Change, s': State)
    requires QueueInv(s) && s'.rec == s.rec && s'.queue == s.queue + [c]
    requires if c.RootChange? then s'.root == c.root else s'.root == s.root
    requires c.RootChange? && c.own ==> IssuerOf(c.root).Some? && IssuerOf(c.root) == IssuerOf(s.root)
    ensures QueueInv(s')
  {
    IssuerAfterAppend(s.rec.issuer, s.queue, c);
    forall k | 0 <= k < |s'.queue| ensures OwnIsKnown(s'.rec.issuer, s'.queue, k) {
      assert s'.queue[..k] == s.queue[..k];
      if k < |s.queue| { assert OwnIsKnown(s.rec.issuer, s.queue, k); }
      else { assert s.queue[..k] == s.queue; }
    }
  }

  lemma ConsumedIssuer(s: State)
    requires s.queue != []
    ensures Consumed(s).rec.issuer == IssuerAfter(s.rec.issuer, [s.queue[0]])
    ensures Consumed(s).queue == s.queue[1..] && Consumed(s).root == s.root
  {
    assert [s.queue[0]][..0] == [];
    assert IssuerAfter(s.rec.issuer, []) == s.rec.issuer;
    if s.queue[0].RootChange? { RootUpdatedIssuer(s.rec, s.queue[0].root, s.queue[0].own, s.nodes); }
  }

  lemma ConsumeKeeps(s: State)
    requires QueueInv(s) && s.queue != []
    ensures QueueInv(Consumed(s))
  {
    var s' := Consumed(s);
    ConsumedIssuer(s);
    IssuerAfterRest(s.rec.issuer, s.queue);
    forall k | 0 <= k < |s'.queue| ensures OwnIsKnown(s'.rec.issuer, s'.queue, k) {
      assert OwnIsKnown(s.rec.issuer, s.queue, k + 1);
      var q := s.queue[..k + 1];
      IssuerAfterRest(s.rec.issuer, q);
      assert q[1..] == s'.queue[..k] && q[0] == s.queue[0];
    }
  }

  lemma StepKeepsQueueInv(s: State, e: Event)
    requires QueueInv(s) && LoopInv(s) && Enabled(s, e)
    ensures QueueInv(Step(s, e))
  {
    match e
    case PutNode(n) => AppendKeeps(s, NodeChange(n), Step(s, e));
    case DropNode(id) => AppendKeeps(s, NodeGone(s.nodes[id]), Step(s, e));
    case PutRoot(root) => AppendKeeps(s, RootChange(root, false), Step(s, e));
    case Consume => ConsumeKeeps(s);
    case Commit(i, hash, tokens) => CommitKeepsQueueInv(s, i, hash, tokens);
    case _ => SameQueue(s, Step(s, e));
  }

  lemma SameQueue(s: State, s': State)
    requires QueueInv(s) && s'.queue == s.queue && s'.rec == s.rec && s'.root == s.root
    ensures QueueInv(s')
  {
    forall k | 0 <= k < |s'.queue| ensures OwnIsKnown(s'.rec.issuer, s'.queue, k) {
      assert OwnIsKnown(s.rec.issuer, s.queue, k);
    }
  }

  lemma CommitKeepsQueueInv(s: State, i: nat, hash: string, tokens: string)
    requires QueueInv(s) && LoopInv(s) && Enabled(s, Commit(i, hash, tokens))
    ensures QueueInv(Step(s, Commit(i, hash, tokens)))
  {
    var l, s' := s.loops[i], Step(s, Commit(i, hash, tokens));
    assert l in s.loops;
    if RootEqualStable(l.root, s.root) {
      StableIssuer(l.root, s.root);
      SameIssuer(s.root, hash, tokens);
      AppendKeeps(s, RootChange(s'.root, true), s');
    } else {
      SameQueue(s, s');
    }
  }

  lemma {:induction false} RunKeepsQueueInv(nodes: map<string, Node>, root: RootCA, es: seq<Event>)
    requires Runs(Init(nodes, root), es)
    ensures QueueInv(Final(Init(nodes, root), es))
  {
    var s0 := Init(nodes, root);
    if es == [] {
      IssuerAfterAppend(None, [], RootChange(root, false));
      assert [] + [RootChange(root, false)] == [RootChange(root, false)];
    } else {
      RunKeepsQueueInv(nodes, root, es[..|es| - 1]);
      AtMostOneLoop(nodes, root, es[..|es| - 1]);
      StepKeepsQueueInv(Final(s0, es[..|es| - 1]), es[|es| - 1]);
    }
  }

  /** The event of a loop's own commit never starts another loop, whatever else is queued. */
  lemma OwnCommitStartsNoLoop(nodes: map<string, Node>, root: RootCA, es: seq<Event>)
    requires Runs(Init(nodes, root), es) && Enabled(Final(Init(nodes, root), es), Consume)
    requires var c := Final(Init(nodes, root), es).queue[0]; c.RootChange? && c.own
    ensures var s := Final(Init(nodes, root), es);
            Consumed(s).loops == s.loops && Consumed(s).pending == s.pending
  {
    RunKeepsQueueInv(nodes, root, es);
    var s := Final(Init(nodes, root), es);
    assert OwnIsKnown(s.rec.issuer, s.queue, 0);
    assert s.queue[..0] == [];
  }
}
