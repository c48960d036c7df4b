/** A begun rotation has a loop, and exactly when that loop can still finish it. */
module ReconcilerProgress {
  import opened Api
  import opened Reconciler
  import opened ReconcilerIndex
  import opened ReconcilerLoops
  import opened ReconcilerFinish

  /** A loop that is not cancelled works for the current issuer, or one waits to be started for it. */
  ghost predicate Served(s: State) {
    || (exists l :: l in s.loops && !l.cancelled && IssuerOf(l.root) == s.rec.issuer)
    || (s.pending.Some? && IssuerOf(s.pending.value) == s.rec.issuer)
  }

  /** The event begins a rotation: a root CA with another issuer and a rotation is consumed. */
  predicate Begins(s: State, e: Event) {
    e == Consume && s.queue != [] && s.queue[0].RootChange? && StartsLoop(s.rec, s.queue[0].root)
  }

  /** The transaction of a loop that is not cancelled. */
  predicate OwnCommit(s: State, e: Event) { e.Commit? && e.i < |s.loops| && !s.loops[e.i].cancelled }

  /** Since the event that began the current rotation, its loop has ended with a transaction. */
  ghost predicate Ended(s0: State, es: seq<Event>)
    requires Runs(s0, es)
    decreases |es|
  {
    && es != []
    && var n := |es| - 1;
       var p := Final(s0, es[..n]);
       !Begins(p, es[n]) && (OwnCommit(p, es[n]) || Ended(s0, es[..n]))
  }

  lemma OneLoop(s: State)
    requires LoopInv(s)
    ensures s.loops != [] ==> s.loops == [s.loops[0]]
    ensures Served(s) <==> || (s.loops != [] && !s.loops[0].cancelled && IssuerOf(s.loops[0].root) == s.rec.issuer)
                           || (s.pending.Some? && IssuerOf(s.pending.value) == s.rec.issuer)
  {
  }

  lemma BeginServes(s: State)
    requires LoopInv(s) && Enabled(s, Consume) && Begins(s, Consume)
    ensures Served(Consumed(s)) && Consumed(s).rec.begun
  {
    var s' := Consumed(s);
    if !s.hasCancel { assert Loop(s.started, s.queue[0].root, false, false) in s'.loops; }
  }

  lemma ConsumeServes(s: State)
    requires LoopInv(s) && Enabled(s, Consume) && !Begins(s, Consume)
    requires s.rec.begun ==> Served(s)
    ensures Consumed(s).rec.begun ==> Served(Consumed(s))
  {
    var s' := Consumed(s);
    assert s'.loops == s.loops && s'.pending == s.pending;
    assert s'.rec.begun ==> s.rec.begun && s'.rec.issuer == s.rec.issuer;
  }

  lemma LoopServes(s: State, e: Event)
    requires LoopInv(s) && Enabled(s, e) && e != Consume && !OwnCommit(s, e) && Served(s)
    ensures Served(Step(s, e))
  {
    OneLoop(s);
    StepKeepsLoopInv(s, e);
    OneLoop(Step(s, e));
  }

  lemma StepServes(s: State, e: Event)
    requires LoopInv(s) && Enabled(s, e) && (s.rec.begun ==> Served(s)) && !OwnCommit(s, e)
    ensures Step(s, e).rec.begun ==> Served(Step(s, e))
  {
    if e == Consume {
      if Begins(s, e) { BeginServes(s); } else { ConsumeServes(s); }
    } else {
      assert Step(s, e).rec == s.rec;
      if s.rec.begun { LoopServes(s, e); }
    }
  }

  /** In every run, a rotation that was begun and whose loop has not ended with a transaction has a
      loop: one that is not cancelled and has its issuer, or one that waits for the previous to end. */
  lemma {:induction false} BegunIsServed(nodes: map<string, Node>, root: RootCA, es: seq<Event>)
    requires Runs(Init(nodes, root), es) && Final(Init(nodes, root), es).rec.begun && !Ended(Init(nodes, root), es)
    ensures Served(Final(Init(nodes, root), es))
    decreases |es|
  {
    var s0, n := Init(nodes, root), |es| - 1;
    var p := Final(s0, es[..n]);
    AtMostOneLoop(nodes, root, es[..n]);
    if Begins(p, es[n]) {
      BeginServes(p);
    } else {
      if p.rec.begun { BegunIsServed(nodes, root, es[..n]); }
      StepServes(p, es[n]);
    }
  }

  // ---- exactly when the rotation can still be finished ----

  /** A move of the reconciler and its loops, not of the store's other writers. */
  predicate OwnMove(e: Event) { !e.PutNode? && !e.DropNode? && !e.PutRoot? }

  /** A live or waiting loop works on the stored root CA, up to the join tokens. */
  ghost predicate Able(s: State) {
    || (exists l :: l in s.loops && SameButTokens(l.root, s.root))
    || (s.pending.Some? && SameButTokens(s.pending.value, s.root))
  }

  /** Nothing is left to converge and nothing is queued. */
  predicate AllConverged(s: State) { s.queue == [] && (s.rec.tracked.Some? ==> s.rec.tracked.value == map[]) }

  lemma LoopFinishes(s0: State, es0: seq<Event>, s1: State, hash: string, tokens: string) returns (es: seq<Event>, s: State)
    requires Reaches(s0, es0, s1) && AllConverged(s1) && s1.loops != [] && SameButTokens(s1.loops[0].root, s1.root)
    requires s1.root.rotation.Some? && OwnMoves(es0)
    ensures Reaches(s0, es, s) && OwnMoves(es) && s.root == Finished(s1.root, hash, tokens)
  {
    es, s := es0, s1;
    StableMeansSame(s1.loops[0].root, s1.root);
    if !s1.loops[0].sawEmpty { es, s := OwnNext(s0, es, s, SeeEmpty(0)); }
    es, s := OwnNext(s0, es, s, Commit(0, hash, tokens));
  }

  ghost predicate OwnMoves(es: seq<Event>) { forall i :: 0 <= i < |es| ==> OwnMove(es[i]) }

  lemma OwnNext(s0: State, es: seq<Event>, s: State, e: Event) returns (es': seq<Event>, s': State)
    requires Reaches(s0, es, s) && Enabled(s, e) && OwnMove(e) && OwnMoves(es)
    ensures Reaches(s0, es', s') && s' == Step(s, e) && OwnMoves(es')
  {
    es', s' := es + [e], Step(s, e);
    assert es'[..|es|] == es;
  }

  lemma CanFinish(s1: State, hash: string, tokens: string) returns (es: seq<Event>, s: State)
    requires LoopInv(s1) && AllConverged(s1) && Able(s1) && s1.root.rotation.Some?
    ensures Reaches(s1, es, s) && OwnMoves(es) && s.root == Finished(s1.root, hash, tokens)
  {
    es, s := [], s1;
    OneLoop(s1);
    if s1.loops == [] || !SameButTokens(s1.loops[0].root, s1.root) {
      if s1.loops != [] {
        assert s1.loops[0] in s1.loops;
        es, s := OwnNext(s1, es, s, Exit(0));
      }
      es, s := OwnNext(s1, es, s, StartPending);
    }
    es, s := LoopFinishes(s1, es, s, hash, tokens);
  }

  /** No loop works on the stored root CA and nothing is queued that would start one. */
  ghost predicate Stuck(s: State, root: RootCA) { s.queue == [] && s.root == root && !Able(s) }

  lemma StuckStep(s: State, e: Event)
    requires Stuck(s, s.root) && LoopInv(s) && Enabled(s, e) && OwnMove(e)
    ensures Stuck(Step(s, e), s.root)
  {
    if s.loops != [] {
      assert s.loops[0] in s.loops;
      assert s.loops == [s.loops[0]];
      StableMeansSame(s.loops[0].root, s.root);
    }
  }

  lemma {:induction false} StuckStays(s: State, later: seq<Event>)
    requires Stuck(s, s.root) && LoopInv(s) && Runs(s, later) && OwnMoves(later)
    ensures Stuck(Final(s, later), s.root) && LoopInv(Final(s, later))
    decreases |later|
  {
    if later != [] {
      var front, e := later[..|later| - 1], later[|later| - 1];
      StuckStays(s, front);
      StuckStep(Final(s, front), e);
      StepKeepsLoopInv(Final(s, front), e);
    }
  }

  ghost predicate Finishes(s: State, later: seq<Event>, hash: string, tokens: string)
    requires s.root.rotation.Some?
  {
    OwnMoves(later) && Runs(s, later) && Final(s, later).root == Finished(s.root, hash, tokens)
  }

  /** In every run, once all nodes have converged and nothing is queued, the reconciler's own moves can
      finish the stored rotation if and only if a live or waiting loop works on the stored root CA, up
      to the join tokens. */
  lemma FinishesExactly(nodes: map<string, Node>, root: RootCA, es: seq<Event>, hash: string, tokens: string)
    requires Runs(Init(nodes, root), es)
    requires var s := Final(Init(nodes, root), es); AllConverged(s) && s.root.rotation.Some?
    ensures var s := Final(Init(nodes, root), es);
            (exists later :: Finishes(s, later, hash, tokens)) <==> Able(s)
  {
    var s := Final(Init(nodes, root), es);
    AtMostOneLoop(nodes, root, es);
    if Able(s) {
      var later, s' := CanFinish(s, hash, tokens);
      assert Finishes(s, later, hash, tokens);
    } else {
      forall later | OwnMoves(later) && Runs(s, later) ensures Final(s, later).root == s.root { StuckStays(s, later); }
    }
  }

  /** The loop of a begun rotation finishes it if the stored root CA is the one the loop was started with,
      up to the join tokens: whatever loops of earlier rotations are still around. */
  lemma BegunFinishes(nodes: map<string, Node>, root: RootCA, es: seq<Event>, hash: string, tokens: string)
    returns (later: seq<Event>)
    requires Runs(Init(nodes, root), es) && !Ended(Init(nodes, root), es)
    requires var s := Final(Init(nodes, root), es);
             && s.rec.begun && AllConverged(s) && s.root.rotation.Some?
             && (forall l :: l in s.loops && !l.cancelled ==> SameButTokens(l.root, s.root))
             && (s.pending.Some? ==> SameButTokens(s.pending.value, s.root))
    ensures Finishes(Final(Init(nodes, root), es), later, hash, tokens)
  {
    var s := Final(Init(nodes, root), es);
    BegunIsServed(nodes, root, es);
    AtMostOneLoop(nodes, root, es);
    var s';
    later, s' := CanFinish(s, hash, tokens);
  }

  ghost predicate NoCommits(es: seq<Event>) { forall i :: 0 <= i < |es| ==> !es[i].Commit? }

  lemma {:induction false} NotEnded(s0: State, es: seq<Event>)
    requires Runs(s0, es) && NoCommits(es)
    ensures !Ended(s0, es)
    decreases |es|
  {
    if es != [] { NotEnded(s0, es[..|es| - 1]); }
  }

  lemma QuietNext(s0: State, es: seq<Event>, s: State, e: Event) returns (es': seq<Event>, s': State)
    requires Reaches(s0, es, s) && Enabled(s, e) && !e.Commit? && NoCommits(es)
    ensures Reaches(s0, es', s') && s' == Step(s, e) && NoCommits(es')
  {
    es', s' := es + [e], Step(s, e);
    assert es'[..|es|] == es;
  }

  lemma StrandedRun(a: RootCA, b: RootCA) returns (es: seq<Event>, s: State)
    requires Startable(a) && Startable(b) && IssuerOf(b) == IssuerOf(a)
    ensures Reaches(Init(map[], a), es, s) && NoCommits(es)
    ensures s.rec.begun && s.queue == [] && s.rec.tracked == Some(map[]) && s.root == b
    ensures s.loops == [Loop(0, a, false, false)] && s.pending.None?
  {
    var s0 := Init(map[], a);
    es, s := QuietNext(s0, [], s0, Consume);
    assert s.rec.tracked == Some(map[]);
    es, s := QuietNext(s0, es, s, PutRoot(b));
    es, s := QuietNext(s0, es, s, Consume);
  }

  /** A root CA that keeps the issuer but differs otherwise strands the rotation: the loop keeps the root
      CA it was started with, no other loop is started, and the reconciler can never finish. */
  lemma SameIssuerUpdateStrands(a: RootCA, b: RootCA, hash: string, tokens: string) returns (es: seq<Event>, s: State)
    requires Startable(a) && Startable(b) && IssuerOf(b) == IssuerOf(a) && !SameButTokens(a, b)
    ensures Reaches(Init(map[], a), es, s) && s.rec.begun && !Ended(Init(map[], a), es) && AllConverged(s) && s.root == b
    ensures !Able(s) && forall later :: !Finishes(s, later, hash, tokens)
  {
    es, s := StrandedRun(a, b);
    NotEnded(Init(map[], a), es);
    FinishesExactly(map[], a, es, hash, tokens);
  }
}
