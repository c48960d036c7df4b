/**
 The root rotation reconciler (ca/reconciler.go): an index of the nodes whose certificate does not
 have the wanted issuer, kept up to date from store events, and the loop that finishes a rotation.
 */
module Reconciler {
  import opened Api

  /** A certificate bundle, with the issuer its first certificate parses to, if it parses. */
  datatype Cert = Cert(pem: string, issuer: Option<string>)

  datatype Rotation = Rotation(cert: Cert, key: string, crossSigned: string)
  datatype RootCA = RootCA(cert: Cert, key: string, hash: string, rotation: Option<Rotation>, tokens: string, forced: nat)

  datatype Issuance = Unknown | Renew | Pending | Issued | Failed | Rotate
  datatype Node = Node(id: string, tls: Option<string>, state: Issuance, rest: string)

  const MAX_BATCH := 30

  /** `hasIssuer`. */
  predicate HasIssuer(n: Node, issuer: string) { n.tls == Some(issuer) }

  /** `IssuerFromAPIRootCA`: the issuer wanted by a root CA. */
  function IssuerOf(root: RootCA): Option<string> {
    if root.rotation.Some? then root.rotation.value.cert.issuer else root.cert.issuer
  }

  /** `RootCAEqualStable`: equal up to the join tokens. */
  predicate RootEqualStable(a: RootCA, b: RootCA) { a.(tokens := "") == b.(tokens := "") }

  /** `finishRootRotation`, with the digest and tokens it generates. */
  function Finished(root: RootCA, hash: string, tokens: string): RootCA
    requires root.rotation.Some?
  {
    RootCA(root.rotation.value.cert, root.rotation.value.key, hash, None, tokens, root.forced)
  }

  /** The stored nodes that lack the issuer. */
  function Lacking(nodes: map<string, Node>, issuer: string): map<string, Node> {
    map id | id in nodes && nodes[id].tls != Some(issuer) :: nodes[id]
  }

  /** The fields of the reconciler. `tracked` is None while the source's map is nil. Two are not
      fields but history: `begun` says that the current rotation was entered by a change of issuer,
      and `ignored` holds the nodes whose last event came while there was a map but no rotation. */
  datatype Rec = Rec(
    current: Option<RootCA>, issuer: Option<string>, tracked: Option<map<string, Node>>,
    begun: bool, ignored: map<string, Node>)

  const NEW_REC := Rec(None, None, None, false, map[])

  /** Whether `UpdateRootCA` starts a loop. */
  predicate StartsLoop(r: Rec, root: RootCA) {
    IssuerOf(root).Some? && r.issuer != IssuerOf(root) && root.rotation.Some?
  }

  function RootUpdated(r: Rec, root: RootCA, nodes: map<string, Node>): Rec {
    match IssuerOf(root)
    case None => r
    case Some(issuer) =>
      if r.issuer == Some(issuer) then r.(current := Some(root), begun := r.begun && root.rotation.Some?)
      else if root.rotation.Some? then Rec(Some(root), Some(issuer), Some(Lacking(nodes, issuer)), true, map[])
      else Rec(Some(root), Some(issuer), None, false, map[])
  }

  predicate Rotating(r: Rec) { r.current.Some? && r.current.value.rotation.Some? }

  /** `UpdateNode`; None is the write to a nil map. */
  function NodeUpdated(r: Rec, n: Node): Option<Rec> {
    if !Rotating(r) then Some(if r.tracked.Some? then r.(ignored := r.ignored[n.id := n]) else r)
    else if r.issuer.Some? && HasIssuer(n, r.issuer.value) then Some(NodeDeleted(r, n))
    else if r.tracked.Some? then
      Some(r.(tracked := Some(r.tracked.value[n.id := n]), ignored := r.ignored - {n.id}))
    else None
  }

  function NodeDeleted(r: Rec, n: Node): Rec {
    if r.tracked.Some? then r.(tracked := Some(r.tracked.value - {n.id}), ignored := r.ignored - {n.id}) else r
  }

  // ---- the reconciler, the store and its event queue ----

  /** `own` marks the event of a loop's own commit. */
  datatype Change = NodeChange(node: Node) | NodeGone(node: Node) | RootChange(root: RootCA, own: bool)

  /** A loop, by its number: its root CA, whether its context is cancelled, and whether it has just
      seen an empty set. */
  datatype Loop = Loop(number: nat, root: RootCA, cancelled: bool, sawEmpty: bool)

  /** `started` counts the loops; `pending` is the loop that waits for the previous one; the server's goroutine waits with it. */
  datatype State = State(
    nodes: map<string, Node>, root: RootCA, queue: seq<Change>,
    rec: Rec, crashed: bool,
    loops: seq<Loop>, started: nat, hasCancel: bool, pending: Option<RootCA>)

  function Init(nodes: map<string, Node>, root: RootCA): State {
    State(nodes, root, [RootChange(root, false)], NEW_REC, false, [], 0, false, None)
  }

  datatype Event =
    | PutNode(node: Node)
    | DropNode(id: string)
    | PutRoot(newRoot: RootCA)
    | Consume
    | StartPending
    | SeeEmpty(i: nat)
    | Commit(i: nat, hash: string, tokens: string)
    | CommitFails(i: nat)
    | Exit(i: nat)

  predicate Enabled(s: State, e: Event) {
    match e
    case PutNode(n) => true
    case DropNode(id) => id in s.nodes && s.nodes[id].id == id
    case PutRoot(_) => true
    case Consume => s.queue != [] && s.pending.None? && !s.crashed
    case StartPending => s.pending.Some? && s.loops == []
    case SeeEmpty(i) => i < |s.loops| && !s.loops[i].sawEmpty && (s.rec.tracked.Some? ==> s.rec.tracked.value == map[])
    case Commit(i, _, _) =>
      i < |s.loops| && s.loops[i].sawEmpty && (RootEqualStable(s.loops[i].root, s.root) ==> s.root.rotation.Some?)
    case CommitFails(i) => i < |s.loops| && s.loops[i].sawEmpty
    case Exit(i) => i < |s.loops| && s.loops[i].cancelled
  }

  function Cancelled(loops: seq<Loop>): seq<Loop> {
    if loops == [] then [] else loops[..|loops| - 1] + [loops[|loops| - 1].(cancelled := true)]
  }

  function WithLoop(s: State, root: RootCA): State {
    if s.hasCancel then s.(loops := Cancelled(s.loops), pending := Some(root))
    else s.(loops := s.loops + [Loop(s.started, root, false, false)], started := s.started + 1, hasCancel := true)
  }

  function Consumed(s: State): State
    requires s.queue != []
  {
    var s1 := s.(queue := s.queue[1..]);
    match s.queue[0]
    case NodeChange(n) =>
      (match NodeUpdated(s.rec, n) case Some(r) => s1.(rec := r) case None => s1.(crashed := true))
    case NodeGone(n) => s1.(rec := NodeDeleted(s.rec, n))
    case RootChange(root, _) =>
      var s2 := s1.(rec := RootUpdated(s.rec, root, s.nodes));
      if StartsLoop(s.rec, root) then WithLoop(s2, root) else s2
  }

  function Without(loops: seq<Loop>, i: nat): seq<Loop>
    requires i < |loops|
  {
    loops[..i] + loops[i + 1..]
  }

  /** The transaction of a loop: it finishes the stored rotation if that is still its own. */
  function Committed(s: State, i: nat, hash: string, tokens: string): State
    requires Enabled(s, Commit(i, hash, tokens))
  {
    var s1 := s.(loops := Without(s.loops, i));
    if RootEqualStable(s.loops[i].root, s.root) then
      var root := Finished(s.root, hash, tokens);
      s1.(root := root, queue := s.queue + [RootChange(root, true)])
    else s1
  }

  function Step(s: State, e: Event): State
    requires Enabled(s, e)
  {
    match e
    case PutNode(n) => s.(nodes := s.nodes[n.id := n], queue := s.queue + [NodeChange(n)])
    case DropNode(id) => s.(nodes := s.nodes - {id}, queue := s.queue + [NodeGone(s.nodes[id])])
    case PutRoot(root) => s.(root := root, queue := s.queue + [RootChange(root, false)])
    case Consume => Consumed(s)
    case StartPending =>
      s.(loops := [Loop(s.started, s.pending.value, false, false)], started := s.started + 1, pending := None)
    case SeeEmpty(i) => s.(loops := s.loops[i := s.loops[i].(sawEmpty := true)])
    case Commit(i, hash, tokens) => Committed(s, i, hash, tokens)
    case CommitFails(i) => s.(loops := s.loops[i := s.loops[i].(sawEmpty := false)])
    case Exit(i) => s.(loops := Without(s.loops, i))
  }

  predicate Runs(s: State, es: seq<Event>)
    decreases |es|, 0
  {
    es == [] || (Runs(s, es[..|es| - 1]) && Enabled(Final(s, es[..|es| - 1]), es[|es| - 1]))
  }

  function Final(s: State, es: seq<Event>): State
    requires Runs(s, es)
    decreases |es|, 1
  {
    if es == [] then s else Step(Final(s, es[..|es| - 1]), es[|es| - 1])
  }
}
