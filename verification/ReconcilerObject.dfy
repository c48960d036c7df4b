/** The reconciler's fields and methods. */
module ReconcilerObject {
  import opened Api
  import opened Reconciler

  class RootRotationReconciler {
    var currentRootCA: Option<RootCA>
    var currentIssuer: Option<string>
    var unconvergedNodes: Option<map<string, Node>>
    ghost var begun: bool
    ghost var ignored: map<string, Node>

    ghost function View(): Rec
      reads this
    {
      Rec(currentRootCA, currentIssuer, unconvergedNodes, begun, ignored)
    }

    constructor ()
      ensures View() == NEW_REC
    {
      currentRootCA, currentIssuer, unconvergedNodes, begun, ignored := None, None, None, false, map[];
    }

    /** `nodes` is the view of the store at this moment; the result says whether to start a loop. */
    method UpdateRootCA(root: RootCA, nodes: map<string, Node>) returns (starts: bool)
      modifies this
      ensures View() == RootUpdated(old(View()), root, nodes)
      ensures starts <==> StartsLoop(old(View()), root)
    {
      var wanted := root.cert.issuer;
      if root.rotation.Some? { wanted := root.rotation.value.cert.issuer; }
      if wanted.None? { return false; }
      if currentIssuer == wanted {
        currentRootCA := Some(root);
        begun := begun && root.rotation.Some?;
        return false;
      }
      if root.rotation.Some? {
        var lacking := map[];
        var todo := nodes.Keys;
        while todo != {}
          invariant todo <= nodes.Keys
          invariant lacking == map id | id in Lacking(nodes, wanted.value) && id !in todo :: nodes[id]
          decreases |todo|
        {
          var id :| id in todo;
          todo := todo - {id};
          if !HasIssuer(nodes[id], wanted.value) { lacking := lacking[id := nodes[id]]; }
        }
        assert lacking == Lacking(nodes, wanted.value);
        unconvergedNodes := Some(lacking);
        starts := true;
      } else {
        unconvergedNodes := None;
        starts := false;
      }
      begun, ignored := starts, map[];
      currentRootCA, currentIssuer := Some(root), wanted;
    }

    /** `ok` is false where the source writes to a nil map. */
    method UpdateNode(n: Node) returns (ok: bool)
      modifies this
      ensures ok <==> NodeUpdated(old(View()), n).Some?
      ensures View() == if ok then NodeUpdated(old(View()), n).value else old(View())
    {
      if currentRootCA.None? || currentRootCA.value.rotation.None? {
        if unconvergedNodes.Some? { ignored := ignored[n.id := n]; }
        return true;
      }
      if currentIssuer.Some? && HasIssuer(n, currentIssuer.value) {
        DeleteNode(n);
        return true;
      }
      if unconvergedNodes.None? { return false; }
      unconvergedNodes := Some(unconvergedNodes.value[n.id := n]);
      ignored := ignored - {n.id};
      return true;
    }

    method DeleteNode(n: Node)
      modifies this
      ensures View() == NodeDeleted(old(View()), n)
    {
      if unconvergedNodes.Some? {
        unconvergedNodes := Some(unconvergedNodes.value - {n.id});
        ignored := ignored - {n.id};
      }
    }
  }
}
