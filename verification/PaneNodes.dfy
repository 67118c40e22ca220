/**
 A pane tree read node by node: what stands at an id, and the ids below it. Root and
 nodes determine a tree, so an edit is known when it is known at every id.
 */
module PaneNodes {
  import opened Base
  import opened PaneTree

  datatype Node =
    | LeafAt(kind: PaneKind)
    | SplitAt(dir: SplitDir, ratio: real, first: nat, second: nat)

  function Top(p: Pane): Node {
    match p
    case Leaf(_, kind) => LeafAt(kind)
    case Split(_, dir, ratio, first, second) => SplitAt(dir, ratio, first.id, second.id)
  }

  function NodeAt(p: Pane, id: nat): Option<Node> {
    if id == p.id then Some(Top(p))
    else if p.Leaf? then None
    else if id in Ids(p.first) then NodeAt(p.first, id)
    else NodeAt(p.second, id)
  }

  lemma {:induction false} NodesAreIds(p: Pane, id: nat)
    ensures NodeAt(p, id).Some? <==> id in Ids(p)
    ensures p.id in Ids(p)
    ensures NodeAt(p, id).Some? && NodeAt(p, id).value.SplitAt? ==>
              NodeAt(p, id).value.first in Ids(p) && NodeAt(p, id).value.second in Ids(p)
  {
    if p.Split? {
      NodesAreIds(p.first, id);
      NodesAreIds(p.second, id);
    }
  }

  /** Two trees with the same root and, for their ids, the same nodes are one tree. */
  lemma {:induction false} NodesDetermine(p: Pane, q: Pane, nodes: nat -> Option<Node>)
    requires WellFormed(p) && WellFormed(q) && p.id == q.id
    requires forall id :: id in Ids(p) ==> NodeAt(p, id) == nodes(id)
    requires forall id :: id in Ids(q) ==> NodeAt(q, id) == nodes(id)
    ensures p == q
  {
    NodesAreIds(p, p.id);
    NodesAreIds(q, q.id);
    assert Some(Top(p)) == nodes(p.id) == Some(Top(q));
    if p.Split? {
      ChildNodes(p, nodes);
      ChildNodes(q, nodes);
      NodesDetermine(p.first, q.first, nodes);
      NodesDetermine(p.second, q.second, nodes);
    }
  }

  lemma ChildNodes(p: Pane, nodes: nat -> Option<Node>)
    requires WellFormed(p) && p.Split?
    requires forall id :: id in Ids(p) ==> NodeAt(p, id) == nodes(id)
    ensures forall id :: id in Ids(p.first) ==> NodeAt(p.first, id) == nodes(id)
    ensures forall id :: id in Ids(p.second) ==> NodeAt(p.second, id) == nodes(id)
  {
    forall id | id in Ids(p.first) ensures NodeAt(p.first, id) == nodes(id) {
      assert id in Ids(p) && NodeAt(p, id) == NodeAt(p.first, id);
    }
    forall id | id in Ids(p.second) ensures NodeAt(p.second, id) == nodes(id) {
      assert id in Ids(p) && NodeAt(p, id) == NodeAt(p.second, id);
    }
  }

  // ---- Hanging one subtree where another was ----

  function Link(id: nat, from: nat, to: nat): nat {
    if id == from then to else id
  }

  function Relinked(n: Option<Node>, from: nat, to: nat): Option<Node> {
    if n.Some? && n.value.SplitAt?
    then Some(n.value.(first := Link(n.value.first, from, to), second := Link(n.value.second, from, to)))
    else n
  }

  lemma NotLinked(p: Pane, id: nat, from: nat, to: nat)
    requires from !in Ids(p)
    ensures Relinked(NodeAt(p, id), from, to) == NodeAt(p, id)
  {
    NodesAreIds(p, id);
  }

  /** After a split: two new nodes, and the new split in the target's place. */
  function NodeAfterSplit(p: Pane, target: nat, dir: SplitDir, splitId: nat, newId: nat, kind: PaneKind, id: nat): Option<Node> {
    if id == splitId then Some(SplitAt(dir, 0.5, target, newId))
    else if id == newId then Some(LeafAt(kind))
    else Relinked(NodeAt(p, id), target, splitId)
  }

  /** A split makes one node of the asked direction, halved, with the target before the
      new leaf; where the target hung that node hangs, and every other node is as it was. */
  lemma {:induction false} SplitLeafNodes(p: Pane, target: nat, dir: SplitDir, splitId: nat, newId: nat, kind: PaneKind, id: nat)
    requires WellFormed(p) && splitId !in Ids(p) && newId !in Ids(p) && splitId != newId
    requires SplitLeaf(p, target, dir, splitId, newId, kind).Some?
    ensures var q := SplitLeaf(p, target, dir, splitId, newId, kind).value;
            q.id == Link(p.id, target, splitId) && NodeAt(q, id) == NodeAfterSplit(p, target, dir, splitId, newId, kind, id)
  {
    SplitLeafSucceeds(p, target, dir, splitId, newId, kind);
    LookupsAgree(p, target);
    if p.Split? {
      SplitLeafSucceeds(p.first, target, dir, splitId, newId, kind);
      SplitLeafSucceeds(p.second, target, dir, splitId, newId, kind);
      LookupsAgree(p.first, target);
      LookupsAgree(p.second, target);
      NodesAreIds(p.first, id);
      NodesAreIds(p.second, id);
      if target in LeafIds(p.first) {
        SplitLeafIds(p.first, target, dir, splitId, newId, kind);
        SplitLeafNodes(p.first, target, dir, splitId, newId, kind, id);
        NotLinked(p.second, id, target, splitId);
        NodesAreIds(p.second, p.second.id);
      } else {
        SplitLeafIds(p.second, target, dir, splitId, newId, kind);
        SplitLeafNodes(p.second, target, dir, splitId, newId, kind, id);
        NotLinked(p.first, id, target, splitId);
        NodesAreIds(p.first, p.first.id);
      }
    }
  }

  /** The nodes that are leaves, and their kinds. */
  lemma {:induction false} LeafNodes(p: Pane, id: nat)
    requires WellFormed(p)
    ensures LeafKind(p, id) == (match NodeAt(p, id) { case Some(LeafAt(kind)) => Some(kind) case _ => None })
  {
    LookupsAgree(p, id);
    if p.Split? {
      LeafNodes(p.first, id);
      LeafNodes(p.second, id);
      LookupsAgree(p.first, id);
      LookupsAgree(p.second, id);
      NodesAreIds(p.first, id);
      NodesAreIds(p.second, id);
    }
  }

  /** The split a leaf hangs in, and what hangs beside it. */
  predicate Beside(p: Pane, target: nat, parent: nat, sibling: Pane) {
    && parent in Ids(p) && target in Ids(p) && Ids(sibling) <= Ids(p) && WellFormed(sibling) && target !in Ids(sibling)
    && parent !in Ids(sibling)
    && (match NodeAt(p, parent)
        case Some(SplitAt(_, _, a, b)) => (a == target && b == sibling.id) || (a == sibling.id && b == target)
        case _ => false)
    && forall id :: id in Ids(sibling) ==> NodeAt(sibling, id) == NodeAt(p, id)
  }

  lemma BesideInFirst(p: Pane, target: nat, parent: nat, sibling: Pane)
    requires WellFormed(p) && p.Split? && (Beside(p.first, target, parent, sibling) || Beside(p.second, target, parent, sibling))
    ensures Beside(p, target, parent, sibling)
  {
    forall id | id in Ids(sibling) ensures NodeAt(sibling, id) == NodeAt(p, id) {
      NodesAreIds(p.first, id);
      NodesAreIds(p.second, id);
    }
  }

  lemma BesideHere(p: Pane, target: nat, sibling: Pane)
    requires WellFormed(p) && p.Split?
    requires (IsLeaf(p.first, target) && sibling == p.second) || (IsLeaf(p.second, target) && sibling == p.first)
    ensures Beside(p, target, p.id, sibling)
  {
    NodesAreIds(p.first, p.first.id);
    NodesAreIds(p.second, p.second.id);
    forall id | id in Ids(sibling) ensures NodeAt(sibling, id) == NodeAt(p, id) {
      NodesAreIds(p.first, id);
      NodesAreIds(p.second, id);
    }
  }

  /** A removal takes the leaf and the split it hangs in: what hung beside it hangs
      in the split's place, its first leaf is the next focus, and every other node is as
      it was. */
  lemma {:induction false} RemoveLeafNodes(p: Pane, target: nat) returns (parent: nat, sibling: Pane)
    requires WellFormed(p) && RemoveLeaf(p, target).Some?
    ensures Beside(p, target, parent, sibling)
    ensures var (q, next) := RemoveLeaf(p, target).value;
            && q.id == Link(p.id, parent, sibling.id) && next == FirstLeaf(sibling)
            && forall id :: NodeAt(q, id) == NodeAfterRemove(p, target, parent, sibling.id, id)
  {
    if IsLeaf(p.first, target) {
      parent, sibling := p.id, p.second;
      BesideHere(p, target, sibling);
      RemovedHere(p, target, sibling);
    } else if IsLeaf(p.second, target) {
      parent, sibling := p.id, p.first;
      BesideHere(p, target, sibling);
      RemovedHere(p, target, sibling);
    } else if RemoveLeaf(p.first, target).Some? {
      parent, sibling := RemoveLeafNodes(p.first, target);
      BesideInFirst(p, target, parent, sibling);
      RemovedBelow(p, target, parent, sibling);
    } else {
      parent, sibling := RemoveLeafNodes(p.second, target);
      BesideInFirst(p, target, parent, sibling);
      RemovedBelow(p, target, parent, sibling);
    }
  }

  function NodeAfterRemove(p: Pane, target: nat, parent: nat, sibling: nat, id: nat): Option<Node> {
    if id == target || id == parent then None else Relinked(NodeAt(p, id), parent, sibling)
  }

  lemma RemovedHere(p: Pane, target: nat, sibling: Pane)
    requires WellFormed(p) && p.Split?
    requires (IsLeaf(p.first, target) && sibling == p.second) || (IsLeaf(p.second, target) && sibling == p.first)
    ensures forall id :: NodeAt(sibling, id) == NodeAfterRemove(p, target, p.id, sibling.id, id)
  {
    forall id ensures NodeAt(sibling, id) == NodeAfterRemove(p, target, p.id, sibling.id, id) {
      NodesAreIds(p.first, id);
      NodesAreIds(p.second, id);
      NotLinked(sibling, id, p.id, sibling.id);
    }
  }

  lemma RemovedBelow(p: Pane, target: nat, parent: nat, sibling: Pane)
    requires WellFormed(p) && p.Split? && !IsLeaf(p.first, target) && !IsLeaf(p.second, target)
    requires RemoveLeaf(p, target).Some?
    requires var part := if RemoveLeaf(p.first, target).Some? then p.first else p.second;
             && Beside(part, target, parent, sibling) && RemoveLeaf(part, target).Some?
             && RemoveLeaf(part, target).value.0.id == Link(part.id, parent, sibling.id)
             && forall id :: NodeAt(RemoveLeaf(part, target).value.0, id) == NodeAfterRemove(part, target, parent, sibling.id, id)
    ensures var q := RemoveLeaf(p, target).value.0;
            q.id == Link(p.id, parent, sibling.id)
            && forall id :: NodeAt(q, id) == NodeAfterRemove(p, target, parent, sibling.id, id)
  {
    var part := if RemoveLeaf(p.first, target).Some? then p.first else p.second;
    var other := if RemoveLeaf(p.first, target).Some? then p.second else p.first;
    RemoveLeafEffect(part, target);
    NodesAreIds(p.first, p.first.id);
    NodesAreIds(p.second, p.second.id);
    var q := RemoveLeaf(p, target).value.0;
    forall id ensures NodeAt(q, id) == NodeAfterRemove(p, target, parent, sibling.id, id) {
      NodesAreIds(p.first, id);
      NodesAreIds(p.second, id);
      NodesAreIds(RemoveLeaf(part, target).value.0, id);
      NotLinked(other, id, parent, sibling.id);
    }
  }

  /** Turning a tree turns every split and touches nothing else. */
  lemma {:induction false} SetDirsNodes(p: Pane, dir: SplitDir, id: nat)
    ensures SetDirs(p, dir).id == p.id
    ensures NodeAt(SetDirs(p, dir), id) == match NodeAt(p, id)
                                           case Some(SplitAt(_, ratio, a, b)) => Some(SplitAt(dir, ratio, a, b))
                                           case other => other
  {
    if p.Split? {
      SetDirsKeeps(p.first, dir, id);
      SetDirsNodes(p.first, dir, id);
      SetDirsNodes(p.second, dir, id);
    }
  }
}
