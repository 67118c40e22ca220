/**
 The pane tree of one space: leaves host content, a split divides a pane in two.
 Splitting a leaf takes two fresh ids; closing a leaf collapses its split onto
 the surviving sibling.
 */
module PaneTree {
  import opened Base

  datatype PaneKind =
    | Chat
    | Terminal
    | Worker
    | File(path: string)
    | Settings(page: nat)
    | Diff(cwd: string)

  datatype SplitDir = Horizontal | Vertical

  datatype Pane =
    | Leaf(id: nat, kind: PaneKind)
    | Split(id: nat, dir: SplitDir, ratio: real, first: Pane, second: Pane)

  /** The leaves, top and left first. */
  function Leaves(p: Pane): seq<nat> {
    match p
    case Leaf(id, _) => [id]
    case Split(_, _, _, first, second) => Leaves(first) + Leaves(second)
  }

  /** Every id in the tree, of leaves and of splits. */
  function Ids(p: Pane): set<nat> {
    match p
    case Leaf(id, _) => {id}
    case Split(id, _, _, first, second) => {id} + Ids(first) + Ids(second)
  }

  function LeafIds(p: Pane): set<nat> {
    match p
    case Leaf(id, _) => {id}
    case Split(_, _, _, first, second) => LeafIds(first) + LeafIds(second)
  }

  /** No id occurs twice. */
  predicate WellFormed(p: Pane) {
    match p
    case Leaf(_, _) => true
    case Split(id, _, _, first, second) =>
      && id !in Ids(first) && id !in Ids(second) && Ids(first) !! Ids(second)
      && WellFormed(first) && WellFormed(second)
  }

  function FirstLeaf(p: Pane): nat {
    match p
    case Leaf(id, _) => id
    case Split(_, _, _, first, _) => FirstLeaf(first)
  }

  predicate ContainsLeaf(p: Pane, target: nat) {
    match p
    case Leaf(id, _) => id == target
    case Split(_, _, _, first, second) => ContainsLeaf(first, target) || ContainsLeaf(second, target)
  }

  function LeafKind(p: Pane, target: nat): Option<PaneKind> {
    match p
    case Leaf(id, kind) => if id == target then Some(kind) else None
    case Split(_, _, _, first, second) =>
      if LeafKind(first, target).Some? then LeafKind(first, target) else LeafKind(second, target)
  }

  function LeafCount(p: Pane): nat {
    match p
    case Leaf(_, _) => 1
    case Split(_, _, _, first, second) => LeafCount(first) + LeafCount(second)
  }

  /** Replace the leaf `target` with a split of it and a fresh leaf. */
  function SplitLeaf(p: Pane, target: nat, dir: SplitDir, splitId: nat, newId: nat, kind: PaneKind): Option<Pane> {
    match p
    case Leaf(id, _) =>
      if id == target then Some(Split(splitId, dir, 0.5, p, Leaf(newId, kind))) else None
    case Split(id, d, ratio, first, second) =>
      match SplitLeaf(first, target, dir, splitId, newId, kind)
      case Some(f) => Some(Split(id, d, ratio, f, second))
      case None =>
        match SplitLeaf(second, target, dir, splitId, newId, kind)
        case Some(s) => Some(Split(id, d, ratio, first, s))
        case None => None
  }

  predicate IsLeaf(p: Pane, target: nat) {
    p.Leaf? && p.id == target
  }

  /** Remove the leaf `target`: the tree without it, and the leaf to focus next.
      `None` when `target` is the whole tree or not in it. */
  function RemoveLeaf(p: Pane, target: nat): Option<(Pane, nat)> {
    match p
    case Leaf(_, _) => None
    case Split(id, d, ratio, first, second) =>
      if IsLeaf(first, target) then Some((second, FirstLeaf(second)))
      else if IsLeaf(second, target) then Some((first, FirstLeaf(first)))
      else match RemoveLeaf(first, target)
        case Some((f, next)) => Some((Split(id, d, ratio, f, second), next))
        case None =>
          match RemoveLeaf(second, target)
          case Some((s, next)) => Some((Split(id, d, ratio, first, s), next))
          case None => None
  }

  function SetDirs(p: Pane, dir: SplitDir): Pane {
    match p
    case Leaf(_, _) => p
    case Split(id, _, ratio, first, second) => Split(id, dir, ratio, SetDirs(first, dir), SetDirs(second, dir))
  }

  /** The lookups agree on what a leaf of the tree is. */
  lemma {:induction false} LookupsAgree(p: Pane, target: nat)
    ensures ContainsLeaf(p, target) <==> target in LeafIds(p)
    ensures LeafKind(p, target).Some? <==> target in LeafIds(p)
    ensures target in Leaves(p) <==> target in LeafIds(p)
    ensures LeafIds(p) <= Ids(p) && FirstLeaf(p) in LeafIds(p)
    ensures Leaves(p) != [] && Leaves(p)[0] == FirstLeaf(p) && |Leaves(p)| == LeafCount(p)
  {
    if p.Split? {
      LookupsAgree(p.first, target);
      LookupsAgree(p.second, target);
    }
  }

  /** A well-formed tree lists each leaf once. */
  lemma {:induction false} LeavesDistinct(p: Pane)
    requires WellFormed(p)
    ensures Distinct(Leaves(p))
  {
    if p.Split? {
      LeavesDistinct(p.first);
      LeavesDistinct(p.second);
      forall x | x in Leaves(p.first) ensures x !in Leaves(p.second) {
        LookupsAgree(p.first, x);
        LookupsAgree(p.second, x);
      }
      DistinctAppend(Leaves(p.first), Leaves(p.second));
    }
  }

  /** Splitting succeeds exactly on a leaf of the tree. */
  lemma {:induction false} SplitLeafSucceeds(p: Pane, target: nat, dir: SplitDir, splitId: nat, newId: nat, kind: PaneKind)
    ensures SplitLeaf(p, target, dir, splitId, newId, kind).Some? <==> target in LeafIds(p)
  {
    if p.Split? {
      SplitLeafSucceeds(p.first, target, dir, splitId, newId, kind);
      SplitLeafSucceeds(p.second, target, dir, splitId, newId, kind);
    }
  }

  /** It adds the two fresh ids and nothing else. */
  lemma SplitLeafEffect(p: Pane, target: nat, dir: SplitDir, splitId: nat, newId: nat, kind: PaneKind)
    requires WellFormed(p) && splitId !in Ids(p) && newId !in Ids(p) && splitId != newId
    requires SplitLeaf(p, target, dir, splitId, newId, kind).Some?
    ensures var q := SplitLeaf(p, target, dir, splitId, newId, kind).value;
            && WellFormed(q)
            && Ids(q) == Ids(p) + {splitId, newId}
            && LeafIds(q) == LeafIds(p) + {newId}
            && LeafKind(q, newId) == Some(kind)
  {
    SplitLeafIds(p, target, dir, splitId, newId, kind);
    SplitLeafWf(p, target, dir, splitId, newId, kind);
    SplitLeafKind(p, target, dir, splitId, newId, kind);
  }

  lemma {:induction false} SplitLeafIds(p: Pane, target: nat, dir: SplitDir, splitId: nat, newId: nat, kind: PaneKind)
    requires SplitLeaf(p, target, dir, splitId, newId, kind).Some?
    ensures var q := SplitLeaf(p, target, dir, splitId, newId, kind).value;
            Ids(q) == Ids(p) + {splitId, newId} && LeafIds(q) == LeafIds(p) + {newId}
  {
    if p.Split? {
      if SplitLeaf(p.first, target, dir, splitId, newId, kind).Some? {
        SplitLeafIds(p.first, target, dir, splitId, newId, kind);
      } else {
        SplitLeafIds(p.second, target, dir, splitId, newId, kind);
      }
    }
  }

  lemma {:induction false} SplitLeafWf(p: Pane, target: nat, dir: SplitDir, splitId: nat, newId: nat, kind: PaneKind)
    requires WellFormed(p) && splitId !in Ids(p) && newId !in Ids(p) && splitId != newId
    requires SplitLeaf(p, target, dir, splitId, newId, kind).Some?
    ensures WellFormed(SplitLeaf(p, target, dir, splitId, newId, kind).value)
  {
    if p.Split? {
      if SplitLeaf(p.first, target, dir, splitId, newId, kind).Some? {
        SplitLeafWf(p.first, target, dir, splitId, newId, kind);
        SplitLeafIds(p.first, target, dir, splitId, newId, kind);
      } else {
        SplitLeafWf(p.second, target, dir, splitId, newId, kind);
        SplitLeafIds(p.second, target, dir, splitId, newId, kind);
      }
    }
  }

  lemma {:induction false} SplitLeafKind(p: Pane, target: nat, dir: SplitDir, splitId: nat, newId: nat, kind: PaneKind)
    requires newId !in Ids(p) && SplitLeaf(p, target, dir, splitId, newId, kind).Some?
    ensures LeafKind(SplitLeaf(p, target, dir, splitId, newId, kind).value, newId) == Some(kind)
  {
    LookupsAgree(p, newId);
    if p.Split? {
      LookupsAgree(p.first, newId);
      if SplitLeaf(p.first, target, dir, splitId, newId, kind).Some? {
        SplitLeafKind(p.first, target, dir, splitId, newId, kind);
      } else {
        SplitLeafKind(p.second, target, dir, splitId, newId, kind);
      }
    }
  }

  lemma {:induction false} SplitLeafKeepsKinds(p: Pane, target: nat, dir: SplitDir, splitId: nat, newId: nat, kind: PaneKind,
                                               other: nat)
    requires SplitLeaf(p, target, dir, splitId, newId, kind).Some? && other != newId
    ensures LeafKind(SplitLeaf(p, target, dir, splitId, newId, kind).value, other) == LeafKind(p, other)
  {
    if p.Split? {
      if SplitLeaf(p.first, target, dir, splitId, newId, kind).Some? {
        SplitLeafKeepsKinds(p.first, target, dir, splitId, newId, kind, other);
      } else {
        SplitLeafKeepsKinds(p.second, target, dir, splitId, newId, kind, other);
      }
    }
  }

  /** The new leaf stands right after the one it was split from. */
  lemma {:induction false} SplitLeafOrder(p: Pane, target: nat, dir: SplitDir, splitId: nat, newId: nat, kind: PaneKind)
    returns (before: seq<nat>, after: seq<nat>)
    requires SplitLeaf(p, target, dir, splitId, newId, kind).Some?
    ensures Leaves(p) == before + [target] + after
    ensures Leaves(SplitLeaf(p, target, dir, splitId, newId, kind).value) == before + [target, newId] + after
  {
    match p
    case Leaf(_, _) =>
      before, after := [], [];
      assert [target] + [newId] == [target, newId];
    case Split(_, _, _, first, second) =>
      if SplitLeaf(first, target, dir, splitId, newId, kind).Some? {
        before, after := SplitLeafOrder(first, target, dir, splitId, newId, kind);
        assert (before + [target] + after) + Leaves(second) == before + [target] + (after + Leaves(second));
        assert (before + [target, newId] + after) + Leaves(second) == before + [target, newId] + (after + Leaves(second));
        after := after + Leaves(second);
      } else {
        before, after := SplitLeafOrder(second, target, dir, splitId, newId, kind);
        assert Leaves(first) + (before + [target] + after) == Leaves(first) + before + [target] + after;
        assert Leaves(first) + (before + [target, newId] + after) == Leaves(first) + before + [target, newId] + after;
        before := Leaves(first) + before;
      }
  }

  /** Removal is refused exactly for a tree of one leaf or a leaf not in it.
      Otherwise that leaf and one split go, and the next focus is a leaf that
      stays. */
  lemma {:induction false} RemoveLeafEffect(p: Pane, target: nat)
    requires WellFormed(p)
    ensures var r := RemoveLeaf(p, target);
            && (r.Some? <==> p.Split? && target in LeafIds(p))
            && (r.Some? ==>
                  && WellFormed(r.value.0) && Ids(r.value.0) < Ids(p)
                  && LeafIds(r.value.0) == LeafIds(p) - {target}
                  && r.value.1 in LeafIds(r.value.0)
                  && LeafCount(r.value.0) + 1 == LeafCount(p))
  {
    LookupsAgree(p, target);
    if p.Split? {
      LookupsAgree(p.first, target);
      LookupsAgree(p.second, target);
      RemoveLeafEffect(p.first, target);
      RemoveLeafEffect(p.second, target);
    }
  }

  lemma {:induction false} RemoveLeafKeepsKinds(p: Pane, target: nat, other: nat)
    requires WellFormed(p) && RemoveLeaf(p, target).Some? && other != target
    ensures LeafKind(RemoveLeaf(p, target).value.0, other) == LeafKind(p, other)
  {
    if !IsLeaf(p.first, target) && !IsLeaf(p.second, target) {
      if RemoveLeaf(p.first, target).Some? {
        RemoveLeafKeepsKinds(p.first, target, other);
      } else {
        RemoveLeafKeepsKinds(p.second, target, other);
      }
    }
  }

  /** Closing the pane a split opened puts back the very tree, and the focus on
      the pane it was opened from. */
  lemma {:induction false} CloseUndoesSplit(p: Pane, target: nat, dir: SplitDir, splitId: nat, newId: nat, kind: PaneKind)
    requires WellFormed(p) && splitId !in Ids(p) && newId !in Ids(p) && splitId != newId
    requires target in LeafIds(p)
    ensures SplitLeaf(p, target, dir, splitId, newId, kind).Some?
    ensures RemoveLeaf(SplitLeaf(p, target, dir, splitId, newId, kind).value, newId) == Some((p, target))
  {
    SplitLeafSucceeds(p, target, dir, splitId, newId, kind);
    if p.Split? {
      SplitLeafSucceeds(p.first, target, dir, splitId, newId, kind);
      LookupsAgree(p.first, newId);
      RemoveLeafEffect(p.first, newId);
      if target in LeafIds(p.first) {
        CloseUndoesSplit(p.first, target, dir, splitId, newId, kind);
      } else {
        CloseUndoesSplit(p.second, target, dir, splitId, newId, kind);
      }
    }
  }

  /** Turning every split keeps the panes, their order and their kinds. */
  lemma {:induction false} SetDirsKeeps(p: Pane, dir: SplitDir, target: nat)
    ensures var q := SetDirs(p, dir);
            && Ids(q) == Ids(p) && LeafIds(q) == LeafIds(p) && Leaves(q) == Leaves(p)
            && (WellFormed(p) ==> WellFormed(q)) && LeafKind(q, target) == LeafKind(p, target)
            && q.Split? == p.Split? && (q.Split? ==> q.dir == dir)
            && SetDirs(q, dir) == q
  {
    if p.Split? {
      SetDirsKeeps(p.first, dir, target);
      SetDirsKeeps(p.second, dir, target);
    }
  }

  /** What a client is shown of a tree. */
  datatype LayoutNode =
    | LeafNode(paneId: nat, kind: string)
    | SplitNode(splitId: nat, axis: SplitDir, ratio: real, first: LayoutNode, second: LayoutNode)

  function KindName(kind: PaneKind): string {
    match kind
    case Chat => "chat"
    case Terminal => "terminal"
    case Worker => "worker"
    case File(_) => "file"
    case Settings(_) => "settings"
    case Diff(_) => "diff"
  }

  function NodeOf(p: Pane): LayoutNode {
    match p
    case Leaf(id, kind) => LeafNode(id, KindName(kind))
    case Split(id, dir, ratio, first, second) => SplitNode(id, dir, ratio, NodeOf(first), NodeOf(second))
  }

  /** Two trees a client cannot tell apart differ only in what a kind carries
      beside its name. */
  predicate SameShape(p: Pane, q: Pane) {
    match (p, q)
    case (Leaf(i, k), Leaf(j, l)) => i == j && KindName(k) == KindName(l)
    case (Split(i, d, r, a, b), Split(j, e, s, c, f)) =>
      i == j && d == e && r == s && SameShape(a, c) && SameShape(b, f)
    case _ => false
  }

  lemma {:induction false} LayoutShowsTheTree(p: Pane, q: Pane)
    ensures NodeOf(p) == NodeOf(q) <==> SameShape(p, q)
  {
    if p.Split? && q.Split? {
      LayoutShowsTheTree(p.first, q.first);
      LayoutShowsTheTree(p.second, q.second);
    }
  }
}
