/**
 Closing tabs: one, a descending stretch of them, all but one; and the workspace
 invariant over runs of verbs and closes.
 */
module TabProofs {
  import opened Base
  import opened PaneTree
  import opened Workspace
  import opened WorkspaceProofs
  import D = Descents

  lemma DropKeepsFresh(spaces: seq<Space>, index: nat, nextId: nat)
    requires FreshIds(spaces, nextId) && index < |spaces|
    ensures FreshIds(D.Drop(spaces, index), nextId)
  {
    var rest := D.Drop(spaces, index);
    forall i | 0 <= i < |rest| ensures rest[i] == spaces[if i < index then i else i + 1] {
    }
  }

  lemma DropKeepsLeaves(spaces: seq<Space>, index: nat, pane: nat)
    requires index < |spaces| && HasLeaf(spaces, pane) && pane !in LeafIds(spaces[index].root)
    ensures HasLeaf(D.Drop(spaces, index), pane)
  {
    var i :| 0 <= i < |spaces| && pane in LeafIds(spaces[i].root);
    assert D.Drop(spaces, index)[if i < index then i else i - 1] == spaces[i];
  }

  /** The tabs that closing one of several leaves, and the focus. */
  predicate RemovesOne(ws: ShownWs, index: nat, r: ShownWs)
    requires index < |ws.spaces|
  {
    && r.spaces == D.Drop(ws.spaces, index) && r.nextId == ws.nextId
    && r.activePane == FirstLeaf(r.spaces[r.activeSpace].root)
  }

  /** What panes own, the inbox items about them, and the expanded pane. */
  datatype Holdings = Holdings(sessions: map<nat, Session>, runtimes: set<nat>, inbox: seq<InboxItem>, maximized: Option<nat>)

  function HoldingsOf(ws: Ws): Holdings {
    Holdings(ws.sessions, ws.runtimes, ws.inbox, ws.maximized)
  }

  function Spared(h: Holdings, gone: set<nat>): Holdings {
    Holdings(h.sessions - gone, h.runtimes - gone, Sparing(h.inbox, gone), h.maximized)
  }

  /** What those panes owned is gone, and nothing else. */
  predicate ForgetsThose(ws: Ws, gone: set<nat>, r: Ws) {
    HoldingsOf(r) == Spared(HoldingsOf(ws), gone)
  }

  lemma CloseSpaceShape(env: Env, ws: ShownWs, index: nat)
    requires index < |ws.spaces| && |ws.spaces| > 1
    ensures var r := CloseSpaceAt(env, ws, index);
            && RemovesOne(ws, index, r)
            && (index != ws.activeSpace ==> r.spaces[r.activeSpace] == ws.spaces[ws.activeSpace])
  {
  }

  lemma CloseSpaceOwned(env: Env, ws: ShownWs, index: nat)
    requires index < |ws.spaces| && |ws.spaces| > 1
    ensures ForgetsThose(ws, LeafIds(ws.spaces[index].root), CloseSpaceAt(env, ws, index))
  {
    var leaves, rest := Leaves(ws.spaces[index].root), ws.spaces[..index] + ws.spaces[index + 1..];
    LeavesAsSet(ws.spaces[index].root);
    ForgetAllInbox(ws.(spaces := rest), leaves);
  }

  /** Closing a tab keeps the workspace well-formed. */
  lemma CloseSpaceWf(env: Env, ws: ShownWs, index: nat)
    requires Wf(ws)
    ensures Wf(CloseSpaceAt(env, ws, index))
  {
    if index < |ws.spaces| {
      if |ws.spaces| == 1 {
        ResetKeeps(env, ws);
      } else {
        CloseSpaceShape(env, ws, index);
        CloseSpaceOwned(env, ws, index);
        var r := CloseSpaceAt(env, ws, index);
        DropKeepsFresh(ws.spaces, index, ws.nextId);
        LookupsAgree(r.spaces[r.activeSpace].root, 0);
        forall pane | HasLeaf(ws.spaces, pane) && pane !in LeafIds(ws.spaces[index].root) ensures HasLeaf(r.spaces, pane) {
          DropKeepsLeaves(ws.spaces, index, pane);
        }
      }
    }
  }

  /** Closing a tab keeps the workspace well-formed; what its panes owned is
      gone, and unless it was the last tab the focus is the first leaf of the
      space then on screen. */
  lemma CloseSpaceKeeps(env: Env, ws: ShownWs, index: nat)
    requires Wf(ws)
    ensures var r := CloseSpaceAt(env, ws, index);
            && Wf(r)
            && (index < |ws.spaces| && |ws.spaces| > 1 ==>
                  && RemovesOne(ws, index, r) && ForgetsThose(ws, LeafIds(ws.spaces[index].root), r)
                  && (index != ws.activeSpace ==> r.spaces[r.activeSpace] == ws.spaces[ws.activeSpace]))
            && (index < |ws.spaces| && |ws.spaces| == 1 ==>
                  r.spaces == [Space(Leaf(ws.nextId, Chat), Bsp, "local")] && r.activePane == ws.nextId)
  {
    CloseSpaceWf(env, ws, index);
    if index < |ws.spaces| && |ws.spaces| > 1 {
      CloseSpaceShape(env, ws, index);
      CloseSpaceOwned(env, ws, index);
    }
  }

  /** The last tab is reset rather than closed. */
  lemma ResetKeeps(env: Env, ws: ShownWs)
    requires Wf(ws) && |ws.spaces| == 1
    ensures Wf(CloseSpaceAt(env, ws, 0))
  {
    var root, r := ws.spaces[0].root, CloseSpaceAt(env, ws, 0);
    forall id ensures id in Leaves(root) <==> id in LeafIds(root) {
      LookupsAgree(root, id);
    }
    assert r.spaces[0].root == Leaf(ws.nextId, Chat);
    forall pane | pane in r.sessions ensures pane == ws.nextId {
      assert pane in ws.sessions ==> HasLeaf(ws.spaces, pane);
    }
    forall pane ensures pane !in r.runtimes {
      assert pane in ws.runtimes ==> HasLeaf(ws.spaces, pane);
    }
    assert HasLeaf(r.spaces, ws.nextId);
  }

  // What one close does is what the loops of closes do.

  function Tabs(): ShownWs -> seq<Space> {
    (ws: ShownWs) => ws.spaces
  }

  function NextIdOf(): ShownWs -> nat {
    (ws: ShownWs) => ws.nextId
  }

  function Held(): ShownWs -> Holdings {
    (ws: ShownWs) => HoldingsOf(ws)
  }

  function Sparer(): (Holdings, set<nat>) -> Holdings {
    (h, gone) => Spared(h, gone)
  }

  /** The focus is the first leaf of the tab on screen. */
  function FocusFirst(): ShownWs -> bool {
    (ws: ShownWs) => ws.activePane == FirstLeaf(ws.spaces[ws.activeSpace].root)
  }

  lemma CloserRemoves(env: Env)
    ensures D.Removes<ShownWs, Space>(Closer(env), Tabs())
    ensures D.Keeps<ShownWs, Space, nat>(Closer(env), Tabs(), NextIdOf())
    ensures D.Leaves<ShownWs, Space>(Closer(env), Tabs(), FocusFirst())
  {
    var close := Closer(env);
    forall ws: ShownWs, index: nat | D.Takes(ws.spaces, index) ensures RemovesOne(ws, index, close(ws, index)) {
      CloseSpaceShape(env, ws, index);
    }
  }

  lemma CloserLoses(env: Env)
    ensures D.Loses<ShownWs, Space, Holdings>(Closer(env), Tabs(), Held(), TabLeaves, Sparer())
  {
    var close := Closer(env);
    forall ws: ShownWs, index: nat | D.Takes(ws.spaces, index)
      ensures HoldingsOf(close(ws, index)) == Spared(HoldingsOf(ws), TabLeaves(ws.spaces[index]))
    {
      CloseSpaceOwned(env, ws, index);
    }
  }

  lemma SparerAdds()
    ensures D.Adds<Holdings>(Sparer())
  {
    forall h: Holdings ensures Spared(h, {}) == h {
      SparingNone(h.inbox);
    }
    forall h: Holdings, a: set<nat>, b: set<nat> ensures Spared(Spared(h, a), b) == Spared(h, b + a) {
      SparingTwice(h.inbox, a, b);
      assert a + b == b + a;
    }
  }

  ghost function WfOf(): ShownWs -> bool {
    (ws: ShownWs) => Wf(ws)
  }

  lemma CloserPreserves(env: Env)
    ensures D.Preserves<ShownWs>(Closer(env), WfOf())
  {
    forall ws: ShownWs, index: nat | Wf(ws) ensures Wf(Closer(env)(ws, index)) {
      CloseSpaceWf(env, ws, index);
    }
  }

  /** A descending loop of closes takes exactly its stretch of tabs away, as long
      as a tab outside the stretch stays, and what their panes owned. */
  lemma CloseDownEffect(env: Env, ws: ShownWs, lo: nat, hi: nat)
    requires lo <= hi <= |ws.spaces| && (lo > 0 || hi < |ws.spaces|)
    ensures var r := CloseDown(env, ws, lo, hi);
            && r.spaces == ws.spaces[..lo] + ws.spaces[hi..] && r.nextId == ws.nextId
            && ForgetsThose(ws, LeafIdsOf(ws.spaces[lo..hi]), r)
            && (lo < hi ==> r.activePane == FirstLeaf(r.spaces[r.activeSpace].root))
  {
    var close := Closer(env);
    CloserRemoves(env);
    CloserLoses(env);
    SparerAdds();
    D.DescendRemoves<ShownWs, Space>(close, Tabs(), ws, lo, hi);
    D.DescendKeeps<ShownWs, Space, nat>(close, Tabs(), NextIdOf(), ws, lo, hi);
    D.DescendLoses<ShownWs, Space, Holdings>(close, Tabs(), Held(), TabLeaves, Sparer(), ws, lo, hi);
    if lo < hi {
      D.DescendLeaves<ShownWs, Space>(close, Tabs(), FocusFirst(), ws, lo, hi);
    }
  }

  /** "Close other tabs", from any number of tabs and any tab on screen, leaves
      exactly the tab the menu was opened on, its tree untouched, on screen, and
      what every other tab's panes owned is gone. The reset of a last tab is
      never reached. The focus goes to its first leaf exactly when there was
      another tab to close (or it was there already). */
  lemma CloseOthersLeavesOne(env: Env, ws: ShownWs, index: nat)
    requires Wf(ws) && index < |ws.spaces|
    ensures var r := CloseOthers(env, ws, index);
            var kept := ws.spaces[index];
            && Wf(r) && r.spaces == [kept] && r.activeSpace == 0 && r.nextId == ws.nextId
            && (forall pane :: pane in r.sessions <==> pane in ws.sessions && pane in LeafIds(kept.root))
            && (forall pane :: pane in r.sessions ==> r.sessions[pane] == ws.sessions[pane])
            && (forall pane :: pane in r.runtimes <==> pane in ws.runtimes && pane in LeafIds(kept.root))
            && r.inbox == Sparing(ws.inbox, OtherLeaves(ws, index)) && r.maximized == ws.maximized
            && (r.activePane == FirstLeaf(kept.root) <==>
                  |ws.spaces| > 1 || ws.activePane == FirstLeaf(kept.root))
  {
    CloseOthersShape(env, ws, index);
    CloseOthersForgets(env, ws, index);
    CloseOthersWf(env, ws, index);
    OutsideBoth(ws, index);
    OwnedByKept(ws, CloseOthers(env, ws, index), index);
  }

  /** The panes of the other tabs. */
  function OtherLeaves(ws: Ws, index: nat): set<nat>
    requires index < |ws.spaces|
  {
    LeafIdsOf(ws.spaces[..index]) + LeafIdsOf(ws.spaces[index + 1..])
  }

  lemma OthersIs(env: Env, ws: ShownWs, index: nat)
    requires index < |ws.spaces|
    ensures CloseOthers(env, ws, index) == D.Others<ShownWs, Space>(Closer(env), Tabs(), ws, index)
  {
  }

  lemma CloseOthersWf(env: Env, ws: ShownWs, index: nat)
    requires Wf(ws) && index < |ws.spaces|
    ensures Wf(CloseOthers(env, ws, index))
  {
    OthersIs(env, ws, index);
    CloserPreserves(env);
    D.OthersPreserved<ShownWs, Space>(Closer(env), Tabs(), WfOf(), ws, index);
  }

  lemma CloseOthersShape(env: Env, ws: ShownWs, index: nat)
    requires index < |ws.spaces|
    ensures var r := CloseOthers(env, ws, index);
            && r.spaces == [ws.spaces[index]] && r.activeSpace == 0 && r.nextId == ws.nextId
            && (if |ws.spaces| > 1 then r.activePane == FirstLeaf(ws.spaces[index].root) else r == ws)
  {
    var close := Closer(env);
    OthersIs(env, ws, index);
    CloserRemoves(env);
    D.OthersRemoved<ShownWs, Space>(close, Tabs(), ws, index);
    D.OthersKept<ShownWs, Space, nat>(close, Tabs(), NextIdOf(), ws, index);
    D.OthersLeave<ShownWs, Space>(close, Tabs(), FocusFirst(), ws, index);
  }

  lemma CloseOthersForgets(env: Env, ws: ShownWs, index: nat)
    requires index < |ws.spaces|
    ensures ForgetsThose(ws, OtherLeaves(ws, index), CloseOthers(env, ws, index))
  {
    OthersIs(env, ws, index);
    CloserRemoves(env);
    CloserLoses(env);
    SparerAdds();
    D.OthersLost<ShownWs, Space, Holdings>(Closer(env), Tabs(), Held(), TabLeaves, Sparer(), ws, index);
  }

  lemma OutsideBoth(ws: Ws, index: nat)
    requires FreshIds(ws.spaces, ws.nextId) && index < |ws.spaces|
    ensures LeafIdsOf(ws.spaces[..index]) !! LeafIds(ws.spaces[index].root)
    ensures LeafIdsOf(ws.spaces[index + 1..]) !! LeafIds(ws.spaces[index].root)
  {
    var before, after := ws.spaces[..index], ws.spaces[index + 1..];
    forall k | 0 <= k < |before| ensures IsOther(ws, index, before[k]) {
      assert ws.spaces[k] == before[k];
    }
    forall k | 0 <= k < |after| ensures IsOther(ws, index, after[k]) {
      assert ws.spaces[index + 1 + k] == after[k];
    }
    OutsideKept(ws, index, before);
    OutsideKept(ws, index, after);
  }

  /** One of the spaces at another position. */
  predicate IsOther(ws: Ws, index: nat, space: Space) {
    exists i :: 0 <= i < |ws.spaces| && i != index && ws.spaces[i] == space
  }

  lemma OwnedByKept(ws: Ws, r: Ws, index: nat)
    requires index < |ws.spaces| && Owned(r) && r.spaces == [ws.spaces[index]]
    requires r.sessions == ws.sessions - OtherLeaves(ws, index) && r.runtimes == ws.runtimes - OtherLeaves(ws, index)
    requires OtherLeaves(ws, index) !! LeafIds(ws.spaces[index].root)
    ensures forall pane :: pane in r.sessions <==> pane in ws.sessions && pane in LeafIds(ws.spaces[index].root)
    ensures forall pane :: pane in r.runtimes <==> pane in ws.runtimes && pane in LeafIds(ws.spaces[index].root)
  {
    forall pane | pane in r.sessions || pane in r.runtimes ensures pane in LeafIds(ws.spaces[index].root) {
      assert HasLeaf(r.spaces, pane);
    }
  }

  /** Leaves of other spaces are not leaves of the kept one. */
  lemma {:induction false} OutsideKept(ws: Ws, index: nat, others: seq<Space>)
    requires FreshIds(ws.spaces, ws.nextId) && index < |ws.spaces|
    requires forall k :: 0 <= k < |others| ==> IsOther(ws, index, others[k])
    ensures LeafIdsOf(others) !! LeafIds(ws.spaces[index].root)
  {
    if others != [] {
      var rest, last := others[..|others| - 1], others[|others| - 1];
      forall k | 0 <= k < |rest| ensures IsOther(ws, index, rest[k]) {
        assert rest[k] == others[k];
      }
      assert IsOther(ws, index, others[|others| - 1]);
      OutsideKept(ws, index, rest);
      LookupsAgree(last.root, 0);
      LookupsAgree(ws.spaces[index].root, 0);
    }
  }

  /** Everything that happens to a workspace here: verbs and tab closes. */
  datatype Op = Verb(command: Command) | CloseTab(index: nat) | CloseOtherTabs(index: nat)

  function Perform(ws: Ws, env: Env, op: Op): Ws
    requires ws.activeSpace < |ws.spaces|
  {
    match op
    case Verb(command) => Handle(env, ws, command).0
    case CloseTab(index) => CloseSpaceAt(env, ws, index)
    case CloseOtherTabs(index) => CloseOthers(env, ws, index)
  }

  lemma OpKeepsWf(ws: Ws, env: Env, op: Op)
    requires Wf(ws)
    ensures Wf(Perform(ws, env, op))
  {
    match op
    case Verb(command) => VerbKeepsWf(env, ws, command);
    case CloseTab(index) => CloseSpaceKeeps(env, ws, index);
    case CloseOtherTabs(index) => if index < |ws.spaces| { CloseOthersLeavesOne(env, ws, index); }
  }

  /** A run reaches a workspace. */
  ghost predicate Reaches(ws: Ws, ops: seq<(Env, Op)>, r: Ws)
    decreases |ops|
  {
    if ops == [] then r == ws
    else ws.activeSpace < |ws.spaces| && Reaches(Perform(ws, ops[0].0, ops[0].1), ops[1..], r)
  }

  /** The invariant over every run of verbs and tab closes, from the one-pane
      workspace the app starts with or any other well-formed one. */
  lemma {:induction false} RunsKeepWf(ws: Ws, ops: seq<(Env, Op)>, r: Ws)
    requires Wf(ws) && Reaches(ws, ops, r)
    ensures Wf(r)
    decreases |ops|
  {
    if ops != [] {
      OpKeepsWf(ws, ops[0].0, ops[0].1);
      RunsKeepWf(Perform(ws, ops[0].0, ops[0].1), ops[1..], r);
    }
  }

  lemma StartIsWf()
    ensures Wf(START)
  {
    assert START.spaces[0].root == Leaf(1, Chat);
  }
}
