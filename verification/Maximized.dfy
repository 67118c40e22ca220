/**
 The expanded pane. One pane at a time is drawn over the panes space, by its id. The
 rule is that a pane that gave up the focus cannot keep the whole space. Every control
 verb and the expand control see to that; closing a tab does not, since it moves the
 focus and leaves the expansion standing.

 An id that names no pane of the space on screen is harmless: the tree is drawn. When
 it is left behind is stated too.
 */
module Maximized {
  import opened Base
  import opened PaneTree
  import opened Workspace
  import opened WorkspaceProofs
  import opened TabProofs
  import D = Descents

  // ---- The pane that fills the space has the focus ----

  /** A pane that gave up the focus is not expanded. */
  predicate ExpandedHasFocus(ws: Ws) {
    ws.maximized.Some? ==> ws.maximized.value == ws.activePane
  }

  /** What is drawn over the panes space: the expanded pane, if it is in the space on
      screen; else the tree. */
  function Drawn(ws: Ws): Option<nat> {
    if ws.maximized.Some? && ws.activeSpace < |ws.spaces| && ContainsLeaf(ws.spaces[ws.activeSpace].root, ws.maximized.value)
    then ws.maximized else None
  }

  /** No pane without the focus is drawn over the others. */
  predicate DrawnHasFocus(ws: Ws) {
    Drawn(ws).Some? ==> Drawn(ws).value == ws.activePane
  }

  /** An id that names no pane of the space on screen draws nothing. */
  lemma StaleDrawsNothing(ws: ShownWs)
    ensures Drawn(ws).Some? <==> ws.maximized.Some? && ws.maximized.value in LeafIds(ws.spaces[ws.activeSpace].root)
  {
    if ws.maximized.Some? {
      LookupsAgree(ws.spaces[ws.activeSpace].root, ws.maximized.value);
    }
  }

  /** The header's expand control: refused for the only pane of a space, unless it
      takes the expansion back. */
  function ToggleExpanded(ws: Ws, pane: nat): Ws {
    var retract := ws.maximized == Some(pane);
    var expandable := ws.activeSpace < |ws.spaces| && LeafCount(ws.spaces[ws.activeSpace].root) > 1;
    if !retract && !expandable then ws
    else Focus(ws, pane).(maximized := if retract then None else Some(pane))
  }

  /** The control expands a pane over its space and takes that back, and focuses it; it is
      refused only for a pane that is not expanded, in a space of one. */
  lemma ToggleDoes(ws: ShownWs, pane: nat)
    ensures var r := ToggleExpanded(ws, pane);
            if ws.maximized != Some(pane) && ws.spaces[ws.activeSpace].root.Leaf? then r == ws
            else r == ws.(activePane := pane, maximized := if ws.maximized == Some(pane) then None else Some(pane))
  {
    if ws.spaces[ws.activeSpace].root.Split? {
      LookupsAgree(ws.spaces[ws.activeSpace].root.first, 0);
      LookupsAgree(ws.spaces[ws.activeSpace].root.second, 0);
    }
  }

  lemma ToggleKeepsFocus(ws: Ws, pane: nat)
    requires ExpandedHasFocus(ws)
    ensures ExpandedHasFocus(ToggleExpanded(ws, pane))
  {
  }

  /** Every verb keeps the rule. */
  lemma VerbKeepsFocus(env: Env, ws: Ws, command: Command)
    requires Wf(ws) && ExpandedHasFocus(ws)
    ensures ExpandedHasFocus(Handle(env, ws, command).0)
  {
    if command.LayoutSet? {
      SetLayoutKeepsFocus(ws, command.space, command.kind);
    }
  }

  lemma SetLayoutKeepsFocus(ws: Ws, space: nat, kind: LayoutKind)
    requires Wf(ws) && ExpandedHasFocus(ws)
    ensures ExpandedHasFocus(SetLayout(ws, space, kind).0)
  {
    if space < |ws.spaces| && kind.Single? {
      ForgetOthersMaximized(ws, Leaves(ws.spaces[space].root), TargetOf(ws, space));
      ForgetOthersEffect(ws, Leaves(ws.spaces[space].root), TargetOf(ws, space));
    }
  }

  /** Closing a tab keeps it if and only if nothing is expanded, or another tab than
      the one on screen is closed and the focus is on its first leaf already. */
  lemma CloseSpaceFocusIff(env: Env, ws: ShownWs, index: nat)
    requires Wf(ws) && ExpandedHasFocus(ws) && index < |ws.spaces|
    ensures ExpandedHasFocus(CloseSpaceAt(env, ws, index)) <==>
            || ws.maximized.None?
            || (index != ws.activeSpace && ws.activePane == FirstLeaf(ws.spaces[ws.activeSpace].root))
  {
    if |ws.spaces| == 1 {
      FreshOwnsNothing(ws, ws.nextId);
      assert HasLeaf(ws.spaces, ws.activePane);
    } else {
      CloseSpaceShape(env, ws, index);
      CloseSpaceOwned(env, ws, index);
      if index == ws.activeSpace {
        FocusMoves(env, ws);
      }
    }
  }

  /** Closing the tab on screen moves the focus to another pane. */
  lemma FocusMoves(env: Env, ws: ShownWs)
    requires Wf(ws) && |ws.spaces| > 1
    ensures CloseSpaceAt(env, ws, ws.activeSpace).activePane != ws.activePane
  {
    CloseSpaceShape(env, ws, ws.activeSpace);
    var r := CloseSpaceAt(env, ws, ws.activeSpace);
    DropLosesLeaf(ws, ws.activeSpace, ws.activePane);
    LookupsAgree(r.spaces[r.activeSpace].root, 0);
    assert HasLeaf(r.spaces, r.activePane);
  }

  /** And it shows, by a pane without the focus drawn over the others, exactly when the
      tab closed is another than the one on screen. */
  lemma CloseSpaceShowsIff(env: Env, ws: ShownWs, index: nat)
    requires Wf(ws) && ExpandedHasFocus(ws) && index < |ws.spaces|
    ensures DrawnHasFocus(CloseSpaceAt(env, ws, index)) <==>
            || ws.maximized.None? || index == ws.activeSpace
            || ws.activePane == FirstLeaf(ws.spaces[ws.activeSpace].root)
  {
    var r := CloseSpaceAt(env, ws, index);
    CloseSpaceFocusIff(env, ws, index);
    StaleDrawsNothing(r);
    if |ws.spaces| == 1 {
      FreshOwnsNothing(ws, ws.nextId);
      assert HasLeaf(ws.spaces, ws.activePane);
    } else {
      CloseSpaceShape(env, ws, index);
      CloseSpaceOwned(env, ws, index);
      if index == ws.activeSpace {
        DropLosesLeaf(ws, index, ws.activePane);
        assert ws.activePane in LeafIds(r.spaces[r.activeSpace].root) ==> HasLeaf(r.spaces, ws.activePane);
      }
    }
  }

  /** "Close other tabs" keeps the rule if and only if nothing is expanded, there is no
      other tab, or the focus is the kept tab's first leaf. */
  lemma CloseOthersFocusIff(env: Env, ws: ShownWs, index: nat)
    requires Wf(ws) && ExpandedHasFocus(ws) && index < |ws.spaces|
    ensures ExpandedHasFocus(CloseOthers(env, ws, index)) <==>
            ws.maximized.None? || |ws.spaces| == 1 || ws.activePane == FirstLeaf(ws.spaces[index].root)
  {
    CloseOthersShape(env, ws, index);
    CloseOthersForgets(env, ws, index);
  }

  /** And it shows exactly when the kept tab was the one on screen. */
  lemma CloseOthersShowsIff(env: Env, ws: ShownWs, index: nat)
    requires Wf(ws) && ExpandedHasFocus(ws) && index < |ws.spaces|
    ensures DrawnHasFocus(CloseOthers(env, ws, index)) <==>
            || ws.maximized.None? || |ws.spaces| == 1 || index != ws.activeSpace
            || ws.activePane == FirstLeaf(ws.spaces[index].root)
  {
    CloseOthersShape(env, ws, index);
    CloseOthersForgets(env, ws, index);
    StaleDrawsNothing(CloseOthers(env, ws, index));
    LookupsAgree(ws.spaces[index].root, ws.activePane);
    if index != ws.activeSpace {
      OnlyIn(ws, ws.activePane, ws.activeSpace, index);
    }
  }

  lemma OnlyIn(ws: Ws, pane: nat, i: nat, j: nat)
    requires Wf(ws) && i < |ws.spaces| && j < |ws.spaces| && i != j && pane in LeafIds(ws.spaces[i].root)
    ensures pane !in LeafIds(ws.spaces[j].root)
  {
    LookupsAgree(ws.spaces[i].root, pane);
    LookupsAgree(ws.spaces[j].root, pane);
  }

  /** A split of panes 1 and 2 on screen, 2 focused and expanded, and another tab. */
  function TwoTabs(): ShownWs {
    Ws([Space(Split(3, Horizontal, 0.5, Leaf(1, Chat), Leaf(2, Chat)), Bsp, "local"), Space(Leaf(4, Chat), Bsp, "local")],
       0, 2, 5, map[], {}, Some(2), [])
  }

  /** The other tab is closed: the focus is on pane 1 and pane 2 is drawn over it. */
  lemma OtherTabClosed(env: Env)
    ensures Wf(TwoTabs()) && ExpandedHasFocus(TwoTabs())
    ensures var r := CloseSpaceAt(env, TwoTabs(), 1); r.activePane == 1 && Drawn(r) == Some(2)
    ensures var r := CloseOthers(env, TwoTabs(), 0); r.activePane == 1 && Drawn(r) == Some(2)
  {
    var ws := TwoTabs();
    CloseSpaceShape(env, ws, 1);
    CloseSpaceOwned(env, ws, 1);
    CloseOthersShape(env, ws, 0);
    CloseOthersForgets(env, ws, 0);
  }

  // ---- When the expanded pane is one that is gone ----

  /** The expanded pane exists. */
  ghost predicate MaximizedLives(ws: Ws) {
    ws.maximized.Some? ==> HasLeaf(ws.spaces, ws.maximized.value)
  }

  /** The expanded pane, if any, is not one of these. */
  predicate Spares(ws: Ws, leaves: set<nat>) {
    ws.maximized.Some? ==> ws.maximized.value !in leaves
  }

  lemma SplitKeepsMaximized(env: Env, ws: Ws, pane: nat, axis: SplitDir, kind: Option<ControlKind>, cwd: Option<string>)
    requires Wf(ws) && MaximizedLives(ws)
    ensures MaximizedLives(SplitPane(env, ws, pane, axis, kind, cwd).0)
  {
    FreshOwnsNothing(ws, ws.nextId + 1);
    assert HasLeaf(ws.spaces, ws.activePane);
  }

  lemma CloseKeepsMaximized(ws: Ws, pane: nat)
    requires Wf(ws) && MaximizedLives(ws)
    ensures MaximizedLives(ClosePane(ws, pane).0)
  {
    CloseKeeps(ws, pane);
    if SpaceOf(ws.spaces, pane).Some? {
      FoundIsLeaf(ws, pane);
      var space := SpaceOf(ws.spaces, pane).value;
      var root := ws.spaces[space].root;
      RemoveLeafEffect(root, pane);
      if RemoveLeaf(root, pane).Some? {
        CloseShape(ws, pane, space);
        ReplaceKeepsLeaves(ws.spaces, space, ws.spaces[space].(root := RemoveLeaf(root, pane).value.0), {pane});
      }
    }
  }

  lemma {:induction false} ForgetOthersMaximized(ws: Ws, ids: seq<nat>, keep: nat)
    ensures ForgetOthers(ws, ids, keep).maximized
         == if ws.maximized.Some? && ws.maximized.value in ids && ws.maximized.value != keep then None else ws.maximized
  {
    if ids != [] {
      ForgetOthersMaximized(ws, ids[..|ids| - 1], keep);
      assert ids == ids[..|ids| - 1] + [ids[|ids| - 1]];
    }
  }

  lemma SetLayoutKeepsMaximized(ws: Ws, space: nat, kind: LayoutKind)
    requires Wf(ws) && MaximizedLives(ws)
    ensures MaximizedLives(SetLayout(ws, space, kind).0)
  {
    if space < |ws.spaces| {
      if kind.Single? {
        SingleKeepsMaximized(ws, space);
      } else {
        var s := ws.spaces[space];
        if kind.Rows? {
          SetDirsKeeps(s.root, kind.dir, 0);
        }
        ReplaceKeepsLeaves(ws.spaces, space, SetLayout(ws, space, kind).0.spaces[space], {});
      }
    }
  }

  lemma SingleKeepsMaximized(ws: Ws, space: nat)
    requires Wf(ws) && MaximizedLives(ws) && space < |ws.spaces|
    ensures MaximizedLives(SetLayout(ws, space, Single).0)
  {
    var s, keep := ws.spaces[space], TargetOf(ws, space);
    SingleKeeps(ws, space);
    ForgetOthersMaximized(ws, Leaves(s.root), keep);
    LeavesAsSet(s.root);
    var ws' := SetLayout(ws, space, Single).0;
    ReplaceKeepsLeaves(ws.spaces, space, ws'.spaces[space], LeafIds(s.root) - {keep});
  }

  /** Every verb keeps the expanded pane a pane that exists. */
  lemma VerbKeepsMaximized(env: Env, ws: Ws, command: Command)
    requires Wf(ws) && MaximizedLives(ws)
    ensures MaximizedLives(Handle(env, ws, command).0)
  {
    if command.PanesNew? {
      var space := if command.asked.Some? then command.asked.value else ws.activeSpace;
      if space < |ws.spaces| {
        SplitKeepsMaximized(env, ws, TargetOf(ws, space), Horizontal,
                            Some(if command.wanted.Some? then command.wanted.value else ControlTerminal), command.cwd);
      }
    } else if command.PanesSplit? {
      SplitKeepsMaximized(env, ws, command.pane, command.axis, None, None);
    } else if command.PanesClose? {
      CloseKeepsMaximized(ws, command.pane);
    } else if command.LayoutSet? {
      SetLayoutKeepsMaximized(ws, command.space, command.kind);
    }
  }

  /** Closing a tab keeps the expanded pane a pane that exists if and only if it is
      not in that tab. */
  lemma CloseSpaceMaximizedIff(env: Env, ws: ShownWs, index: nat)
    requires Wf(ws) && MaximizedLives(ws) && index < |ws.spaces|
    ensures MaximizedLives(CloseSpaceAt(env, ws, index)) <==> Spares(ws, LeafIds(ws.spaces[index].root))
  {
    if ws.maximized.Some? {
      var pane := ws.maximized.value;
      if |ws.spaces| == 1 {
        assert ws.spaces == [ws.spaces[0]];
        FreshOwnsNothing(ws, ws.nextId);
        LeavesAsSet(ws.spaces[0].root);
      } else {
        CloseSpaceShape(env, ws, index);
        CloseSpaceOwned(env, ws, index);
        if pane in LeafIds(ws.spaces[index].root) {
          DropLosesLeaf(ws, index, pane);
        } else {
          DropKeepsLeaves(ws.spaces, index, pane);
        }
      }
    }
  }

  lemma DropLosesLeaf(ws: Ws, index: nat, pane: nat)
    requires Wf(ws) && index < |ws.spaces| && pane in LeafIds(ws.spaces[index].root)
    ensures !HasLeaf(D.Drop(ws.spaces, index), pane)
  {
    var rest := D.Drop(ws.spaces, index);
    forall k | 0 <= k < |rest| ensures pane !in LeafIds(rest[k].root) {
      var i := if k < index then k else k + 1;
      assert rest[k] == ws.spaces[i];
      FoundIsLeaf(ws, pane);
    }
  }

  /** "Close other tabs" keeps it if and only if it is in the tab that stays. */
  lemma CloseOthersMaximizedIff(env: Env, ws: ShownWs, index: nat)
    requires Wf(ws) && MaximizedLives(ws) && index < |ws.spaces|
    ensures MaximizedLives(CloseOthers(env, ws, index))
       <==> (ws.maximized.Some? ==> ws.maximized.value in LeafIds(ws.spaces[index].root))
  {
    CloseOthersLeavesOne(env, ws, index);
    var r := CloseOthers(env, ws, index);
    assert ws.maximized.Some? ==> (HasLeaf(r.spaces, ws.maximized.value) <==> ws.maximized.value in LeafIds(r.spaces[0].root));
  }

  /** Two tabs, the second's pane expanded; its tab is closed, alone or by "close other
      tabs": the id left behind is stale, and harmless, as the tree is drawn. */
  lemma ClosedWhileExpanded(env: Env)
    ensures var ws := Ws([Space(Leaf(1, Chat), Bsp, "local"), Space(Leaf(2, Chat), Bsp, "local")], 1, 2, 3,
                         map[], {}, Some(2), []);
            && Wf(ws) && MaximizedLives(ws)
            && !MaximizedLives(CloseSpaceAt(env, ws, 1)) && Drawn(CloseSpaceAt(env, ws, 1)) == None
            && !MaximizedLives(CloseOthers(env, ws, 0)) && Drawn(CloseOthers(env, ws, 0)) == None
  {
    var ws := Ws([Space(Leaf(1, Chat), Bsp, "local"), Space(Leaf(2, Chat), Bsp, "local")], 1, 2, 3,
                 map[], {}, Some(2), []);
    assert 2 in LeafIds(ws.spaces[1].root);
    CloseSpaceMaximizedIff(env, ws, 1);
    CloseOthersMaximizedIff(env, ws, 0);
    GoneDrawsNothing(CloseSpaceAt(env, ws, 1));
    GoneDrawsNothing(CloseOthers(env, ws, 0));
  }

  lemma GoneDrawsNothing(ws: ShownWs)
    requires !MaximizedLives(ws)
    ensures Drawn(ws) == None
  {
    StaleDrawsNothing(ws);
  }
}
