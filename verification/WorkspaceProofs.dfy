/**
 What every verb and every tab close keeps, when a verb fails and what it then
 leaves alone, and what closing the other tabs leaves behind.
 */
module WorkspaceProofs {
  import opened Base
  import opened PaneTree
  import opened Workspace

  lemma FoundIsLeaf(ws: Ws, pane: nat)
    requires FreshIds(ws.spaces, ws.nextId)
    ensures var r := SpaceOf(ws.spaces, pane);
            && (r.Some? <==> HasLeaf(ws.spaces, pane))
            && (r.Some? ==>
                  && pane in LeafIds(ws.spaces[r.value].root)
                  && forall i :: 0 <= i < |ws.spaces| && pane in LeafIds(ws.spaces[i].root) ==> i == r.value)
  {
    forall i | 0 <= i < |ws.spaces|
      ensures ContainsLeaf(ws.spaces[i].root, pane) <==> pane in LeafIds(ws.spaces[i].root)
      ensures LeafIds(ws.spaces[i].root) <= Ids(ws.spaces[i].root)
    {
      LookupsAgree(ws.spaces[i].root, pane);
    }
  }

  /** Replacing one tree by one whose new ids are fresh keeps ids fresh. */
  lemma ReplaceKeepsFresh(ws: Ws, space: nat, root: Pane, layout: LayoutMode, nextId: nat)
    requires FreshIds(ws.spaces, ws.nextId) && space < |ws.spaces| && ws.nextId <= nextId
    requires WellFormed(root)
    requires forall id :: id in Ids(root) ==> id in Ids(ws.spaces[space].root) || ws.nextId <= id < nextId
    ensures FreshIds(ws.spaces[space := ws.spaces[space].(root := root, layout := layout)], nextId)
  {
  }

  /** Leaves that stay are still found when one tree is replaced. */
  lemma ReplaceKeepsLeaves(spaces: seq<Space>, space: nat, s: Space, gone: set<nat>)
    requires space < |spaces| && LeafIds(spaces[space].root) - gone <= LeafIds(s.root)
    ensures forall pane :: HasLeaf(spaces, pane) && pane !in gone ==> HasLeaf(spaces[space := s], pane)
  {
    forall pane | HasLeaf(spaces, pane) && pane !in gone ensures HasLeaf(spaces[space := s], pane) {
      var i :| 0 <= i < |spaces| && pane in LeafIds(spaces[i].root);
      assert pane in LeafIds(spaces[space := s][i].root);
    }
  }

  lemma SplitKeeps(env: Env, ws: Ws, pane: nat, axis: SplitDir, kind: Option<ControlKind>, cwd: Option<string>)
    requires Wf(ws)
    ensures var (ws', answer) := SplitPane(env, ws, pane, axis, kind, cwd);
            && Wf(ws')
            && (answer.Err? <==> !HasLeaf(ws.spaces, pane))
            && (answer.Err? ==> ws' == ws && answer == Err(MissingPane(pane)))
            && (answer.Ok? ==>
                  && ws'.nextId == ws.nextId + 2 && ws'.activePane == ws.nextId + 1
                  && ws'.sessions.Keys == ws.sessions.Keys + {ws.nextId + 1}
                  && |ws'.spaces| == |ws.spaces|)
  {
    FoundIsLeaf(ws, pane);
    if HasLeaf(ws.spaces, pane) {
      SplitShape(env, ws, pane, axis, kind, cwd);
      SplitAnswers(env, ws, pane, axis, kind, cwd);
      SplitOwns(env, ws, pane, axis, kind, cwd);
    }
  }

  lemma SplitAnswers(env: Env, ws: Ws, pane: nat, axis: SplitDir, kind: Option<ControlKind>, cwd: Option<string>)
    requires Wf(ws) && HasLeaf(ws.spaces, pane)
    ensures SplitPane(env, ws, pane, axis, kind, cwd).1.Ok?
  {
    SplitGrows(env, ws, pane, axis, kind, cwd);
    var ws' := SplitPane(env, ws, pane, axis, kind, cwd).0;
    LookupsAgree(ws'.spaces[ws'.activeSpace].root, ws.nextId + 1);
  }

  /** The tree a split grew holds the new leaf and stays well-formed. */
  lemma SplitGrows(env: Env, ws: Ws, pane: nat, axis: SplitDir, kind: Option<ControlKind>, cwd: Option<string>)
    requires Wf(ws) && HasLeaf(ws.spaces, pane)
    ensures var ws' := SplitPane(env, ws, pane, axis, kind, cwd).0;
            var space := ws'.activeSpace;
            && space < |ws.spaces| == |ws'.spaces| && SpaceOf(ws.spaces, pane) == Some(space)
            && ws'.spaces == ws.spaces[space := ws.spaces[space].(root := ws'.spaces[space].root)]
            && WellFormed(ws'.spaces[space].root)
            && Ids(ws'.spaces[space].root) == Ids(ws.spaces[space].root) + {ws.nextId, ws.nextId + 1}
            && LeafIds(ws'.spaces[space].root) == LeafIds(ws.spaces[space].root) + {ws.nextId + 1}
  {
    SplitShape(env, ws, pane, axis, kind, cwd);
    var root := ws.spaces[SpaceOf(ws.spaces, pane).value].root;
    SplitLeafEffect(root, pane, axis, ws.nextId, ws.nextId + 1, NewKind(kind, LeafKind(root, pane).value));
  }

  lemma SplitOwns(env: Env, ws: Ws, pane: nat, axis: SplitDir, kind: Option<ControlKind>, cwd: Option<string>)
    requires Wf(ws) && HasLeaf(ws.spaces, pane)
    ensures Wf(SplitPane(env, ws, pane, axis, kind, cwd).0)
  {
    SplitGrows(env, ws, pane, axis, kind, cwd);
    GrownIsWf(ws, SplitPane(env, ws, pane, axis, kind, cwd).0);
  }

  /** A workspace with one tree grown by a focused leaf of its own session. */
  lemma GrownIsWf(ws: Ws, ws': Ws)
    requires Wf(ws) && ws'.activeSpace < |ws.spaces| == |ws'.spaces|
    requires var space, root := ws'.activeSpace, ws'.spaces[ws'.activeSpace].root;
             && ws'.spaces == ws.spaces[space := ws.spaces[space].(root := root)]
             && WellFormed(root) && Ids(root) == Ids(ws.spaces[space].root) + {ws.nextId, ws.nextId + 1}
             && LeafIds(root) == LeafIds(ws.spaces[space].root) + {ws.nextId + 1}
    requires ws'.nextId == ws.nextId + 2 && ws'.activePane == ws.nextId + 1
    requires ws'.sessions.Keys == ws.sessions.Keys + {ws.nextId + 1} && ws'.runtimes == ws.runtimes
    ensures Wf(ws')
  {
    var space := ws'.activeSpace;
    ReplaceKeepsFresh(ws, space, ws'.spaces[space].root, ws.spaces[space].layout, ws.nextId + 2);
    ReplaceKeepsLeaves(ws.spaces, space, ws'.spaces[space], {});
    assert HasLeaf(ws'.spaces, ws.nextId + 1);
  }

  /** A close is refused, changing nothing, for a missing or a lone pane. Else the
      pane and all it owned are gone, with the inbox items about it, and nothing
      else is touched. */
  lemma CloseKeeps(ws: Ws, pane: nat)
    requires Wf(ws)
    ensures var (ws', answer) := ClosePane(ws, pane);
            && Wf(ws')
            && (answer.Err? ==> ws' == ws)
            && (answer.Err? <==> SpaceOf(ws.spaces, pane).None?
                                 || ws.spaces[SpaceOf(ws.spaces, pane).value].root.Leaf?)
            && (answer.Ok? ==>
                  && !HasLeaf(ws'.spaces, pane) && ws'.nextId == ws.nextId && |ws'.spaces| == |ws.spaces|
                  && Forgotten(ws, {pane}, ws')
                  && OthersStay(ws, ws', SpaceOf(ws.spaces, pane).value))
  {
    FoundIsLeaf(ws, pane);
    if SpaceOf(ws.spaces, pane).Some? {
      var space := SpaceOf(ws.spaces, pane).value;
      var root := ws.spaces[space].root;
      RemoveLeafEffect(root, pane);
      if RemoveLeaf(root, pane).Some? {
        CloseShape(ws, pane, space);
        ClosedIsWf(ws, pane, space);
      }
    }
  }

  /** What those panes owned is gone, with the inbox items about them, and nothing else. */
  predicate Forgotten(ws: Ws, gone: set<nat>, r: Ws) {
    && r.sessions == ws.sessions - gone && r.runtimes == ws.runtimes - gone
    && r.inbox == Sparing(ws.inbox, gone)
  }

  predicate OthersStay(ws: Ws, r: Ws, space: nat) {
    |r.spaces| == |ws.spaces| && forall i :: 0 <= i < |ws.spaces| && i != space ==> r.spaces[i] == ws.spaces[i]
  }

  lemma ClosedIsWf(ws: Ws, pane: nat, space: nat)
    requires Wf(ws) && space < |ws.spaces| && pane in LeafIds(ws.spaces[space].root)
    requires RemoveLeaf(ws.spaces[space].root, pane).Some?
    ensures Wf(ClosePane(ws, pane).0) && !HasLeaf(ClosePane(ws, pane).0.spaces, pane)
  {
    var root, ws' := ws.spaces[space].root, ClosePane(ws, pane).0;
    RemoveLeafEffect(root, pane);
    CloseShape(ws, pane, space);
    var shrunk := RemoveLeaf(root, pane).value.0;
    ReplaceKeepsFresh(ws, space, shrunk, ws.spaces[space].layout, ws.nextId);
    ReplaceKeepsLeaves(ws.spaces, space, ws.spaces[space].(root := shrunk), {pane});
    forall i | 0 <= i < |ws'.spaces| ensures pane !in LeafIds(ws'.spaces[i].root) {
      FoundIsLeaf(ws, pane);
      assert i != space ==> ws'.spaces[i] == ws.spaces[i];
    }
  }

  /** A split touches one space only, shows it, and what every other pane is and
      owns stays; the new pane starts where it was split from unless told otherwise. */
  lemma SplitTouchesOneSpace(env: Env, ws: Ws, pane: nat, axis: SplitDir, kind: Option<ControlKind>, cwd: Option<string>)
    requires Wf(ws) && HasLeaf(ws.spaces, pane)
    ensures var ws' := SplitPane(env, ws, pane, axis, kind, cwd).0;
            var newId := ws.nextId + 1;
            && ws'.activeSpace < |ws.spaces| == |ws'.spaces| && pane in LeafIds(ws.spaces[ws'.activeSpace].root)
            && (forall i :: 0 <= i < |ws.spaces| && i != ws'.activeSpace ==> ws'.spaces[i] == ws.spaces[i])
            && LeafIds(ws'.spaces[ws'.activeSpace].root) == LeafIds(ws.spaces[ws'.activeSpace].root) + {newId}
            && ws'.sessions - {newId} == ws.sessions && newId in ws'.sessions && ws'.runtimes == ws.runtimes
            && (cwd.Some? ==> ws'.sessions[newId].path == cwd.value)
            && (cwd.None? && pane in ws.sessions ==> ws'.sessions[newId].path == ws.sessions[pane].path)
  {
    SplitGrows(env, ws, pane, axis, kind, cwd);
    FoundIsLeaf(ws, pane);
    FreshOwnsNothing(ws, ws.nextId + 1);
  }

  /** The tree a split leaves behind. */
  lemma SplitShape(env: Env, ws: Ws, pane: nat, axis: SplitDir, kind: Option<ControlKind>, cwd: Option<string>)
    requires Wf(ws) && HasLeaf(ws.spaces, pane)
    ensures SpaceOf(ws.spaces, pane).Some?
    ensures var space := SpaceOf(ws.spaces, pane).value;
            var root := ws.spaces[space].root;
            && pane in LeafIds(root) && LeafKind(root, pane).Some?
            && var grown := SplitLeaf(root, pane, axis, ws.nextId, ws.nextId + 1, NewKind(kind, LeafKind(root, pane).value));
               var ws' := SplitPane(env, ws, pane, axis, kind, cwd).0;
               grown.Some? && ws'.spaces == ws.spaces[space := ws.spaces[space].(root := grown.value)]
  {
    FoundIsLeaf(ws, pane);
    var root := ws.spaces[SpaceOf(ws.spaces, pane).value].root;
    LookupsAgree(root, pane);
    SplitLeafSucceeds(root, pane, axis, ws.nextId, ws.nextId + 1, NewKind(kind, LeafKind(root, pane).value));
  }

  /** Closing the pane a split just opened gives back every space and everything
      the panes owned, and the focus to the pane it was split from. */
  lemma CloseUndoesSplitVerb(env: Env, ws: Ws, pane: nat, axis: SplitDir, kind: Option<ControlKind>, cwd: Option<string>)
    requires Wf(ws) && HasLeaf(ws.spaces, pane)
    ensures var split := SplitPane(env, ws, pane, axis, kind, cwd).0;
            var (back, answer) := ClosePane(split, ws.nextId + 1);
            && answer == Ok(Closed(ws.nextId + 1))
            && back.spaces == ws.spaces && back.activePane == pane
            && back.sessions == ws.sessions && back.runtimes == ws.runtimes
  {
    SplitShape(env, ws, pane, axis, kind, cwd);
    SplitIsWf(env, ws, pane, axis, kind, cwd);
    SplitRemovable(env, ws, pane, axis, kind, cwd);
    FreshOwnsNothing(ws, ws.nextId + 1);
    var split := SplitPane(env, ws, pane, axis, kind, cwd).0;
    var space := SpaceOf(ws.spaces, pane).value;
    CloseShape(split, ws.nextId + 1, space);
    assert split.spaces[space := split.spaces[space].(root := ws.spaces[space].root)] == ws.spaces;
  }

  lemma SplitIsWf(env: Env, ws: Ws, pane: nat, axis: SplitDir, kind: Option<ControlKind>, cwd: Option<string>)
    requires Wf(ws) && HasLeaf(ws.spaces, pane)
    ensures var ws' := SplitPane(env, ws, pane, axis, kind, cwd).0;
            Wf(ws') && ws'.sessions - {ws.nextId + 1} == ws.sessions && ws'.runtimes == ws.runtimes
  {
    SplitKeeps(env, ws, pane, axis, kind, cwd);
    SplitTouchesOneSpace(env, ws, pane, axis, kind, cwd);
  }

  /** The new leaf can be removed again, and its removal undoes the split. */
  lemma SplitRemovable(env: Env, ws: Ws, pane: nat, axis: SplitDir, kind: Option<ControlKind>, cwd: Option<string>)
    requires Wf(ws) && HasLeaf(ws.spaces, pane) && SpaceOf(ws.spaces, pane).Some?
    ensures var space := SpaceOf(ws.spaces, pane).value;
            var split := SplitPane(env, ws, pane, axis, kind, cwd).0;
            && space < |split.spaces| && ws.nextId + 1 in LeafIds(split.spaces[space].root)
            && RemoveLeaf(split.spaces[space].root, ws.nextId + 1) == Some((ws.spaces[space].root, pane))
  {
    SplitShape(env, ws, pane, axis, kind, cwd);
    var space := SpaceOf(ws.spaces, pane).value;
    var root := ws.spaces[space].root;
    var asked := NewKind(kind, LeafKind(root, pane).value);
    SplitLeafEffect(root, pane, axis, ws.nextId, ws.nextId + 1, asked);
    CloseUndoesSplit(root, pane, axis, ws.nextId, ws.nextId + 1, asked);
  }

  /** What a close leaves behind. */
  lemma CloseShape(ws: Ws, pane: nat, space: nat)
    requires Wf(ws) && space < |ws.spaces| && pane in LeafIds(ws.spaces[space].root)
    requires RemoveLeaf(ws.spaces[space].root, pane).Some?
    ensures var (ws', answer) := ClosePane(ws, pane);
            var (shrunk, next) := RemoveLeaf(ws.spaces[space].root, pane).value;
            && answer == Ok(Closed(pane)) && ws'.activePane == next
            && ws'.spaces == ws.spaces[space := ws.spaces[space].(root := shrunk)]
            && ws'.nextId == ws.nextId && ws'.activeSpace == space && Forgotten(ws, {pane}, ws')
  {
    FoundIsLeaf(ws, pane);
  }

  /** An id not handed out yet is no pane and owns nothing. */
  lemma FreshOwnsNothing(ws: Ws, id: nat)
    requires Wf(ws) && id >= ws.nextId
    ensures !HasLeaf(ws.spaces, id) && id !in ws.sessions && id !in ws.runtimes
  {
    forall i | 0 <= i < |ws.spaces| ensures id !in LeafIds(ws.spaces[i].root) {
      LookupsAgree(ws.spaces[i].root, id);
    }
  }

  lemma FocusKeeps(ws: Ws, pane: nat)
    requires Wf(ws)
    ensures var (ws', answer) := FocusPane(ws, pane);
            && Wf(ws')
            && (answer.Err? <==> !HasLeaf(ws.spaces, pane))
            && (answer.Err? ==> ws' == ws)
            && (answer.Ok? ==> ws'.activePane == pane && ws'.spaces == ws.spaces && answer.value.info.focused)
  {
    FoundIsLeaf(ws, pane);
    if SpaceOf(ws.spaces, pane).Some? {
      LookupsAgree(ws.spaces[SpaceOf(ws.spaces, pane).value].root, pane);
    }
  }

  lemma SwitchKeeps(ws: Ws, space: nat)
    requires Wf(ws)
    ensures var (ws', answer) := SwitchSpace(ws, space);
            && Wf(ws')
            && (answer.Err? <==> space >= |ws.spaces|)
            && (answer.Err? ==> ws' == ws)
            && (answer.Ok? ==> ws'.activeSpace == space && ws'.activePane == FirstLeaf(ws.spaces[space].root))
  {
    if space < |ws.spaces| {
      LookupsAgree(ws.spaces[space].root, 0);
    }
  }

  lemma {:induction false} ForgetOthersEffect(ws: Ws, ids: seq<nat>, keep: nat)
    ensures var r := ForgetOthers(ws, ids, keep);
            && r == ws.(sessions := r.sessions, runtimes := r.runtimes, inbox := r.inbox, maximized := r.maximized)
            && Forgotten(ws, IdSet(ids) - {keep}, r)
  {
    if ids == [] {
      assert IdSet(ids) - {keep} == {};
      SparingNone(ws.inbox);
    } else {
      var front, last := ids[..|ids| - 1], ids[|ids| - 1];
      ForgetOthersEffect(ws, front, keep);
      IdSetSnoc(ids);
      if last == keep {
        assert IdSet(ids) - {keep} == IdSet(front) - {keep};
      } else {
        SparingTwice(ws.inbox, IdSet(front) - {keep}, {last});
        assert IdSet(ids) - {keep} == (IdSet(front) - {keep}) + {last};
      }
    }
  }

  lemma SetLayoutKeeps(ws: Ws, space: nat, kind: LayoutKind)
    requires Wf(ws)
    ensures var (ws', answer) := SetLayout(ws, space, kind);
            && Wf(ws')
            && (answer.Err? <==> space >= |ws.spaces|)
            && (answer.Err? ==> ws' == ws)
            && (answer.Ok? ==> ws'.nextId == ws.nextId && OthersStay(ws, ws', space))
            && (answer.Ok? && kind.Single? ==>
                  ws'.spaces[space].root.Leaf? && ws'.spaces[space].root.id == TargetOf(ws, space))
            && (answer.Ok? && !kind.Single? ==>
                  && Leaves(ws'.spaces[space].root) == Leaves(ws.spaces[space].root)
                  && ws' == ws.(spaces := ws'.spaces))
  {
    if space < |ws.spaces| {
      var s, keep := ws.spaces[space], TargetOf(ws, space);
      LookupsAgree(s.root, ws.activePane);
      LookupsAgree(s.root, FirstLeaf(s.root));
      LookupsAgree(s.root, keep);
      match kind
      case Single => SingleKeeps(ws, space);
      case Rows(dir) =>
        SetDirsKeeps(s.root, dir, 0);
        ReplaceKeepsFresh(ws, space, SetDirs(s.root, dir), Bsp, ws.nextId);
        ReplaceKeepsLeaves(ws.spaces, space, s.(root := SetDirs(s.root, dir), layout := Bsp), {});
      case Mode(mode) =>
        ReplaceKeepsFresh(ws, space, s.root, mode, ws.nextId);
        ReplaceKeepsLeaves(ws.spaces, space, s.(layout := mode), {});
        assert s.(root := s.root, layout := mode) == s.(layout := mode);
    }
  }

  /** A client reads back the layout it asked for exactly when it asked for a single
      pane, for rows of a space that is split, or for a mode other than the plain
      tree: a plain tree answers as what it is. */
  lemma LayoutReadsBackIff(ws: Ws, space: nat, kind: LayoutKind)
    requires Wf(ws) && space < |ws.spaces|
    ensures var answer := SetLayout(ws, space, kind).1;
            && answer.Ok? && answer.value.Layout? && answer.value.space == space
            && (answer.value.kind == kind <==>
                  kind.Single? || (kind.Rows? && ws.spaces[space].root.Split?) || (kind.Mode? && !kind.mode.Bsp?))
            && answer == GetLayout(SetLayout(ws, space, kind).0, space)
  {
    SetLayoutKeeps(ws, space, kind);
    if kind.Rows? {
      SetDirsKeeps(ws.spaces[space].root, kind.dir, 0);
    } else if kind.Single? {
      SingleKeeps(ws, space);
    }
  }

  /** Keeping one pane of a space forgets the others of that space, and only them. */
  lemma SingleKeeps(ws: Ws, space: nat)
    requires Wf(ws) && space < |ws.spaces|
    ensures LeafKind(ws.spaces[space].root, TargetOf(ws, space)).Some?
    ensures var ws' := SetLayout(ws, space, Single).0;
            && Wf(ws') && ws'.nextId == ws.nextId && OthersStay(ws, ws', space)
            && ws'.spaces[space].root == Leaf(TargetOf(ws, space), LeafKind(ws.spaces[space].root, TargetOf(ws, space)).value)
            && Forgotten(ws, LeafIds(ws.spaces[space].root) - {TargetOf(ws, space)}, ws')
  {
    var s, keep := ws.spaces[space], TargetOf(ws, space);
    LookupsAgree(s.root, ws.activePane);
    LookupsAgree(s.root, FirstLeaf(s.root));
    LookupsAgree(s.root, keep);
    LeavesAsSet(s.root);
    ForgetOthersEffect(ws, Leaves(s.root), keep);
    SingleIsWf(ws, space, SetLayout(ws, space, Single).0, LeafKind(s.root, keep).value);
  }

  lemma SingleIsWf(ws: Ws, space: nat, r: Ws, kind: PaneKind)
    requires Wf(ws) && space < |ws.spaces| && TargetOf(ws, space) in LeafIds(ws.spaces[space].root)
    requires r.spaces == ws.spaces[space := ws.spaces[space].(root := Leaf(TargetOf(ws, space), kind), layout := Bsp)]
    requires r.nextId == ws.nextId && r.activeSpace == space && r.activePane == TargetOf(ws, space)
    requires Forgotten(ws, LeafIds(ws.spaces[space].root) - {TargetOf(ws, space)}, r)
    ensures Wf(r)
  {
    var s, keep := ws.spaces[space], TargetOf(ws, space);
    LookupsAgree(s.root, keep);
    ReplaceKeepsFresh(ws, space, Leaf(keep, kind), Bsp, ws.nextId);
    ReplaceKeepsLeaves(ws.spaces, space, r.spaces[space], LeafIds(s.root) - {keep});
    forall pane | pane in r.sessions || pane in r.runtimes ensures HasLeaf(r.spaces, pane) {
      assert HasLeaf(ws.spaces, pane);
    }
  }

  lemma LeavesAsSet(p: Pane)
    ensures IdSet(Leaves(p)) == LeafIds(p)
  {
    forall id ensures id in Leaves(p) <==> id in LeafIds(p) {
      LookupsAgree(p, id);
    }
  }

  lemma PromptKeeps(env: Env, ws: Ws, pane: nat)
    requires Wf(ws) && HasLeaf(ws.spaces, pane)
    ensures Wf(Prompt(ws, env, pane))
  {
  }

  ghost predicate FirstWith(items: seq<InboxItem>, id: string, k: nat) {
    k < |items| && items[k].id == id && forall j :: 0 <= j < k ==> items[j].id != id
  }

  /** What an acknowledgement does: it marks the first item of that id and counts
      it if it was unread. */
  lemma {:induction false} AckMarksOne(items: seq<InboxItem>, id: string)
    ensures var r := AckFrom(items, id);
            r.Some? ==> exists k: nat :: FirstWith(items, id, k)
                              && r.value.0 == items[k := items[k].(acknowledged := true)]
                              && r.value.1 == if items[k].acknowledged then 0 else 1
  {
    if items != [] && items[0].id != id {
      AckMarksOne(items[1..], id);
      var r := AckFrom(items[1..], id);
      if r.Some? {
        var k: nat :| FirstWith(items[1..], id, k)
          && r.value.0 == items[1..][k := items[1..][k].(acknowledged := true)]
          && r.value.1 == if items[1..][k].acknowledged then 0 else 1;
        forall j | 0 <= j < k + 1 ensures items[j].id != id {
          assert j > 0 ==> items[j] == items[1..][j - 1];
        }
        assert items[k + 1] == items[1..][k] && FirstWith(items, id, k + 1);
        assert AckFrom(items, id).value.0 == items[k + 1 := items[k + 1].(acknowledged := true)];
      }
    }
  }

  /** Acknowledging everything leaves nothing unread. */
  lemma {:induction false} AckAllReadsAll(items: seq<InboxItem>)
    ensures Unread(AckAll(items)) == 0
  {
    if items != [] {
      AckAllReadsAll(items[..|items| - 1]);
      assert AckAll(items)[..|items| - 1] == AckAll(items[..|items| - 1]);
    }
  }

  ghost predicate ShellLess(spaces: seq<Space>, pane: nat) {
    exists i :: 0 <= i < |spaces| && pane in LeafIds(spaces[i].root) &&
      var kind := LeafKind(spaces[i].root, pane);
      kind.Some? && (kind.value.Worker? || kind.value.File? || kind.value.Settings?)
  }

  ghost predicate OnlyPane(spaces: seq<Space>, pane: nat) {
    exists i :: 0 <= i < |spaces| && spaces[i].root.Leaf? && spaces[i].root.id == pane
  }

  /** When a verb is refused, in terms of what is on screen. */
  ghost predicate Refused(env: Env, ws: Ws, command: Command) {
    match command
    case PanesNew(asked, _, _) => asked.Some? && asked.value >= |ws.spaces|
    case PanesSplit(pane, _) => !HasLeaf(ws.spaces, pane)
    case PanesClose(pane) => !HasLeaf(ws.spaces, pane) || OnlyPane(ws.spaces, pane)
    case PanesFocus(pane) => !HasLeaf(ws.spaces, pane)
    case PanesSend(pane, _, _) => !HasLeaf(ws.spaces, pane) || ShellLess(ws.spaces, pane) || !env.shell.Running?
    case PanesResize(pane, cols, rows) =>
      cols == 0 || rows == 0 || !HasLeaf(ws.spaces, pane) || ShellLess(ws.spaces, pane) || env.shell.NoSession?
    case SpacesSwitch(space) => space >= |ws.spaces|
    case AgentsState(target) => target.Some? && !HasLeaf(ws.spaces, target.value)
    case AgentsPrompt(pane, _) => !HasLeaf(ws.spaces, pane)
    case InboxAck(id, all) =>
      !all && (id.None? || forall k :: 0 <= k < |ws.inbox| ==> ws.inbox[k].id != id.value)
    case LayoutGet(space) => space >= |ws.spaces|
    case LayoutSet(space, _) => space >= |ws.spaces|
    case PtyVerb => true
    case _ => false
  }

  /** From a well-formed workspace every verb leaves a well-formed workspace. */
  lemma VerbKeepsWf(env: Env, ws: Ws, command: Command)
    requires Wf(ws)
    ensures Wf(Handle(env, ws, command).0)
  {
    match command
    case PanesNew(asked, cwd, wanted) =>
      var space := if asked.Some? then asked.value else ws.activeSpace;
      if space < |ws.spaces| {
        SplitKeeps(env, ws, TargetOf(ws, space), Horizontal, Some(if wanted.Some? then wanted.value else ControlTerminal), cwd);
      }
    case PanesSplit(pane, axis) => SplitKeeps(env, ws, pane, axis, None, None);
    case PanesClose(pane) => CloseKeeps(ws, pane);
    case PanesFocus(pane) => FocusKeeps(ws, pane);
    case SpacesSwitch(space) => SwitchKeeps(ws, space);
    case AgentsPrompt(pane, _) =>
      FoundIsLeaf(ws, pane);
      if HasLeaf(ws.spaces, pane) { PromptKeeps(env, ws, pane); }
    case LayoutSet(space, kind) => SetLayoutKeeps(ws, space, kind);
    case _ =>
  }

  /** A verb answers an error exactly when it is refused, so none of the lookups
      made after a mutation ever fails. */
  lemma ErrorsAreRefusals(env: Env, ws: Ws, command: Command)
    requires Wf(ws)
    ensures Handle(env, ws, command).1.Err? <==> Refused(env, ws, command)
  {
    if command.PanesNew? || command.PanesSplit? {
      SplitErrors(env, ws, command);
    } else if command.PanesClose? || command.PanesFocus? {
      PaneErrors(env, ws, command);
    } else if command.PanesSend? || command.PanesResize? || command.AgentsState? || command.AgentsPrompt? {
      ShellErrors(env, ws, command);
    } else {
      SpaceErrors(env, ws, command);
    }
  }

  lemma SplitErrors(env: Env, ws: Ws, command: Command)
    requires Wf(ws) && (command.PanesNew? || command.PanesSplit?)
    ensures Handle(env, ws, command).1.Err? <==> Refused(env, ws, command)
  {
    if command.PanesSplit? {
      SplitKeeps(env, ws, command.pane, command.axis, None, None);
    } else {
      var space := if command.asked.Some? then command.asked.value else ws.activeSpace;
      if space < |ws.spaces| {
        TargetIsLeaf(ws, space);
        SplitKeeps(env, ws, TargetOf(ws, space), Horizontal,
                   Some(if command.wanted.Some? then command.wanted.value else ControlTerminal), command.cwd);
      }
    }
  }

  lemma PaneErrors(env: Env, ws: Ws, command: Command)
    requires Wf(ws) && (command.PanesClose? || command.PanesFocus?)
    ensures Handle(env, ws, command).1.Err? <==> Refused(env, ws, command)
  {
    FoundIsLeaf(ws, command.pane);
    if command.PanesClose? {
      CloseKeeps(ws, command.pane);
      OnlyPaneIsRoot(ws, command.pane);
    } else {
      FocusKeeps(ws, command.pane);
    }
  }

  lemma ShellErrors(env: Env, ws: Ws, command: Command)
    requires Wf(ws) && (command.PanesSend? || command.PanesResize? || command.AgentsState? || command.AgentsPrompt?)
    ensures Handle(env, ws, command).1.Err? <==> Refused(env, ws, command)
  {
    if command.AgentsState? {
      if command.target.Some? {
        FoundIsLeaf(ws, command.target.value);
      }
    } else {
      FoundIsLeaf(ws, command.pane);
    }
  }

  lemma SpaceErrors(env: Env, ws: Ws, command: Command)
    requires Wf(ws)
    requires !command.PanesNew? && !command.PanesSplit? && !command.PanesClose? && !command.PanesFocus?
    requires !command.PanesSend? && !command.PanesResize? && !command.AgentsState? && !command.AgentsPrompt?
    ensures Handle(env, ws, command).1.Err? <==> Refused(env, ws, command)
  {
    if command.SpacesSwitch? {
      SwitchKeeps(ws, command.space);
    } else if command.LayoutSet? {
      SetLayoutKeeps(ws, command.space, command.kind);
    }
  }

  lemma TargetIsLeaf(ws: Ws, space: nat)
    requires space < |ws.spaces|
    ensures HasLeaf(ws.spaces, TargetOf(ws, space))
  {
    LookupsAgree(ws.spaces[space].root, ws.activePane);
    assert TargetOf(ws, space) in LeafIds(ws.spaces[space].root);
  }

  lemma OnlyPaneIsRoot(ws: Ws, pane: nat)
    requires Wf(ws)
    ensures var r := SpaceOf(ws.spaces, pane);
            r.Some? ==> (OnlyPane(ws.spaces, pane) <==> ws.spaces[r.value].root.Leaf?)
  {
    FoundIsLeaf(ws, pane);
  }

  /** All or nothing: a verb that answers an error has changed nothing at all. */
  lemma ErrorsChangeNothing(env: Env, ws: Ws, command: Command)
    requires Wf(ws) && Handle(env, ws, command).1.Err?
    ensures Handle(env, ws, command).0 == ws
  {
    match command
    case PanesNew(asked, cwd, wanted) =>
      var space := if asked.Some? then asked.value else ws.activeSpace;
      if space < |ws.spaces| {
        SplitKeeps(env, ws, TargetOf(ws, space), Horizontal, Some(if wanted.Some? then wanted.value else ControlTerminal), cwd);
      }
    case PanesSplit(pane, axis) => SplitKeeps(env, ws, pane, axis, None, None);
    case PanesClose(pane) => CloseKeeps(ws, pane);
    case PanesFocus(pane) => FocusKeeps(ws, pane);
    case SpacesSwitch(space) => SwitchKeeps(ws, space);
    case LayoutSet(space, kind) => SetLayoutKeeps(ws, space, kind);
    case _ =>
  }

  /** The leaves of the first `n` spaces, in tab and tree order. */
  function LeavesAt(spaces: seq<Space>): nat -> seq<nat> {
    (k: nat) => if k < |spaces| then Leaves(spaces[k].root) else []
  }

  function AllLeaves(spaces: seq<Space>, n: nat): seq<nat> {
    Joined(LeavesAt(spaces), n)
  }

  lemma {:induction false} PaneIdsAppend(a: seq<PaneInfo>, b: seq<PaneInfo>)
    ensures PaneIds(a + b) == PaneIds(a) + PaneIds(b)
  {
    if b == [] {
      assert a + b == a;
    } else {
      PaneIdsAppend(a, b[..|b| - 1]);
      assert (a + b)[..|a + b| - 1] == a + b[..|b| - 1];
    }
  }

  /** Each listed pane reports what its leaf is. */
  ghost predicate Reports(ws: Ws, info: PaneInfo) {
    && info.space < |ws.spaces| && info.pane in LeafIds(ws.spaces[info.space].root)
    && InfoOf(ws, info.space, info.pane) == Ok(info)
  }

  ghost predicate AllReport(ws: Ws, infos: seq<PaneInfo>) {
    infos == [] || (AllReport(ws, infos[..|infos| - 1]) && Reports(ws, infos[|infos| - 1]))
  }

  lemma {:induction false} ReportAt(ws: Ws, infos: seq<PaneInfo>, k: nat)
    requires AllReport(ws, infos) && k < |infos|
    ensures Reports(ws, infos[k])
  {
    if k < |infos| - 1 {
      ReportAt(ws, infos[..|infos| - 1], k);
    }
  }

  lemma {:induction false} InfosReport(ws: Ws, space: nat, ids: seq<nat>)
    requires space < |ws.spaces| && forall k :: 0 <= k < |ids| ==> ids[k] in LeafIds(ws.spaces[space].root)
    ensures PaneIds(InfosOf(ws, space, ids)) == ids
    ensures AllReport(ws, InfosOf(ws, space, ids))
  {
    if ids != [] {
      var rest, id := ids[..|ids| - 1], ids[|ids| - 1];
      InfosReport(ws, space, rest);
      LookupsAgree(ws.spaces[space].root, id);
      var infos := InfosOf(ws, space, ids);
      assert infos[..|infos| - 1] == InfosOf(ws, space, rest);
    }
  }

  lemma {:induction false} ReportTogether(ws: Ws, a: seq<PaneInfo>, b: seq<PaneInfo>)
    requires AllReport(ws, a) && AllReport(ws, b)
    ensures AllReport(ws, a + b)
  {
    if b == [] {
      assert a + b == a;
    } else {
      ReportTogether(ws, a, b[..|b| - 1]);
      assert (a + b)[..|a + b| - 1] == a + b[..|b| - 1];
    }
  }

  /** One space's part of the list. */
  lemma SpacePartIs(ws: Ws, space: nat)
    requires space < |ws.spaces|
    ensures PaneIds(SpacePart(ws)(space)) == LeavesAt(ws.spaces)(space) && AllReport(ws, SpacePart(ws)(space))
  {
    var ids := Leaves(ws.spaces[space].root);
    forall k | 0 <= k < |ids| ensures ids[k] in LeafIds(ws.spaces[space].root) {
      LookupsAgree(ws.spaces[space].root, ids[k]);
    }
    InfosReport(ws, space, ids);
  }

  lemma {:induction false} JoinedIds(part: nat -> seq<PaneInfo>, ids: nat -> seq<nat>, n: nat)
    requires forall k: nat :: k < n ==> PaneIds(part(k)) == ids(k)
    ensures PaneIds(Joined(part, n)) == Joined(ids, n)
  {
    if n > 0 {
      JoinedIds(part, ids, n - 1);
      PaneIdsAppend(Joined(part, n - 1), part(n - 1));
    }
  }

  lemma {:induction false} JoinedReport(ws: Ws, part: nat -> seq<PaneInfo>, n: nat)
    requires forall k: nat :: k < n ==> AllReport(ws, part(k))
    ensures AllReport(ws, Joined(part, n))
  {
    if n > 0 {
      JoinedReport(ws, part, n - 1);
      ReportTogether(ws, Joined(part, n - 1), part(n - 1));
    }
  }

  lemma PanesAreLeaves(ws: Ws)
    ensures PaneIds(AllPanes(ws)) == AllLeaves(ws.spaces, |ws.spaces|) && AllReport(ws, AllPanes(ws))
  {
    var part, ids := SpacePart(ws), LeavesAt(ws.spaces);
    forall k: nat | k < |ws.spaces| ensures PaneIds(part(k)) == ids(k) && AllReport(ws, part(k)) {
      SpacePartIs(ws, k);
    }
    JoinedIds(part, ids, |ws.spaces|);
    JoinedReport(ws, part, |ws.spaces|);
  }

  lemma AllLeavesDistinct(ws: Ws)
    requires FreshIds(ws.spaces, ws.nextId)
    ensures Distinct(AllLeaves(ws.spaces, |ws.spaces|))
    ensures forall id :: id in AllLeaves(ws.spaces, |ws.spaces|) <==> HasLeaf(ws.spaces, id)
  {
    var part, n := LeavesAt(ws.spaces), |ws.spaces|;
    forall k: nat | k < n ensures Distinct(part(k)) && forall id :: id in part(k) <==> id in LeafIds(ws.spaces[k].root) {
      LeavesDistinct(ws.spaces[k].root);
      LeavesAsSet(ws.spaces[k].root);
      assert forall id :: id in part(k) <==> id in IdSet(part(k));
    }
    forall i: nat, j: nat, id | i < j < n && id in part(i) ensures id !in part(j) {
      LookupsAgree(ws.spaces[i].root, id);
      LookupsAgree(ws.spaces[j].root, id);
    }
    JoinedDistinct(part, n);
    forall id ensures id in AllLeaves(ws.spaces, n) <==> HasLeaf(ws.spaces, id) {
      InJoined(part, n, id);
    }
  }

  /** The pane list shows every leaf once, in order, says what each is, and marks
      exactly the focused one. */
  lemma PaneListIsTheWorkspace(ws: Ws)
    requires Wf(ws)
    ensures var infos := AllPanes(ws);
            && PaneIds(infos) == AllLeaves(ws.spaces, |ws.spaces|) && Distinct(PaneIds(infos))
            && (forall id :: id in PaneIds(infos) <==> HasLeaf(ws.spaces, id))
            && (forall k :: 0 <= k < |infos| ==> Reports(ws, infos[k]))
            && (forall k :: 0 <= k < |infos| ==> (infos[k].focused <==> infos[k].pane == ws.activePane))
            && ws.activePane in PaneIds(infos)
  {
    PaneListIds(ws);
    PaneListReports(ws);
  }

  lemma PaneListIds(ws: Ws)
    requires Wf(ws)
    ensures PaneIds(AllPanes(ws)) == AllLeaves(ws.spaces, |ws.spaces|) && Distinct(PaneIds(AllPanes(ws)))
    ensures forall id :: id in PaneIds(AllPanes(ws)) <==> HasLeaf(ws.spaces, id)
    ensures ws.activePane in PaneIds(AllPanes(ws))
  {
    PanesAreLeaves(ws);
    AllLeavesDistinct(ws);
    assert HasLeaf(ws.spaces, ws.activePane);
  }

  lemma PaneListReports(ws: Ws)
    requires Wf(ws)
    ensures forall k :: 0 <= k < |AllPanes(ws)| ==> Reports(ws, AllPanes(ws)[k])
    ensures forall k :: 0 <= k < |AllPanes(ws)| ==> (AllPanes(ws)[k].focused <==> AllPanes(ws)[k].pane == ws.activePane)
  {
    PanesAreLeaves(ws);
    forall k | 0 <= k < |AllPanes(ws)|
      ensures Reports(ws, AllPanes(ws)[k]) && (AllPanes(ws)[k].focused <==> AllPanes(ws)[k].pane == ws.activePane)
    {
      ReportAt(ws, AllPanes(ws), k);
      FocusReported(ws, AllPanes(ws)[k]);
    }
  }

  /** Only the pane with the focus is in its place. */
  lemma FocusReported(ws: Ws, info: PaneInfo)
    requires Wf(ws) && Reports(ws, info)
    ensures info.focused <==> info.pane == ws.activePane
  {
    FoundIsLeaf(ws, ws.activePane);
  }
}
