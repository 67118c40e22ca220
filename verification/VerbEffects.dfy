/**
 What each control verb does, read off the workspace before and after it: the trees
 node by node, the focus, what the panes own, and the answer.
 */
module VerbEffects {
  import opened Base
  import opened PaneTree
  import opened PaneNodes
  import opened Workspace
  import opened WorkspaceProofs
  import opened TabProofs
  import opened Maximized

  predicate InSpace(ws: Ws, space: nat, pane: nat) {
    space < |ws.spaces| && pane in LeafIds(ws.spaces[space].root)
  }

  /** What is shown of a pane. */
  predicate Described(ws: Ws, info: PaneInfo) {
    && info.space < |ws.spaces|
    && (match NodeAt(ws.spaces[info.space].root, info.pane)
        case Some(LeafAt(kind)) => info.kind == KindName(kind)
        case _ => false)
    && info.cwd == (if info.pane in ws.sessions && !Blank(ws.sessions[info.pane].path)
                    then Some(ws.sessions[info.pane].path) else None)
    && (info.focused <==> ws.activeSpace == info.space && ws.activePane == info.pane)
    && (info.inActiveSpace <==> ws.activeSpace == info.space)
  }

  lemma InfoDescribes(ws: Ws, space: nat, pane: nat)
    requires Wf(ws) && InSpace(ws, space, pane)
    ensures var info := InfoOf(ws, space, pane);
            info.Ok? && info.value.pane == pane && info.value.space == space && Described(ws, info.value)
  {
    LookupsAgree(ws.spaces[space].root, pane);
    LeafNodes(ws.spaces[space].root, pane);
  }

  // ---- Splits ----

  /** The tree after `target` was split: one new node of direction `dir`, halved, with
      the target before the new leaf, hangs where the target hung; the rest is as it was. */
  ghost predicate Halved(before: Pane, after: Pane, target: nat, dir: SplitDir, n: nat, kind: PaneKind) {
    && WellFormed(after) && after.id == Link(before.id, target, n)
    && NodeAt(after, n) == Some(SplitAt(dir, 0.5, target, n + 1))
    && NodeAt(after, n + 1) == Some(LeafAt(kind))
    && forall id :: id != n && id != n + 1 ==> NodeAt(after, id) == Relinked(NodeAt(before, id), target, n)
  }

  /** A pane was opened beside `target`: focused, expanded over by nothing, with a
      session of its own, and shown as such; nothing else changed. */
  ghost predicate OpenedBeside(env: Env, ws: Ws, r: Ws, answer: Answer, space: nat, target: nat, dir: SplitDir, kind: PaneKind, path: string) {
    var n := ws.nextId;
    && InSpace(ws, space, target) && |r.spaces| == |ws.spaces|
    && Halved(ws.spaces[space].root, r.spaces[space].root, target, dir, n, kind)
    && r == ws.(spaces := ws.spaces[space := ws.spaces[space].(root := r.spaces[space].root)], nextId := n + 2,
                activeSpace := space, activePane := n + 1, maximized := None,
                sessions := ws.sessions[n + 1 := Session(if kind == Chat then env.freshConversation else "", "", path, "")])
    && answer == Ok(OnePane(PaneInfo(n + 1, space, KindName(kind), if Blank(path) then None else Some(path), true, true)))
  }

  lemma GrownIsHalved(ws: Ws, space: nat, target: nat, dir: SplitDir, kind: PaneKind)
    requires Wf(ws) && InSpace(ws, space, target)
    ensures var grown := SplitLeaf(ws.spaces[space].root, target, dir, ws.nextId, ws.nextId + 1, kind);
            && grown.Some? && LeafKind(grown.value, ws.nextId + 1) == Some(kind)
            && Halved(ws.spaces[space].root, grown.value, target, dir, ws.nextId, kind)
  {
    var root, n := ws.spaces[space].root, ws.nextId;
    SplitLeafSucceeds(root, target, dir, n, n + 1, kind);
    SplitLeafEffect(root, target, dir, n, n + 1, kind);
    SplitLeafNodes(root, target, dir, n, n + 1, kind, n);
    var after := SplitLeaf(root, target, dir, n, n + 1, kind).value;
    forall id ensures NodeAt(after, id) == NodeAfterSplit(root, target, dir, n, n + 1, kind, id) {
      SplitLeafNodes(root, target, dir, n, n + 1, kind, id);
    }
  }

  lemma SplitOpens(env: Env, ws: Ws, space: nat, pane: nat, axis: SplitDir, asked: Option<ControlKind>, cwd: Option<string>, kind: PaneKind)
    requires Wf(ws) && InSpace(ws, space, pane)
    requires LeafKind(ws.spaces[space].root, pane).Some? && kind == NewKind(asked, LeafKind(ws.spaces[space].root, pane).value)
    ensures var (r, answer) := SplitPane(env, ws, pane, axis, asked, cwd);
            OpenedBeside(env, ws, r, answer, space, pane, axis, kind,
                   if cwd.Some? then cwd.value else if pane in ws.sessions then ws.sessions[pane].path else env.defaultPath)
  {
    FoundIsLeaf(ws, pane);
    FreshOwnsNothing(ws, ws.nextId + 1);
    GrownIsHalved(ws, space, pane, axis, kind);
    assert HasLeaf(ws.spaces, ws.activePane) && HasLeaf(ws.spaces, pane);
  }

  /** The kind of the pane a split opens: its own when that is a chat or a terminal. */
  lemma PanesSplitOpens(env: Env, ws: Ws, space: nat, pane: nat, axis: SplitDir)
    requires Wf(ws) && InSpace(ws, space, pane)
    ensures var (r, answer) := Handle(env, ws, PanesSplit(pane, axis));
            OpenedBeside(env, ws, r, answer, space, pane, axis,
                   if NodeAt(ws.spaces[space].root, pane) == Some(LeafAt(Chat)) then Chat else Terminal,
                   if pane in ws.sessions then ws.sessions[pane].path else env.defaultPath)
  {
    LookupsAgree(ws.spaces[space].root, pane);
    LeafNodes(ws.spaces[space].root, pane);
    var kind := if NodeAt(ws.spaces[space].root, pane) == Some(LeafAt(Chat)) then Chat else Terminal;
    SplitOpens(env, ws, space, pane, axis, None, None, kind);
  }

  /** The top and left pane of a tree. */
  function TopLeft(p: Pane): nat {
    LookupsAgree(p, 0);
    Leaves(p)[0]
  }

  /** The pane a verb aimed at a space acts on: the focused one, when that space is on
      screen, else its first. */
  lemma TargetIs(ws: Ws, space: nat)
    requires Wf(ws) && space < |ws.spaces|
    ensures TargetOf(ws, space) == if space == ws.activeSpace then ws.activePane else TopLeft(ws.spaces[space].root)
    ensures InSpace(ws, space, TargetOf(ws, space))
  {
    LookupsAgree(ws.spaces[space].root, ws.activePane);
  }

  /** A new pane is a split to the right, a terminal unless a chat is asked for. */
  lemma PanesNewOpens(env: Env, ws: Ws, asked: Option<nat>, cwd: Option<string>, wanted: Option<ControlKind>)
    requires Wf(ws) && (asked.Some? ==> asked.value < |ws.spaces|)
    ensures var (r, answer) := Handle(env, ws, PanesNew(asked, cwd, wanted));
            var space := if asked.Some? then asked.value else ws.activeSpace;
            var target := if space == ws.activeSpace then ws.activePane else TopLeft(ws.spaces[space].root);
            OpenedBeside(env, ws, r, answer, space, target, Horizontal, if wanted == Some(ControlChat) then Chat else Terminal,
                   if cwd.Some? then cwd.value else if target in ws.sessions then ws.sessions[target].path else env.defaultPath)
  {
    var space := if asked.Some? then asked.value else ws.activeSpace;
    TargetIs(ws, space);
    LookupsAgree(ws.spaces[space].root, TargetOf(ws, space));
    SplitOpens(env, ws, space, TargetOf(ws, space), Horizontal, Some(if wanted.Some? then wanted.value else ControlTerminal), cwd,
               if wanted == Some(ControlChat) then Chat else Terminal);
  }

  // ---- Closes and the focus ----

  /** The tree after `target` was closed: it and the split it hung in are gone, what hung
      beside it hangs in the split's place; the rest is as it was. */
  ghost predicate Collapsed(before: Pane, after: Pane, target: nat, parent: nat, sibling: Pane) {
    && Beside(before, target, parent, sibling) && WellFormed(after) && after.id == Link(before.id, parent, sibling.id)
    && NodeAt(after, target) == None && NodeAt(after, parent) == None
    && forall id :: id != target && id != parent ==> NodeAt(after, id) == Relinked(NodeAt(before, id), parent, sibling.id)
  }

  lemma ClosedCollapses(ws: Ws, space: nat, pane: nat) returns (parent: nat, sibling: Pane)
    requires Wf(ws) && InSpace(ws, space, pane) && ws.spaces[space].root.Split?
    ensures var shrunk := RemoveLeaf(ws.spaces[space].root, pane);
            && shrunk.Some? && shrunk.value.1 == FirstLeaf(sibling)
            && Collapsed(ws.spaces[space].root, shrunk.value.0, pane, parent, sibling)
  {
    RemoveLeafEffect(ws.spaces[space].root, pane);
    parent, sibling := RemoveLeafNodes(ws.spaces[space].root, pane);
  }

  /** A pane was closed: the focus is on the first pane of what hung beside it, in its
      own space; what it owned is gone, and an expansion of it or of a pane that gave up
      the focus; nothing else changed. */
  lemma PanesCloseDoes(env: Env, ws: Ws, space: nat, pane: nat) returns (parent: nat, sibling: Pane)
    requires Wf(ws) && InSpace(ws, space, pane) && ws.spaces[space].root.Split?
    ensures var (r, answer) := Handle(env, ws, PanesClose(pane));
            && |r.spaces| == |ws.spaces| && Collapsed(ws.spaces[space].root, r.spaces[space].root, pane, parent, sibling)
            && r == ws.(spaces := ws.spaces[space := ws.spaces[space].(root := r.spaces[space].root)],
                        activeSpace := space, activePane := TopLeft(sibling),
                        maximized := if TopLeft(sibling) != ws.activePane || ws.maximized == Some(pane) then None
                                     else ws.maximized,
                        sessions := ws.sessions - {pane}, runtimes := ws.runtimes - {pane},
                        inbox := Sparing(ws.inbox, {pane}))
            && answer == Ok(Closed(pane))
  {
    FoundIsLeaf(ws, pane);
    assert HasLeaf(ws.spaces, pane);
    parent, sibling := ClosedCollapses(ws, space, pane);
    LookupsAgree(sibling, 0);
  }

  /** The focus alone was moved; an expansion of another pane is taken back. */
  predicate FocusMoved(ws: Ws, r: Ws, space: nat, pane: nat) {
    r == ws.(activeSpace := space, activePane := pane, maximized := if pane == ws.activePane then ws.maximized else None)
  }

  lemma PanesFocusDoes(env: Env, ws: Ws, space: nat, pane: nat)
    requires Wf(ws) && InSpace(ws, space, pane)
    ensures var (r, answer) := Handle(env, ws, PanesFocus(pane));
            && FocusMoved(ws, r, space, pane) && answer.Ok? && answer.value.OnePane?
            && answer.value.info.pane == pane && answer.value.info.space == space && Described(r, answer.value.info)
  {
    FoundIsLeaf(ws, pane);
    assert HasLeaf(ws.spaces, pane);
    FocusKeeps(ws, pane);
    InfoDescribes(Handle(env, ws, PanesFocus(pane)).0, space, pane);
  }

  /** What is shown of a space: a plain tree is a single pane or rows of its top split. */
  predicate SpaceDescribed(ws: Ws, space: nat, info: SpaceInfo) {
    && space < |ws.spaces| && info.space == space && info.medium == ws.spaces[space].medium
    && info.paneCount == |Leaves(ws.spaces[space].root)| && (info.active <==> ws.activeSpace == space)
    && ShownLayout(ws.spaces[space], info.layout)
  }

  predicate ShownLayout(space: Space, shown: LayoutKind) {
    if space.layout != Bsp then shown == Mode(space.layout)
    else match Top(space.root)
      case LeafAt(_) => shown == Single
      case SplitAt(dir, _, _, _) => shown == Rows(dir)
  }

  lemma SpaceInfoDescribes(ws: Ws, space: nat)
    requires space < |ws.spaces|
    ensures SpaceInfoOf(ws, space).Some? && SpaceDescribed(ws, space, SpaceInfoOf(ws, space).value)
  {
    LookupsAgree(ws.spaces[space].root, 0);
  }

  lemma SpacesSwitchDoes(env: Env, ws: Ws, space: nat)
    requires Wf(ws) && space < |ws.spaces|
    ensures var (r, answer) := Handle(env, ws, SpacesSwitch(space));
            && FocusMoved(ws, r, space, TopLeft(ws.spaces[space].root))
            && answer.Ok? && answer.value.OneSpace? && SpaceDescribed(r, space, answer.value.shown)
  {
    LookupsAgree(ws.spaces[space].root, 0);
    SpaceInfoDescribes(Handle(env, ws, SpacesSwitch(space)).0, space);
  }

  // ---- What is only read ----

  lemma {:induction false} SpaceListDescribes(ws: Ws, n: nat)
    requires n <= |ws.spaces|
    ensures |SpaceInfos(ws, n)| == n && forall k :: 0 <= k < n ==> SpaceDescribed(ws, k, SpaceInfos(ws, n)[k])
  {
    if n > 0 {
      SpaceListDescribes(ws, n - 1);
      SpaceInfoDescribes(ws, n - 1);
    }
  }

  lemma SpacesListShows(env: Env, ws: Ws)
    ensures var (r, answer) := Handle(env, ws, SpacesList);
            && r == ws && answer.Ok? && answer.value.Spaces? && |answer.value.infos| == |ws.spaces|
            && forall k :: 0 <= k < |ws.spaces| ==> SpaceDescribed(ws, k, answer.value.infos[k])
  {
    SpaceListDescribes(ws, |ws.spaces|);
  }

  /** The pane list: every pane once, by tab and in tree order, each described. */
  lemma PanesListShows(env: Env, ws: Ws)
    requires Wf(ws)
    ensures var (r, answer) := Handle(env, ws, PanesList);
            && r == ws && answer.Ok? && answer.value.Panes?
            && PaneIds(answer.value.panes) == AllLeaves(ws.spaces, |ws.spaces|)
            && forall k :: 0 <= k < |answer.value.panes| ==> Described(ws, answer.value.panes[k])
  {
    PaneListIsTheWorkspace(ws);
    var infos := AllPanes(ws);
    forall k | 0 <= k < |infos| ensures Described(ws, infos[k]) {
      assert Reports(ws, infos[k]);
      InfoDescribes(ws, infos[k].space, infos[k].pane);
    }
  }

  lemma AgentsStateShows(env: Env, ws: Ws, target: Option<nat>)
    requires Wf(ws) && (target.Some? ==> HasLeaf(ws.spaces, target.value))
    ensures Handle(env, ws, AgentsState(target))
         == (ws, Ok(Agents(if target.Some? then [target.value] else AllLeaves(ws.spaces, |ws.spaces|))))
  {
    PaneListIsTheWorkspace(ws);
    if target.Some? {
      FoundIsLeaf(ws, target.value);
    }
  }

  // ---- Layouts ----

  /** What a client is shown at an id of a layout, and the ids below it. */
  datatype ShownNode =
    | LeafShown(kind: string)
    | SplitShown(axis: SplitDir, ratio: real, first: nat, second: nat)

  function IdOf(n: LayoutNode): nat {
    match n
    case LeafNode(id, _) => id
    case SplitNode(id, _, _, _, _) => id
  }

  function ShownIds(n: LayoutNode): set<nat> {
    match n
    case LeafNode(id, _) => {id}
    case SplitNode(id, _, _, first, second) => {id} + ShownIds(first) + ShownIds(second)
  }

  function ShownAt(n: LayoutNode, id: nat): Option<ShownNode> {
    if id == IdOf(n) then
      match n
      case LeafNode(_, kind) => Some(LeafShown(kind))
      case SplitNode(_, axis, ratio, first, second) => Some(SplitShown(axis, ratio, IdOf(first), IdOf(second)))
    else if n.LeafNode? then None
    else if id in ShownIds(n.first) then ShownAt(n.first, id)
    else ShownAt(n.second, id)
  }

  /** A layout shows the tree, node by node. */
  lemma {:induction false} LayoutShowsNodes(p: Pane, id: nat)
    ensures IdOf(NodeOf(p)) == p.id && ShownIds(NodeOf(p)) == Ids(p)
    ensures ShownAt(NodeOf(p), id) == match NodeAt(p, id)
                                      case None => None
                                      case Some(LeafAt(kind)) => Some(LeafShown(KindName(kind)))
                                      case Some(SplitAt(dir, ratio, a, b)) => Some(SplitShown(dir, ratio, a, b))
  {
    if p.Split? {
      LayoutShowsNodes(p.first, id);
      LayoutShowsNodes(p.second, id);
    }
  }

  /** The answer shows the space's layout, its tree, and the pane a verb aimed at the
      space acts on. */
  ghost predicate LayoutShown(ws: Ws, space: nat, answer: Answer) {
    && space < |ws.spaces| && answer.Ok? && answer.value.Layout? && answer.value.space == space
    && ShownLayout(ws.spaces[space], answer.value.kind)
    && answer.value.activePane == (if space == ws.activeSpace then ws.activePane else TopLeft(ws.spaces[space].root))
    && IdOf(answer.value.root) == ws.spaces[space].root.id
    && forall id :: ShownAt(answer.value.root, id) == match NodeAt(ws.spaces[space].root, id)
                                                      case None => None
                                                      case Some(LeafAt(kind)) => Some(LeafShown(KindName(kind)))
                                                      case Some(SplitAt(dir, ratio, a, b)) => Some(SplitShown(dir, ratio, a, b))
  }

  lemma GetShows(ws: Ws, space: nat)
    requires Wf(ws) && space < |ws.spaces|
    ensures LayoutShown(ws, space, GetLayout(ws, space))
  {
    TargetIs(ws, space);
    LayoutShowsNodes(ws.spaces[space].root, 0);
    forall id ensures ShownAt(NodeOf(ws.spaces[space].root), id) == match NodeAt(ws.spaces[space].root, id)
                                                      case None => None
                                                      case Some(LeafAt(kind)) => Some(LeafShown(KindName(kind)))
                                                      case Some(SplitAt(dir, ratio, a, b)) => Some(SplitShown(dir, ratio, a, b))
    {
      LayoutShowsNodes(ws.spaces[space].root, id);
    }
  }

  lemma LayoutGetShows(env: Env, ws: Ws, space: nat)
    requires Wf(ws) && space < |ws.spaces|
    ensures var (r, answer) := Handle(env, ws, LayoutGet(space)); r == ws && LayoutShown(ws, space, answer)
  {
    GetShows(ws, space);
  }

  /** Every split of the tree turned, and nothing else. */
  ghost predicate Turned(before: Pane, after: Pane, dir: SplitDir) {
    && after.id == before.id
    && forall id :: NodeAt(after, id) == match NodeAt(before, id)
                                         case Some(SplitAt(_, ratio, a, b)) => Some(SplitAt(dir, ratio, a, b))
                                         case other => other
  }

  lemma SetDirsTurns(p: Pane, dir: SplitDir)
    ensures Turned(p, SetDirs(p, dir), dir)
  {
    SetDirsNodes(p, dir, 0);
    forall id ensures NodeAt(SetDirs(p, dir), id) == match NodeAt(p, id)
                                         case Some(SplitAt(_, ratio, a, b)) => Some(SplitAt(dir, ratio, a, b))
                                         case other => other
    {
      SetDirsNodes(p, dir, id);
    }
  }

  /** Rows turn the tree and make it plain; a mode only changes the mode. */
  lemma LayoutSetDoes(env: Env, ws: Ws, space: nat, kind: LayoutKind)
    requires Wf(ws) && space < |ws.spaces| && !kind.Single?
    ensures var (r, answer) := Handle(env, ws, LayoutSet(space, kind));
            && |r.spaces| == |ws.spaces| && LayoutShown(r, space, answer)
            && r == ws.(spaces := ws.spaces[space := r.spaces[space]])
            && if kind.Mode? then r.spaces[space] == ws.spaces[space].(layout := kind.mode)
               else
                 && r.spaces[space] == ws.spaces[space].(root := r.spaces[space].root, layout := Bsp)
                 && Turned(ws.spaces[space].root, r.spaces[space].root, kind.dir)
  {
    SetLayoutKeeps(ws, space, kind);
    GetShows(SetLayout(ws, space, kind).0, space);
    if kind.Rows? {
      SetDirsTurns(ws.spaces[space].root, kind.dir);
    }
  }

  /** A single layout keeps the pane it acts on, focused, in a plain tree of its own;
      what the other panes of that space owned is gone, and nothing else changed. */
  lemma LayoutSingleDoes(env: Env, ws: Ws, space: nat)
    requires Wf(ws) && space < |ws.spaces|
    ensures var (r, answer) := Handle(env, ws, LayoutSet(space, Single));
            var s := ws.spaces[space];
            var keep := if space == ws.activeSpace then ws.activePane else TopLeft(s.root);
            var gone := LeafIds(s.root) - {keep};
            && |r.spaces| == |ws.spaces| && LayoutShown(r, space, answer)
            && r.spaces[space] == s.(root := r.spaces[space].root, layout := Bsp)
            && r.spaces[space].root.Leaf? && r.spaces[space].root.id == keep
            && NodeAt(s.root, keep) == Some(LeafAt(r.spaces[space].root.kind))
            && r == ws.(spaces := ws.spaces[space := r.spaces[space]], activeSpace := space, activePane := keep,
                        maximized := if keep != ws.activePane || (ws.maximized.Some? && ws.maximized.value in gone) then None
                                     else ws.maximized,
                        sessions := ws.sessions - gone, runtimes := ws.runtimes - gone, inbox := Sparing(ws.inbox, gone))
  {
    TargetIs(ws, space);
    SingleKeeps(ws, space);
    GetShows(SetLayout(ws, space, Single).0, space);
    var s, keep := ws.spaces[space], TargetOf(ws, space);
    LookupsAgree(s.root, keep);
    LeafNodes(s.root, keep);
    LeavesAsSet(s.root);
    ForgetOthersEffect(ws, Leaves(s.root), keep);
    ForgetOthersMaximized(ws, Leaves(s.root), keep);
  }

  // ---- The inbox and the agents ----

  function UnreadAt(items: seq<InboxItem>): set<nat> {
    set k: nat | k < |items| && !items[k].acknowledged
  }

  lemma {:induction false} UnreadCounts(items: seq<InboxItem>)
    ensures Unread(items) == |UnreadAt(items)|
  {
    if items != [] {
      var front, n := items[..|items| - 1], |items| - 1;
      UnreadCounts(front);
      assert UnreadAt(items) == UnreadAt(front) + if items[n].acknowledged then {} else {n};
    }
  }

  /** Acknowledging everything marks every item and counts those that were unread. */
  lemma AckAllDoes(env: Env, ws: Ws, id: Option<string>)
    ensures var (r, answer) := Handle(env, ws, InboxAck(id, true));
            && r == ws.(inbox := r.inbox) && |r.inbox| == |ws.inbox|
            && (forall k :: 0 <= k < |ws.inbox| ==> r.inbox[k] == ws.inbox[k].(acknowledged := true))
            && answer == Ok(Acknowledged(|UnreadAt(ws.inbox)|))
  {
    UnreadCounts(ws.inbox);
  }

  /** Acknowledging one marks the first item of its id, and counts it if it was unread. */
  lemma AckOneDoes(env: Env, ws: Ws, id: string, k: nat)
    requires FirstWith(ws.inbox, id, k)
    ensures Handle(env, ws, InboxAck(Some(id), false))
         == (ws.(inbox := ws.inbox[k := ws.inbox[k].(acknowledged := true)]),
             Ok(Acknowledged(if ws.inbox[k].acknowledged then 0 else 1)))
  {
    AckMarksOne(ws.inbox, id);
    assert AckFrom(ws.inbox, id).Some?;
    var j: nat :| FirstWith(ws.inbox, id, j)
      && AckFrom(ws.inbox, id).value.0 == ws.inbox[j := ws.inbox[j].(acknowledged := true)]
      && AckFrom(ws.inbox, id).value.1 == if ws.inbox[j].acknowledged then 0 else 1;
    assert j == k;
  }

  /** A prompt starts a turn if and only if a model can run, the pane has a conversation
      and the turn could be issued: the answer says so, and the pane has turn state.
      The conversation is recorded on the pane whenever a model can run. */
  lemma AgentsPromptDoes(env: Env, ws: Ws, pane: nat, text: string)
    requires Wf(ws) && HasLeaf(ws.spaces, pane)
    ensures var (r, answer) := Handle(env, ws, AgentsPrompt(pane, text));
            var starts := env.canRun && env.started && env.conversation.Some?;
            && r == ws.(sessions := r.sessions, runtimes := r.runtimes) && answer == Ok(Prompted(pane, starts))
            && r.runtimes == (if starts then ws.runtimes + {pane} else ws.runtimes)
            && r.sessions - {pane} == ws.sessions - {pane}
            && if env.canRun && env.conversation.Some? && env.conversation.value != ""
               then pane in r.sessions && r.sessions[pane].conversationId == env.conversation.value
                    && (pane in ws.sessions ==>
                          r.sessions[pane] == ws.sessions[pane].(conversationId := env.conversation.value))
               else r.sessions == ws.sessions
  {
    FoundIsLeaf(ws, pane);
  }

  /** The terminal verbs answer for a running shell, and change nothing in any case. */
  lemma ShellVerbsAnswer(env: Env, ws: Ws, pane: nat, text: string, enter: bool, cols: nat, rows: nat)
    requires Wf(ws)
    ensures var (r, answer) := Handle(env, ws, PanesSend(pane, text, enter));
            r == ws && (answer.Ok? ==> answer.value == Sent(pane, |text| + if enter then 1 else 0))
    ensures var (r, answer) := Handle(env, ws, PanesResize(pane, cols, rows));
            r == ws && (answer.Ok? ==> answer.value == Done)
    ensures Handle(env, ws, InboxList) == (ws, Ok(InboxItems(ws.inbox)))
  {
  }

  // ---- The errors ----

  /** Which error a refused verb answers. */
  ghost predicate Explains(env: Env, ws: Ws, command: Command, e: Error)
    requires Refused(env, ws, command)
  {
    match command
    case PanesNew(asked, _, _) => e == MissingSpace(asked.value)
    case PanesSplit(pane, _) => e == MissingPane(pane)
    case PanesClose(pane) => e == if HasLeaf(ws.spaces, pane) then Unsupported else MissingPane(pane)
    case PanesFocus(pane) => e == MissingPane(pane)
    case PanesSend(pane, _, _) =>
      e == if !HasLeaf(ws.spaces, pane) then MissingPane(pane)
           else if ShellLess(ws.spaces, pane) || env.shell.Exited? then Unsupported else Internal
    case PanesResize(pane, cols, rows) =>
      e == if cols == 0 || rows == 0 then InvalidRequest
           else if !HasLeaf(ws.spaces, pane) then MissingPane(pane)
           else if ShellLess(ws.spaces, pane) then Unsupported else Internal
    case SpacesSwitch(space) => e == MissingSpace(space)
    case AgentsState(target) => e == MissingPane(target.value)
    case AgentsPrompt(pane, _) => e == MissingPane(pane)
    case InboxAck(id, _) => e == if id.None? then InvalidRequest else MissingItem(id.value)
    case LayoutGet(space) => e == MissingSpace(space)
    case LayoutSet(space, _) => e == MissingSpace(space)
    case _ => e == Internal
  }

  lemma RefusalsExplain(env: Env, ws: Ws, command: Command)
    requires Wf(ws) && Refused(env, ws, command)
    ensures Handle(env, ws, command).1.Err? && Explains(env, ws, command, Handle(env, ws, command).1.error)
  {
    ErrorsAreRefusals(env, ws, command);
    match command
    case PanesSplit(pane, axis) => SplitKeeps(env, ws, pane, axis, None, None);
    case PanesClose(pane) => FoundIsLeaf(ws, pane);
    case PanesFocus(pane) => FoundIsLeaf(ws, pane);
    case PanesSend(pane, _, _) => FoundIsLeaf(ws, pane);
    case PanesResize(pane, _, _) => FoundIsLeaf(ws, pane);
    case AgentsState(target) => FoundIsLeaf(ws, target.value);
    case AgentsPrompt(pane, _) => FoundIsLeaf(ws, pane);
    case _ =>
  }

  // ---- Tabs ----

  /** A closed tab takes what its panes owned. The tab on screen stays there; when it was
      the one closed, the next takes its place, the one before when it was the last. The
      focus is on that tab's first pane. */
  lemma CloseTabDoes(env: Env, ws: ShownWs, index: nat)
    requires Wf(ws) && index < |ws.spaces| && |ws.spaces| > 1
    ensures var r := Perform(ws, env, CloseTab(index));
            var gone := LeafIds(ws.spaces[index].root);
            var active := if index < ws.activeSpace || (index == ws.activeSpace && index == |ws.spaces| - 1) then ws.activeSpace - 1
                          else ws.activeSpace;
            && active < |r.spaces|
            && r == ws.(spaces := ws.spaces[..index] + ws.spaces[index + 1..], activeSpace := active,
                        activePane := TopLeft(r.spaces[active].root), sessions := ws.sessions - gone,
                        runtimes := ws.runtimes - gone, inbox := Sparing(ws.inbox, gone))
  {
    CloseSpaceShape(env, ws, index);
    CloseSpaceOwned(env, ws, index);
    var r := CloseSpaceAt(env, ws, index);
    LookupsAgree(r.spaces[r.activeSpace].root, 0);
  }

  /** The last tab is replaced by a chat of its own, in a conversation of its own. */
  lemma CloseLastTabDoes(env: Env, ws: ShownWs)
    requires Wf(ws) && |ws.spaces| == 1
    ensures var r, n := Perform(ws, env, CloseTab(0)), ws.nextId;
            var gone := LeafIds(ws.spaces[0].root);
            r == ws.(spaces := [Space(Leaf(n, Chat), Bsp, "local")], nextId := n + 1, activeSpace := 0, activePane := n,
                     sessions := (ws.sessions - gone)[n := Session(env.freshConversation, "", "", "")],
                     runtimes := ws.runtimes - gone, inbox := Sparing(ws.inbox, gone))
  {
    var rest := ws.spaces[..0] + ws.spaces[1..];
    LeavesAsSet(ws.spaces[0].root);
    ForgetAllInbox(ws.(spaces := rest), Leaves(ws.spaces[0].root));
  }

  /** A tab that is not there cannot be closed, and one tab has no others to close. */
  lemma NoTabNoChange(env: Env, ws: ShownWs, index: nat)
    ensures index >= |ws.spaces| ==> Perform(ws, env, CloseTab(index)) == ws && Perform(ws, env, CloseOtherTabs(index)) == ws
    ensures |ws.spaces| == 1 && index == 0 ==> Perform(ws, env, CloseOtherTabs(index)) == ws
  {
    if |ws.spaces| == 1 && index == 0 {
      CloseDownNone(env, ws, 1);
      CloseDownNone(env, ws, 0);
    }
  }
}
