/**
 The workspace the control verbs and the tab menu act on: spaces holding pane
 trees, the focus, the fresh-id counter and what each pane owns. The functions
 here say what each verb does; `UiState` performs them in place.
 */
module Workspace {
  import opened Base
  import opened PaneTree
  import D = Descents

  datatype LayoutMode = Bsp | MasterStack | Floating | Carousel

  datatype Space = Space(root: Pane, layout: LayoutMode, medium: string)

  datatype Session = Session(conversationId: string, draft: string, path: string, daemonSessionId: string)

  datatype InboxItem = InboxItem(id: string, pane: nat, acknowledged: bool)

  /** `runtimes` are the panes with live turn state. */
  datatype Ws = Ws(spaces: seq<Space>, activeSpace: nat, activePane: nat, nextId: nat,
                   sessions: map<nat, Session>, runtimes: set<nat>, maximized: Option<nat>,
                   inbox: seq<InboxItem>)

  datatype ControlKind = ControlChat | ControlTerminal

  datatype LayoutKind = Single | Rows(dir: SplitDir) | Mode(mode: LayoutMode)

  datatype Command =
    | PanesList
    | PanesNew(asked: Option<nat>, cwd: Option<string>, wanted: Option<ControlKind>)
    | PanesSplit(pane: nat, axis: SplitDir)
    | PanesClose(pane: nat)
    | PanesFocus(pane: nat)
    | PanesSend(pane: nat, text: string, enter: bool)
    | PanesResize(pane: nat, cols: nat, rows: nat)
    | SpacesList
    | SpacesSwitch(space: nat)
    | AgentsState(target: Option<nat>)
    | AgentsPrompt(pane: nat, text: string)
    | InboxList
    | InboxAck(id: Option<string>, all: bool)
    | LayoutGet(space: nat)
    | LayoutSet(space: nat, kind: LayoutKind)
    | PtyVerb

  datatype PaneInfo = PaneInfo(pane: nat, space: nat, kind: string, cwd: Option<string>, focused: bool,
                               inActiveSpace: bool)

  datatype SpaceInfo = SpaceInfo(space: nat, medium: string, paneCount: nat, layout: LayoutKind, active: bool)

  datatype Payload =
    | Panes(panes: seq<PaneInfo>)
    | OnePane(info: PaneInfo)
    | Closed(pane: nat)
    | Spaces(infos: seq<SpaceInfo>)
    | OneSpace(shown: SpaceInfo)
    | Layout(space: nat, kind: LayoutKind, activePane: nat, root: LayoutNode)
    | Agents(ids: seq<nat>)
    | Prompted(pane: nat, started: bool)
    | InboxItems(items: seq<InboxItem>)
    | Acknowledged(count: nat)
    | Sent(pane: nat, bytes: nat)
    | Done

  datatype Error =
    | MissingPane(pane: nat)
    | MissingSpace(space: nat)
    | MissingItem(id: string)
    | Unsupported
    | InvalidRequest
    | Internal

  /** A pane's shell, as the terminal registry answers. */
  datatype Shell = NoSession | Exited | Running

  /** What a verb meets outside the workspace: the store's next conversation id,
      the default directory, the terminal, and how a prompt's turn goes. */
  datatype Env = Env(freshConversation: string, defaultPath: string, shell: Shell, canRun: bool,
                     conversation: Option<string>, started: bool)

  type Answer = Result<Payload, Error>

  /** The first space that holds the pane. */
  function SpaceOf(spaces: seq<Space>, pane: nat): (r: Option<nat>)
    ensures r.Some? ==> r.value < |spaces| && ContainsLeaf(spaces[r.value].root, pane)
    ensures r.None? ==> forall i :: 0 <= i < |spaces| ==> !ContainsLeaf(spaces[i].root, pane)
  {
    if spaces == [] then None
    else if SpaceOf(spaces[..|spaces| - 1], pane).Some? then SpaceOf(spaces[..|spaces| - 1], pane)
    else if ContainsLeaf(spaces[|spaces| - 1].root, pane) then Some(|spaces| - 1)
    else None
  }

  function InfoOf(ws: Ws, space: nat, pane: nat): Result<PaneInfo, Error> {
    if space >= |ws.spaces| then Err(MissingPane(pane))
    else match LeafKind(ws.spaces[space].root, pane)
      case None => Err(MissingPane(pane))
      case Some(kind) =>
        var cwd := if pane in ws.sessions && !Blank(ws.sessions[pane].path) then Some(ws.sessions[pane].path) else None;
        Ok(PaneInfo(pane, space, KindName(kind), cwd, ws.activeSpace == space && ws.activePane == pane,
                    ws.activeSpace == space))
  }

  function InfosOf(ws: Ws, space: nat, ids: seq<nat>): seq<PaneInfo> {
    if ids == [] then []
    else
      InfosOf(ws, space, ids[..|ids| - 1]) +
      match InfoOf(ws, space, ids[|ids| - 1]) { case Ok(info) => [info] case Err(_) => [] }
  }

  /** One space's panes, in tree order. */
  function SpacePart(ws: Ws): nat -> seq<PaneInfo> {
    (k: nat) => if k < |ws.spaces| then InfosOf(ws, k, Leaves(ws.spaces[k].root)) else []
  }

  /** The panes of the first `n` spaces, in tab and tree order. */
  function PanesOf(ws: Ws, n: nat): seq<PaneInfo> {
    Joined(SpacePart(ws), n)
  }

  lemma PanesStep(ws: Ws, n: nat)
    requires n < |ws.spaces|
    ensures PanesOf(ws, n + 1) == PanesOf(ws, n) + InfosOf(ws, n, Leaves(ws.spaces[n].root))
  {
  }

  function AllPanes(ws: Ws): seq<PaneInfo> {
    PanesOf(ws, |ws.spaces|)
  }

  lemma AllPanesIs(ws: Ws)
    ensures AllPanes(ws) == PanesOf(ws, |ws.spaces|) && PanesOf(ws, 0) == []
  {
  }

  function LayoutOf(space: Space): LayoutKind {
    if space.layout.Bsp?
    then (if space.root.Leaf? then Single else Rows(space.root.dir))
    else Mode(space.layout)
  }

  function SpaceInfoOf(ws: Ws, space: nat): Option<SpaceInfo> {
    if space >= |ws.spaces| then None
    else
      var s := ws.spaces[space];
      Some(SpaceInfo(space, s.medium, LeafCount(s.root), LayoutOf(s), ws.activeSpace == space))
  }

  function SpaceInfos(ws: Ws, n: nat): seq<SpaceInfo>
    requires n <= |ws.spaces|
  {
    if n == 0 then [] else SpaceInfos(ws, n - 1) + [SpaceInfoOf(ws, n - 1).value]
  }

  /** The pane a verb aimed at a space acts on. */
  function TargetOf(ws: Ws, space: nat): nat
    requires space < |ws.spaces|
  {
    if ws.activeSpace == space && ContainsLeaf(ws.spaces[space].root, ws.activePane) then ws.activePane
    else FirstLeaf(ws.spaces[space].root)
  }

  /** Moving the focus takes the expansion away from another pane. */
  function Focus(ws: Ws, pane: nat): Ws {
    ws.(activePane := pane, maximized := if ws.activePane != pane then None else ws.maximized)
  }

  /** The items of panes that stay, in order. */
  function Sparing(items: seq<InboxItem>, gone: set<nat>): seq<InboxItem> {
    if items == [] then []
    else
      var rest := Sparing(items[..|items| - 1], gone);
      if items[|items| - 1].pane in gone then rest else rest + [items[|items| - 1]]
  }

  lemma {:induction false} SparingTwice(items: seq<InboxItem>, a: set<nat>, b: set<nat>)
    ensures Sparing(Sparing(items, a), b) == Sparing(items, a + b)
  {
    if items != [] {
      var front, last := items[..|items| - 1], items[|items| - 1];
      SparingTwice(front, a, b);
      if last.pane !in a {
        var kept := Sparing(front, a);
        assert (kept + [last])[..|kept + [last]| - 1] == kept;
      }
    }
  }

  lemma {:induction false} SparingNone(items: seq<InboxItem>)
    ensures Sparing(items, {}) == items
  {
    if items != [] {
      SparingNone(items[..|items| - 1]);
    }
  }

  /** What is left is what is not of a pane that is gone. */
  lemma {:induction false} InSparing(items: seq<InboxItem>, gone: set<nat>, item: InboxItem)
    ensures item in Sparing(items, gone) <==> item in items && item.pane !in gone
  {
    if items != [] {
      InSparing(items[..|items| - 1], gone, item);
      assert items == items[..|items| - 1] + [items[|items| - 1]];
    }
  }

  /** A pane that is gone owns nothing. */
  function Forget(ws: Ws, pane: nat): Ws {
    ws.(sessions := ws.sessions - {pane}, runtimes := ws.runtimes - {pane},
        inbox := Sparing(ws.inbox, {pane}))
  }

  function IdSet(ids: seq<nat>): set<nat> {
    set id | id in ids
  }

  function ForgetAll(ws: Ws, ids: seq<nat>): (r: Ws)
    ensures r == ws.(sessions := r.sessions, runtimes := r.runtimes, inbox := r.inbox)
    ensures r.sessions == ws.sessions - IdSet(ids) && r.runtimes == ws.runtimes - IdSet(ids)
  {
    if ids == [] then ws else Forget(ForgetAll(ws, ids[..|ids| - 1]), ids[|ids| - 1])
  }

  lemma IdSetSnoc(ids: seq<nat>)
    requires ids != []
    ensures IdSet(ids) == IdSet(ids[..|ids| - 1]) + {ids[|ids| - 1]}
  {
    assert ids == ids[..|ids| - 1] + [ids[|ids| - 1]];
  }

  lemma {:induction false} ForgetAllInbox(ws: Ws, ids: seq<nat>)
    ensures ForgetAll(ws, ids).inbox == Sparing(ws.inbox, IdSet(ids))
  {
    if ids == [] {
      assert IdSet(ids) == {};
      SparingNone(ws.inbox);
      assert ForgetAll(ws, ids) == ws;
    } else {
      ForgetAllInbox(ws, ids[..|ids| - 1]);
      SparingTwice(ws.inbox, IdSet(ids[..|ids| - 1]), {ids[|ids| - 1]});
      IdSetSnoc(ids);
    }
  }

  /** The kind a split's new leaf gets. */
  function NewKind(asked: Option<ControlKind>, target: PaneKind): PaneKind {
    match asked
    case Some(ControlChat) => Chat
    case Some(ControlTerminal) => Terminal
    case None => if target.Chat? || target.Terminal? then target else Terminal
  }

  function WithRoot(ws: Ws, space: nat, root: Pane): Ws
    requires space < |ws.spaces|
  {
    ws.(spaces := ws.spaces[space := ws.spaces[space].(root := root)])
  }

  function PathOf(env: Env, ws: Ws, pane: nat): string {
    if pane in ws.sessions then ws.sessions[pane].path else env.defaultPath
  }

  /** Show the tree a split grew, with the new leaf focused and a session of its own. */
  function OpenLeaf(env: Env, ws: Ws, space: nat, grown: Pane, path: string): Ws
    requires space < |ws.spaces|
  {
    var newId := ws.nextId + 1;
    var conversation := if LeafKind(grown, newId) == Some(Chat) then env.freshConversation else "";
    Focus(WithRoot(ws, space, grown).(nextId := ws.nextId + 2, activeSpace := space), newId)
      .(sessions := ws.sessions[newId := Session(conversation, "", path, "")])
  }

  function SplitPane(env: Env, ws: Ws, pane: nat, axis: SplitDir, kind: Option<ControlKind>, cwd: Option<string>): (Ws, Answer) {
    match SpaceOf(ws.spaces, pane)
    case None => (ws, Err(MissingPane(pane)))
    case Some(space) =>
      var root := ws.spaces[space].root;
      match LeafKind(root, pane)
      case None => (ws, Err(MissingPane(pane)))
      case Some(target) =>
        var newId := ws.nextId + 1;
        match SplitLeaf(root, pane, axis, ws.nextId, newId, NewKind(kind, target))
        case None => (ws, Err(Unsupported))
        case Some(grown) =>
          var ws' := OpenLeaf(env, ws, space, grown, if cwd.Some? then cwd.value else PathOf(env, ws, pane));
          (ws', match InfoOf(ws', space, newId) { case Ok(info) => Ok(OnePane(info)) case Err(e) => Err(e) })
  }

  function ClosePane(ws: Ws, pane: nat): (Ws, Answer) {
    match SpaceOf(ws.spaces, pane)
    case None => (ws, Err(MissingPane(pane)))
    case Some(space) =>
      match RemoveLeaf(ws.spaces[space].root, pane)
      case None => (ws, Err(Unsupported))
      case Some((root, next)) =>
        var gone := Forget(WithRoot(ws, space, root), pane);
        var shrunk := gone.(maximized := if ws.maximized == Some(pane) then None else ws.maximized,
                            activeSpace := space);
        (Focus(shrunk, next), Ok(Closed(pane)))
  }

  function FocusPane(ws: Ws, pane: nat): (Ws, Answer) {
    match SpaceOf(ws.spaces, pane)
    case None => (ws, Err(MissingPane(pane)))
    case Some(space) =>
      var ws' := Focus(ws.(activeSpace := space), pane);
      (ws', match InfoOf(ws', space, pane) { case Ok(info) => Ok(OnePane(info)) case Err(e) => Err(e) })
  }

  function SwitchSpace(ws: Ws, space: nat): (Ws, Answer) {
    if space >= |ws.spaces| then (ws, Err(MissingSpace(space)))
    else
      var ws' := Focus(ws.(activeSpace := space), FirstLeaf(ws.spaces[space].root));
      (ws', match SpaceInfoOf(ws', space) { case Some(info) => Ok(OneSpace(info)) case None => Err(MissingSpace(space)) })
  }

  function GetLayout(ws: Ws, space: nat): Answer {
    if space >= |ws.spaces| then Err(MissingSpace(space))
    else Ok(Layout(space, LayoutOf(ws.spaces[space]), TargetOf(ws, space), NodeOf(ws.spaces[space].root)))
  }

  /** Forget every listed pane but one; an expansion of a forgotten pane ends. */
  function ForgetOthers(ws: Ws, ids: seq<nat>, keep: nat): Ws {
    if ids == [] then ws
    else
      var rest := ForgetOthers(ws, ids[..|ids| - 1], keep);
      var id := ids[|ids| - 1];
      if id == keep then rest
      else Forget(rest.(maximized := if rest.maximized == Some(id) then None else rest.maximized), id)
  }

  function SetLayout(ws: Ws, space: nat, kind: LayoutKind): (Ws, Answer) {
    if space >= |ws.spaces| then (ws, Err(MissingSpace(space)))
    else
      var keep := TargetOf(ws, space);
      var s := ws.spaces[space];
      match kind
      case Single =>
        (match LeafKind(s.root, keep)
         case None => (ws, Err(MissingPane(keep)))
         case Some(k) =>
           var alone := ForgetOthers(ws, Leaves(s.root), keep);
           var ws' := Focus(alone.(spaces := ws.spaces[space := s.(root := Leaf(keep, k), layout := Bsp)],
                                   activeSpace := space), keep);
           (ws', GetLayout(ws', space)))
      case Rows(dir) =>
        var ws' := ws.(spaces := ws.spaces[space := s.(root := SetDirs(s.root, dir), layout := Bsp)]);
        (ws', GetLayout(ws', space))
      case Mode(mode) =>
        var ws' := ws.(spaces := ws.spaces[space := s.(layout := mode)]);
        (ws', GetLayout(ws', space))
  }

  /** The terminal verbs change nothing here; they need a pane with a shell. */
  function NeedsShell(ws: Ws, pane: nat, env: Env, answer: Payload): Answer {
    match SpaceOf(ws.spaces, pane)
    case None => Err(MissingPane(pane))
    case Some(space) =>
      match LeafKind(ws.spaces[space].root, pane)
      case Some(Worker) => Err(Unsupported)
      case Some(File(_)) => Err(Unsupported)
      case Some(Settings(_)) => Err(Unsupported)
      case _ => if env.shell.NoSession? then Err(Internal) else Ok(answer)
  }

  function Send(ws: Ws, env: Env, pane: nat, text: string, enter: bool): Answer {
    var sent := NeedsShell(ws, pane, env, Sent(pane, |text| + if enter then 1 else 0));
    if sent.Ok? && env.shell.Exited? then Err(Unsupported) else sent
  }

  /** A prompt's turn: its conversation is recorded on the pane before it starts,
      and a started turn gives the pane live turn state. */
  function Prompt(ws: Ws, env: Env, pane: nat): Ws {
    if !env.canRun then ws
    else
      var recorded :=
        if env.conversation.None? || env.conversation.value == "" then ws
        else
          var session := if pane in ws.sessions then ws.sessions[pane] else Session("", "", "", "");
          ws.(sessions := ws.sessions[pane := session.(conversationId := env.conversation.value)]);
      if env.started && env.conversation.Some? then recorded.(runtimes := recorded.runtimes + {pane}) else recorded
  }

  /** Mark the first item with this id, or every item. */
  function AckFrom(items: seq<InboxItem>, id: string): (r: Option<(seq<InboxItem>, nat)>)
    ensures r.Some? ==> |r.value.0| == |items|
    ensures r.None? <==> forall k :: 0 <= k < |items| ==> items[k].id != id
  {
    if items == [] then None
    else if items[0].id == id then
      Some(([items[0].(acknowledged := true)] + items[1..], if items[0].acknowledged then 0 else 1))
    else match AckFrom(items[1..], id)
      case None => None
      case Some((rest, n)) => Some(([items[0]] + rest, n))
  }

  function AckAll(items: seq<InboxItem>): seq<InboxItem> {
    seq(|items|, k requires 0 <= k < |items| => items[k].(acknowledged := true))
  }

  function Unread(items: seq<InboxItem>): nat {
    if items == [] then 0
    else Unread(items[..|items| - 1]) + if items[|items| - 1].acknowledged then 0 else 1
  }

  function AckInbox(ws: Ws, id: Option<string>, all: bool): (Ws, Answer) {
    if all then (ws.(inbox := AckAll(ws.inbox)), Ok(Acknowledged(Unread(ws.inbox))))
    else match id
      case None => (ws, Err(InvalidRequest))
      case Some(i) =>
        match AckFrom(ws.inbox, i)
        case None => (ws, Err(MissingItem(i)))
        case Some((items, n)) => (ws.(inbox := items), Ok(Acknowledged(n)))
  }

  /** Run one verb on the UI thread. */
  function Handle(env: Env, ws: Ws, command: Command): (Ws, Answer) {
    match command
    case PanesList => (ws, Ok(Panes(AllPanes(ws))))
    case PanesNew(asked, cwd, kind) =>
      var space := if asked.Some? then asked.value else ws.activeSpace;
      if space >= |ws.spaces| then (ws, Err(MissingSpace(space)))
      else SplitPane(env, ws, TargetOf(ws, space), Horizontal,
                     Some(if kind.Some? then kind.value else ControlTerminal), cwd)
    case PanesSplit(pane, axis) => SplitPane(env, ws, pane, axis, None, None)
    case PanesClose(pane) => ClosePane(ws, pane)
    case PanesFocus(pane) => FocusPane(ws, pane)
    case PanesSend(pane, text, enter) => (ws, Send(ws, env, pane, text, enter))
    case PanesResize(pane, cols, rows) =>
      (ws, if cols == 0 || rows == 0 then Err(InvalidRequest) else NeedsShell(ws, pane, env, Done))
    case SpacesList => (ws, Ok(Spaces(SpaceInfos(ws, |ws.spaces|))))
    case SpacesSwitch(space) => SwitchSpace(ws, space)
    case AgentsState(target) =>
      (ws, match target
           case None => Ok(Agents(PaneIds(AllPanes(ws))))
           case Some(pane) => if SpaceOf(ws.spaces, pane).None? then Err(MissingPane(pane)) else Ok(Agents([pane])))
    case AgentsPrompt(pane, _) =>
      if SpaceOf(ws.spaces, pane).None? then (ws, Err(MissingPane(pane)))
      else (Prompt(ws, env, pane), Ok(Prompted(pane, env.canRun && env.started && env.conversation.Some?)))
    case InboxList => (ws, Ok(InboxItems(ws.inbox)))
    case InboxAck(id, all) => AckInbox(ws, id, all)
    case LayoutGet(space) => (ws, GetLayout(ws, space))
    case LayoutSet(space, kind) => SetLayout(ws, space, kind)
    case PtyVerb => (ws, Err(Internal))
  }

  function PaneIds(infos: seq<PaneInfo>): seq<nat> {
    if infos == [] then [] else PaneIds(infos[..|infos| - 1]) + [infos[|infos| - 1].pane]
  }

  /** The one-pane workspace the app starts with. */
  const START := Ws([Space(Leaf(1, Chat), Bsp, "local")], 0, 1, 2, map[], {}, None, [])

  /** A workspace with a space on screen. */
  type ShownWs = ws: Ws | ws.activeSpace < |ws.spaces| witness START

  /** A fresh space in place of the last tab. */
  function Reset(env: Env, ws: Ws): ShownWs {
    var id := ws.nextId;
    ws.(spaces := [Space(Leaf(id, Chat), Bsp, "local")], nextId := id + 1, activeSpace := 0, activePane := id,
        sessions := ws.sessions[id := Session(env.freshConversation, "", "", "")])
  }

  /** The tab on screen after the one at `index` has gone, and its first leaf. */
  function Reindexed(ws: Ws, index: nat): ShownWs
    requires ws.spaces != [] && ws.activeSpace <= |ws.spaces| && index <= |ws.spaces|
  {
    var active := if index < ws.activeSpace then ws.activeSpace - 1
                  else if index == ws.activeSpace && ws.activeSpace > |ws.spaces| - 1 then |ws.spaces| - 1
                  else ws.activeSpace;
    ws.(activeSpace := active, activePane := FirstLeaf(ws.spaces[active].root))
  }

  /** Close the tab at `index`: its panes own nothing any more; the last tab is
      replaced by a fresh one. */
  function CloseSpaceAt(env: Env, ws: ShownWs, index: nat): ShownWs {
    if index >= |ws.spaces| then ws
    else
      var rest := ws.spaces[..index] + ws.spaces[index + 1..];
      var forgot := ForgetAll(ws.(spaces := rest), Leaves(ws.spaces[index].root));
      if rest == [] then Reset(env, forgot) else Reindexed(forgot, index)
  }

  function Closer(env: Env): (ShownWs, nat) -> ShownWs {
    (ws, index) => CloseSpaceAt(env, ws, index)
  }

  /** Close the tabs `hi - 1` down to `lo`. */
  function CloseDown(env: Env, ws: ShownWs, lo: nat, hi: nat): ShownWs
    requires lo <= hi
  {
    D.Descend(Closer(env), ws, lo, hi)
  }

  lemma CloseDownStep(env: Env, ws: ShownWs, lo: nat, hi: nat)
    requires lo < hi
    ensures CloseDown(env, ws, lo, hi) == CloseDown(env, CloseSpaceAt(env, ws, hi - 1), lo, hi - 1)
  {
  }

  lemma CloseDownNone(env: Env, ws: ShownWs, at: nat)
    ensures CloseDown(env, ws, at, at) == ws
  {
  }

  /** Close every tab but the one at `index`, from the far end inwards. */
  function CloseOthers(env: Env, ws: ShownWs, index: nat): ShownWs {
    if index >= |ws.spaces| then ws
    else CloseDown(env, CloseDown(env, ws, index + 1, |ws.spaces|), 0, index)
  }

  ghost predicate HasLeaf(spaces: seq<Space>, pane: nat) {
    exists i :: 0 <= i < |spaces| && pane in LeafIds(spaces[i].root)
  }

  /** Ids are unique across all trees and below the counter. */
  ghost predicate FreshIds(spaces: seq<Space>, nextId: nat) {
    && (forall i :: 0 <= i < |spaces| ==> WellFormed(spaces[i].root))
    && (forall i, id :: 0 <= i < |spaces| && id in Ids(spaces[i].root) ==> id < nextId)
    && (forall i, j :: 0 <= i < j < |spaces| ==> Ids(spaces[i].root) !! Ids(spaces[j].root))
  }

  ghost predicate Owned(ws: Ws) {
    && (forall pane :: pane in ws.sessions ==> HasLeaf(ws.spaces, pane))
    && (forall pane :: pane in ws.runtimes ==> HasLeaf(ws.spaces, pane))
  }

  /** The workspace invariant: there is a space, the focus is a leaf of the space
      on screen, ids are fresh, and only panes that exist own anything. */
  ghost predicate Wf(ws: Ws) {
    && ws.activeSpace < |ws.spaces|
    && ws.activePane in LeafIds(ws.spaces[ws.activeSpace].root)
    && FreshIds(ws.spaces, ws.nextId)
    && Owned(ws)
  }

  function TabLeaves(space: Space): set<nat> {
    LeafIds(space.root)
  }

  /** The leaves of a stretch of spaces. */
  function LeafIdsOf(spaces: seq<Space>): set<nat> {
    D.Union(TabLeaves, spaces)
  }
}
