/**
 The app state the verbs and the tab menu change in place. Every method is
 proved to do what `Workspace` says of it.
 */
module UiState {
  import opened Base
  import opened PaneTree
  import opened Workspace

  class UiState {
    var spaces: seq<Space>
    var activeSpace: nat
    var activePane: nat
    var nextId: nat
    var sessions: map<nat, Session>
    var runtimes: set<nat>
    var maximized: Option<nat>
    var inbox: seq<InboxItem>

    constructor (ws: Ws)
      ensures Value() == ws
    {
      spaces, activeSpace, activePane, nextId := ws.spaces, ws.activeSpace, ws.activePane, ws.nextId;
      sessions, runtimes, maximized, inbox := ws.sessions, ws.runtimes, ws.maximized, ws.inbox;
    }

    function Value(): Ws
      reads this
    {
      Ws(spaces, activeSpace, activePane, nextId, sessions, runtimes, maximized, inbox)
    }

    method FocusPane(pane: nat)
      modifies this`activePane, this`maximized
      ensures Value() == Focus(old(Value()), pane)
    {
      if activePane != pane {
        maximized := None;
      }
      activePane := pane;
    }

    method ForgetPane(pane: nat)
      modifies this`sessions, this`runtimes, this`inbox
      ensures Value() == Forget(old(Value()), pane)
    {
      sessions := sessions - {pane};
      runtimes := runtimes - {pane};
      inbox := Sparing(inbox, {pane});
    }

    method AllPaneInfos() returns (panes: seq<PaneInfo>)
      ensures panes == AllPanes(Value())
    {
      panes := [];
      for space := 0 to |spaces|
        invariant panes == PanesOf(Value(), space)
      {
        PanesStep(Value(), space);
        var own := InfosIn(space);
        panes := panes + own;
      }
      AllPanesIs(Value());
    }

    method InfosIn(space: nat) returns (panes: seq<PaneInfo>)
      requires space < |spaces|
      ensures panes == InfosOf(Value(), space, Leaves(spaces[space].root))
    {
      panes := [];
      var ids := Leaves(spaces[space].root);
      for k := 0 to |ids|
        invariant panes == InfosOf(Value(), space, ids[..k])
      {
        assert ids[..k + 1][..k] == ids[..k];
        var info := InfoOf(Value(), space, ids[k]);
        if info.Ok? {
          panes := panes + [info.value];
        }
      }
      assert ids[..|ids|] == ids;
    }

    method OpenSession(pane: nat, path: string)
      modifies this`sessions
      ensures sessions == old(sessions)[pane := Session("", "", path, "")]
    {
      sessions := sessions[pane := Session("", "", path, "")];
    }

    method BindSession(pane: nat, conversation: string)
      requires pane in sessions
      modifies this`sessions
      ensures sessions == old(sessions)[pane := old(sessions)[pane].(conversationId := conversation)]
    {
      sessions := sessions[pane := sessions[pane].(conversationId := conversation)];
    }

    method ShowSplit(env: Env, space: nat, grown: Pane, path: string)
      requires space < |spaces|
      modifies this
      ensures Value() == OpenLeaf(env, old(Value()), space, grown, path)
    {
      var newId := nextId + 1;
      spaces := spaces[space := spaces[space].(root := grown)];
      nextId := nextId + 2;
      activeSpace := space;
      FocusPane(newId);
      OpenSession(newId, path);
      if LeafKind(spaces[space].root, newId) == Some(Chat) {
        BindSession(newId, env.freshConversation);
        assert sessions == old(sessions)[newId := sessions[newId]];
      }
    }

    method Split(env: Env, pane: nat, axis: SplitDir, kind: Option<ControlKind>, cwd: Option<string>)
      returns (answer: Answer)
      modifies this
      ensures (Value(), answer) == SplitPane(env, old(Value()), pane, axis, kind, cwd)
    {
      var found := SpaceOf(spaces, pane);
      if found.None? {
        return Err(MissingPane(pane));
      }
      var space := found.value;
      var target := LeafKind(spaces[space].root, pane);
      if target.None? {
        return Err(MissingPane(pane));
      }
      var splitId, newId := nextId, nextId + 1;
      var grown := SplitLeaf(spaces[space].root, pane, axis, splitId, newId, NewKind(kind, target.value));
      if grown.None? {
        return Err(Unsupported);
      }
      var inherited := if pane in sessions then sessions[pane].path else env.defaultPath;
      ShowSplit(env, space, grown.value, if cwd.Some? then cwd.value else inherited);
      var info := InfoOf(Value(), space, newId);
      if info.Err? {
        return Err(info.error);
      }
      return Ok(OnePane(info.value));
    }

    method Close(pane: nat) returns (answer: Answer)
      modifies this
      ensures (Value(), answer) == ClosePane(old(Value()), pane)
    {
      var found := SpaceOf(spaces, pane);
      if found.None? {
        return Err(MissingPane(pane));
      }
      var space := found.value;
      var removed := RemoveLeaf(spaces[space].root, pane);
      if removed.None? {
        return Err(Unsupported);
      }
      spaces := spaces[space := spaces[space].(root := removed.value.0)];
      ForgetPane(pane);
      if maximized == Some(pane) {
        maximized := None;
      }
      activeSpace := space;
      FocusPane(removed.value.1);
      return Ok(Closed(pane));
    }

    method FocusVerb(pane: nat) returns (answer: Answer)
      modifies this
      ensures (Value(), answer) == Workspace.FocusPane(old(Value()), pane)
    {
      var found := SpaceOf(spaces, pane);
      if found.None? {
        return Err(MissingPane(pane));
      }
      activeSpace := found.value;
      FocusPane(pane);
      var info := InfoOf(Value(), found.value, pane);
      if info.Err? {
        return Err(info.error);
      }
      return Ok(OnePane(info.value));
    }

    method Switch(space: nat) returns (answer: Answer)
      modifies this
      ensures (Value(), answer) == SwitchSpace(old(Value()), space)
    {
      if space >= |spaces| {
        return Err(MissingSpace(space));
      }
      var first := FirstLeaf(spaces[space].root);
      activeSpace := space;
      FocusPane(first);
      var info := SpaceInfoOf(Value(), space);
      if info.None? {
        return Err(MissingSpace(space));
      }
      return Ok(OneSpace(info.value));
    }

    method LayoutVerb(space: nat, kind: LayoutKind) returns (answer: Answer)
      modifies this
      ensures (Value(), answer) == SetLayout(old(Value()), space, kind)
    {
      if space >= |spaces| {
        return Err(MissingSpace(space));
      }
      var keep := TargetOf(Value(), space);
      ghost var before := spaces;
      match kind {
        case Single =>
          var kept := LeafKind(spaces[space].root, keep);
          if kept.None? {
            return Err(MissingPane(keep));
          }
          KeepOnly(Leaves(spaces[space].root), keep);
          spaces := spaces[space := spaces[space].(root := Leaf(keep, kept.value))];
          spaces := spaces[space := spaces[space].(layout := Bsp)];
          activeSpace := space;
          FocusPane(keep);
        case Rows(dir) =>
          spaces := spaces[space := spaces[space].(root := SetDirs(spaces[space].root, dir))];
          spaces := spaces[space := spaces[space].(layout := Bsp)];
        case Mode(mode) =>
          spaces := spaces[space := spaces[space].(layout := mode)];
      }
      assert spaces == before[space := spaces[space]];
      return GetLayout(Value(), space);
    }

    method KeepOnly(ids: seq<nat>, keep: nat)
      modifies this`sessions, this`runtimes, this`inbox, this`maximized
      ensures Value() == ForgetOthers(old(Value()), ids, keep)
    {
      for k := 0 to |ids|
        invariant Value() == ForgetOthers(old(Value()), ids[..k], keep)
      {
        assert ids[..k + 1][..k] == ids[..k];
        if ids[k] != keep {
          if maximized == Some(ids[k]) {
            maximized := None;
          }
          ForgetPane(ids[k]);
        }
      }
      assert ids[..|ids|] == ids;
    }

    method Acknowledge(id: Option<string>, all: bool) returns (answer: Answer)
      modifies this`inbox
      ensures (Value(), answer) == AckInbox(old(Value()), id, all)
    {
      if all {
        var acknowledged := 0;
        ghost var before := inbox;
        for k := 0 to |inbox|
          invariant |inbox| == |before| && acknowledged == Unread(before[..k])
          invariant forall j :: 0 <= j < |before| ==>
                      inbox[j] == if j < k then before[j].(acknowledged := true) else before[j]
        {
          assert before[..k + 1][..k] == before[..k];
          if !inbox[k].acknowledged {
            inbox := inbox[k := inbox[k].(acknowledged := true)];
            acknowledged := acknowledged + 1;
          }
        }
        assert before[..|before|] == before && inbox == AckAll(before);
        return Ok(Acknowledged(acknowledged));
      }
      if id.None? {
        return Err(InvalidRequest);
      }
      match AckFrom(inbox, id.value) {
        case None => return Err(MissingItem(id.value));
        case Some((items, n)) =>
          inbox := items;
          return Ok(Acknowledged(n));
      }
    }

    method ForgetPanes(panes: seq<nat>)
      modifies this`sessions, this`runtimes, this`inbox
      ensures Value() == ForgetAll(old(Value()), panes)
    {
      for k := 0 to |panes|
        invariant Value() == ForgetAll(old(Value()), panes[..k])
      {
        assert panes[..k + 1][..k] == panes[..k];
        ForgetPane(panes[k]);
      }
      assert panes[..|panes|] == panes;
    }

    /** Close the space (tab) at `index`. */
    method CloseTab(env: Env, index: nat)
      requires activeSpace < |spaces|
      modifies this
      ensures Value() == CloseSpaceAt(env, old(Value()), index)
      ensures activeSpace < |spaces|
    {
      if index >= |spaces| {
        return;
      }
      var leaves := Leaves(spaces[index].root);
      spaces := spaces[..index] + spaces[index + 1..];
      ForgetPanes(leaves);
      if |spaces| == 0 {
        ResetSpaces(env);
      } else {
        Reindex(index);
      }
    }

    method ResetSpaces(env: Env)
      modifies this
      ensures Value() == Reset(env, old(Value()))
    {
      var id := nextId;
      nextId := nextId + 1;
      spaces := [Space(Leaf(id, Chat), Bsp, "local")];
      activeSpace := 0;
      activePane := id;
      sessions := sessions[id := Session(env.freshConversation, "", "", "")];
    }

    method Reindex(index: nat)
      requires spaces != [] && activeSpace <= |spaces| && index <= |spaces|
      modifies this`activeSpace, this`activePane
      ensures Value() == Reindexed(old(Value()), index)
    {
      if index < activeSpace {
        activeSpace := activeSpace - 1;
      } else if index == activeSpace {
        activeSpace := if activeSpace < |spaces| - 1 then activeSpace else |spaces| - 1;
      }
      activePane := FirstLeaf(spaces[activeSpace].root);
    }

    /** "Close other tabs": every other tab goes, from the far end inwards. */
    method CloseOtherTabs(env: Env, index: nat)
      requires activeSpace < |spaces|
      modifies this
      ensures Value() == CloseOthers(env, old(Value()), index)
    {
      if index >= |spaces| {
        return;
      }
      CloseRange(env, index + 1, |spaces|);
      CloseRange(env, 0, index);
    }

    method CloseRange(env: Env, lo: nat, hi: nat)
      requires activeSpace < |spaces| && lo <= hi
      modifies this
      ensures Value() == CloseDown(env, old(Value()), lo, hi)
      ensures activeSpace < |spaces|
    {
      ghost var closed := CloseDown(env, Value(), lo, hi);
      ghost var now: ShownWs := Value();
      for other := hi downto lo
        invariant activeSpace < |spaces| && Value() == now
        invariant CloseDown(env, now, lo, other) == closed
      {
        CloseDownStep(env, now, lo, other + 1);
        CloseTab(env, other);
        now := CloseSpaceAt(env, now, other);
      }
      CloseDownNone(env, now, lo);
    }

    /** Run one verb on the UI thread. */
    method HandleUiCommand(env: Env, command: Command) returns (answer: Answer)
      modifies this
      ensures (Value(), answer) == Handle(env, old(Value()), command)
    {
      match command {
        case PanesNew(asked, cwd, wanted) =>
          var space := if asked.Some? then asked.value else activeSpace;
          if space >= |spaces| {
            return Err(MissingSpace(space));
          }
          var kind := if wanted.Some? then wanted.value else ControlTerminal;
          answer := Split(env, TargetOf(Value(), space), Horizontal, Some(kind), cwd);
        case PanesSplit(pane, axis) => answer := Split(env, pane, axis, None, None);
        case PanesClose(pane) => answer := Close(pane);
        case PanesFocus(pane) => answer := FocusVerb(pane);
        case SpacesSwitch(space) => answer := Switch(space);
        case InboxAck(id, all) => answer := Acknowledge(id, all);
        case LayoutSet(space, kind) => answer := LayoutVerb(space, kind);
        case AgentsPrompt(pane, _) => answer := PromptVerb(env, pane);
        case PanesList =>
          var panes := AllPaneInfos();
          answer := Ok(Panes(panes));
        case AgentsState(None) =>
          var panes := AllPaneInfos();
          answer := Ok(Agents(PaneIds(panes)));
        case _ => answer := Handle(env, Value(), command).1;
      }
    }

    method PromptVerb(env: Env, pane: nat) returns (answer: Answer)
      modifies this`sessions, this`runtimes
      ensures (Value(), answer) == Handle(env, old(Value()), AgentsPrompt(pane, ""))
    {
      if SpaceOf(spaces, pane).None? {
        return Err(MissingPane(pane));
      }
      if env.canRun {
        if env.conversation.Some? && env.conversation.value != "" {
          var session := if pane in sessions then sessions[pane] else Session("", "", "", "");
          sessions := sessions[pane := session.(conversationId := env.conversation.value)];
        }
        if env.conversation.Some? && env.started {
          runtimes := runtimes + {pane};
        }
      }
      return Ok(Prompted(pane, env.canRun && env.started && env.conversation.Some?));
    }
  }
}
