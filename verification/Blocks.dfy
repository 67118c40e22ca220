/**
 The block list of one terminal session: the command boundaries the hooks
 delimit, each block with its own two screens.

 A screen's interpreter is not part of the model: a screen is the bytes it has
 been given since each reset, and `Vt` reads text out of that, whatever the
 interpreter is. Timestamps and resizing are left out.
 */
module Blocks {
  import opened Base
  import opened HookTap

  /** What a screen has been given: one stretch per reset, the last one growing. */
  datatype Screen = Screen(past: seq<seq<byte>>, current: seq<byte>, frozen: bool, dropped: nat) {
    function Feed(bytes: seq<byte>): Screen {
      if frozen then this.(dropped := dropped + |bytes|)
      else this.(current := current + bytes)
    }

    function Freeze(): Screen {
      this.(frozen := true)
    }

    function Reset(): Screen {
      this.(past := past + [current], current := [], frozen := false)
    }
  }

  const BLANK_SCREEN := Screen([], [], false, 0)

  /** The text a screen shows, and its content without blank padding. */
  datatype Vt = Vt(text: Screen -> string, content: Screen -> string)

  datatype BlockOwner = User | Agent(conversationId: string, callId: string)

  datatype BlockState =
    | BeforeExecution
    | Executing
    | DoneWithExecution
    | DoneWithNoExecution
    | Background
    | Static

  datatype BlockKind = Shell | AgentView(conversationId: string, caption: string)

  datatype Visibility = Visibility(terminal: bool, conversations: set<string>)

  const TERMINAL_ONLY := Visibility(true, {})

  datatype Block = Block(
    id: nat, index: nat, kind: BlockKind, visibility: Visibility, owner: BlockOwner,
    state: BlockState, command: Screen, output: Screen, commandText: string,
    exitCode: Option<int>, metadata: Option<PromptFacts>, honorPs1: bool, dropped: nat)
  {
    /** Route pty bytes to the screen that currently owns them. */
    function Feed(bytes: seq<byte>): Block {
      if !kind.Shell? then this.(dropped := dropped + |bytes|)
      else match state
        case BeforeExecution => this.(command := command.Feed(bytes))
        case Executing => this.(output := output.Feed(bytes))
        case Background => this.(output := output.Feed(bytes))
        case Static => this.(output := output.Feed(bytes))
        case _ => this.(dropped := dropped + |bytes|)
    }

    function Preexec(text: string): Block {
      if state.Executing? then this else this.(commandText := text, state := Executing)
    }

    function Promote(): Block {
      if state.Executing? then this.(state := Background) else this
    }

    function Finish(vt: Vt, code: int): Block {
      this.(exitCode := Some(code),
            state := if Blank(commandText) && vt.text(output) == "" then DoneWithNoExecution
                     else DoneWithExecution,
            command := command.Freeze(), output := output.Freeze())
    }

    function SetMetadata(facts: PromptFacts): Block {
      this.(metadata := Some(facts), honorPs1 := if facts.honorPs1.Some? then facts.honorPs1.value else honorPs1)
    }

    function Associate(conversation: string): Block {
      this.(visibility := visibility.(conversations := visibility.conversations + {conversation}))
    }
  }

  function NewBlock(id: nat, index: nat, state: BlockState): Block {
    Block(id, index, Shell, TERMINAL_ONLY, User, state, BLANK_SCREEN, BLANK_SCREEN, "",
          None, None, false, 0)
  }

  datatype Session = Session(sessionId: Option<string>, shell: Option<string>, host: Option<string>,
                             cwd: Option<string>, honorPs1: bool)

  datatype Claim = Claim(block: nat, owner: BlockOwner)

  datatype Outcome = Finished(code: int) | StillRunning

  datatype BlockEvent =
    | SessionInitialized(sessionId: Option<string>, shell: Option<string>)
    | ShellBootstrapped
    | BlockStarted(id: nat)
    | BlockFinished(id: nat, exitCode: int, failed: bool)
    | MetadataUpdated(id: nat)
    | InputBufferChanged(buffer: string, cursor: Option<nat>)
    | Cleared(removed: nat)
    | ToolResult(block: nat, conversationId: string, callId: string, command: string,
                 output: string, outcome: Outcome)

  datatype BlockList = BlockList(
    blocks: seq<Block>, active: nat, nextId: nat, session: Session, bootstrapped: bool,
    inputBuffer: string, inputCursor: Option<nat>, gaps: seq<nat>, claim: Option<Claim>)
  {
    /** The active block exists. */
    predicate Valid() {
      active < |blocks|
    }

    function Active(): Block
      requires Valid()
    {
      blocks[active]
    }

    function WithActive(b: Block): (r: BlockList)
      requires Valid()
      ensures r.Valid() && r.Active() == b
    {
      this.(blocks := blocks[active := b])
    }

    /** Pty bytes go to the active block. */
    function Feed(bytes: seq<byte>): (r: BlockList)
      requires Valid()
      ensures r.Valid()
    {
      if bytes == [] then this else WithActive(Active().Feed(bytes))
    }

    function Push(): (r: BlockList)
      ensures r.Valid()
    {
      this.(blocks := blocks + [NewBlock(nextId, |blocks|, BeforeExecution)],
            nextId := nextId + 1, active := |blocks|)
    }

    /** The answer owed to the agent for the active block, if it is the agent's. */
    function Answer(vt: Vt, outcome: Outcome): seq<BlockEvent>
      requires Valid()
    {
      match Active().owner
      case User => []
      case Agent(conversation, call) =>
        [ToolResult(Active().id, conversation, call, Active().commandText, vt.content(Active().output), outcome)]
    }

    function Apply(vt: Vt, event: HookEvent): (r: (BlockList, seq<BlockEvent>))
      requires Valid()
      ensures r.0.Valid()
    {
      match event
      case InitShell(sid, shell, host, cwd, honor) =>
        var s := Session(sid, shell, host, if cwd.Some? then cwd else session.cwd,
                         if honor.Some? then honor.value else session.honorPs1);
        (this.(session := s), [SessionInitialized(sid, shell)])
      case Bootstrapped(_) =>
        if bootstrapped then (this, []) else (this.(bootstrapped := true).Push(), [ShellBootstrapped])
      case Precmd(facts) =>
        var located := if facts.pwd.Some? then this.(session := session.(cwd := facts.pwd)) else this;
        if Active().state.Executing? then
          var promoted := located.WithActive(Active().Promote());
          var next := promoted.Push();
          (next.WithActive(next.Active().SetMetadata(facts)),
           promoted.Answer(vt, StillRunning) + [MetadataUpdated(next.Active().id)])
        else
          (located.WithActive(Active().SetMetadata(facts)), [MetadataUpdated(Active().id)])
      case Preexec(command) =>
        var owned := if claim.Some? && claim.value.block == Active().id
                     then Active().(owner := claim.value.owner) else Active();
        (this.(claim := None).WithActive(owned.Preexec(if command.Some? then command.value else "")),
         [BlockStarted(Active().id)])
      case CommandFinished(code, _) =>
        var finished := WithActive(Active().Finish(vt, code));
        (finished.Push(),
         [BlockFinished(Active().id, code, code != 0)] + finished.Answer(vt, Finished(code)))
      case InputBuffer(buffer, cursor) =>
        (this.(inputBuffer := buffer, inputCursor := cursor), [InputBufferChanged(buffer, cursor)])
      case Clear =>
        var kept := if active > 0
                    then this.(blocks := Renumber(blocks[active..]), active := 0) else this;
        var b := kept.Active();
        var cleared := kept.WithActive(b.(output := b.output.Reset()));
        (if b.id in gaps then cleared else cleared.(gaps := gaps + [b.id]), [Cleared(active)])
    }

    /** The first block with this id. */
    function Find(id: nat): (r: Option<nat>)
      ensures r.Some? ==> r.value < |blocks| && blocks[r.value].id == id
      ensures r.None? ==> forall b :: b in blocks ==> b.id != id
    {
      FindFrom(id, 0)
    }

    function FindFrom(id: nat, from: nat): (r: Option<nat>)
      requires from <= |blocks|
      ensures r.Some? ==> from <= r.value < |blocks| && blocks[r.value].id == id
      ensures r.None? ==> forall k :: from <= k < |blocks| ==> blocks[k].id != id
      decreases |blocks| - from
    {
      if from == |blocks| then None
      else if blocks[from].id == id then Some(from)
      else FindFrom(id, from + 1)
    }

    /** Show an agent's block in its conversation's view; a user's stays out. */
    function AssociateOwner(id: nat): (r: BlockList)
      ensures Valid() ==> r.Valid()
    {
      match Find(id)
      case None => this
      case Some(k) =>
        if blocks[k].owner.Agent?
        then this.(blocks := blocks[k := blocks[k].Associate(blocks[k].owner.conversationId)])
        else this
    }
  }

  function Renumber(blocks: seq<Block>): (r: seq<Block>)
    ensures |r| == |blocks|
    ensures forall k :: 0 <= k < |r| ==> r[k] == blocks[k].(index := k)
  {
    seq(|blocks|, k requires 0 <= k < |blocks| => blocks[k].(index := k))
  }

  const EMPTY_LIST := BlockList([NewBlock(1, 0, Static)], 0, 2, Session(None, None, None, None, false),
                                false, "", None, [], None)

  type ValidList = list: BlockList | list.Valid() witness EMPTY_LIST

  lemma ScreenFeedAppend(s: Screen, a: seq<byte>, b: seq<byte>)
    ensures s.Feed(a).Feed(b) == s.Feed(a + b)
  {
    assert s.current + (a + b) == (s.current + a) + b;
  }

  /** Feeding in two pieces is feeding once: which screen the bytes reach does
      not change while only bytes arrive. */
  lemma FeedAppend(list: BlockList, a: seq<byte>, b: seq<byte>)
    requires list.Valid()
    ensures list.Feed(a).Feed(b) == list.Feed(a + b)
  {
    if a == [] || b == [] {
      assert a + b == if a == [] then b else a;
    } else {
      ScreenFeedAppend(list.Active().command, a, b);
      ScreenFeedAppend(list.Active().output, a, b);
    }
  }
}
