/**
 What bytes and hooks do to a block list, read off the list before and after: which
 screen takes the bytes, which block each hook changes, opens or drops, and what it
 reports.
 */
module BlockEffects {
  import opened Base
  import opened Blocks
  import H = HookTap
  import E = Emulator
  import Streams

  // ---- Screens ----

  function Feeder(): (Screen, seq<byte>) -> Screen {
    (s: Screen, bytes: seq<byte>) => s.Feed(bytes)
  }

  /** A screen holds all it was fed, in order; a frozen one stays as it is and counts. */
  lemma {:induction false} ScreenHolds(s: Screen, pieces: seq<seq<byte>>)
    ensures var r := Streams.Fold(Feeder(), s, pieces);
            && r.past == s.past && r.frozen == s.frozen
            && r.current == (if s.frozen then s.current else s.current + Concat(pieces))
            && r.dropped == (if s.frozen then s.dropped + |Concat(pieces)| else s.dropped)
  {
    if pieces != [] {
      var front, last := pieces[..|pieces| - 1], pieces[|pieces| - 1];
      ScreenHolds(s, front);
      assert s.current + (Concat(front) + last) == (s.current + Concat(front)) + last;
    } else {
      assert s.current + [] == s.current;
    }
  }

  /** Nothing joins a frozen screen; a reset one starts again, blank, and takes bytes. */
  lemma FrozenAndReset(s: Screen, bytes: seq<byte>)
    ensures s.Freeze().frozen && s.Freeze().current == s.current && s.Freeze().past == s.past && s.Freeze().dropped == s.dropped
    ensures s.Freeze().Feed(bytes).current == s.current
    ensures s.Reset().Feed(bytes) == Screen(s.past + [s.current], bytes, false, s.dropped)
  {
    assert [] + bytes == bytes;
  }

  // ---- Bytes ----

  /** Before a command runs its bytes are the command line; from then on, output; after
      its end, or on a card, they are dropped and counted. */
  predicate Took(was: Block, now: Block, bytes: seq<byte>) {
    if was.kind.Shell? && was.state.BeforeExecution? then
      now == was.(command := now.command) && now.command == was.command.Feed(bytes)
    else if was.kind.Shell? && (was.state.Executing? || was.state.Background? || was.state.Static?) then
      now == was.(output := now.output) && now.output == was.output.Feed(bytes)
    else
      now == was.(dropped := was.dropped + |bytes|)
  }

  /** Bytes reach the active block and no other; nothing else changes. */
  lemma BytesLand(env: E.Env, c: E.Core, bytes: seq<byte>)
    requires bytes != []
    ensures var r, k := E.RunMicros(env, c, E.Bytes(bytes)), c.blocks.active;
            && Took(c.blocks.blocks[k], r.blocks.Active(), bytes)
            && r.blocks == c.blocks.(blocks := c.blocks.blocks[k := r.blocks.Active()])
            && r.hookEvents == c.hookEvents && r.blockEvents == c.blockEvents
  {
    E.SegmentIsBytes(env, c, bytes);
  }

  // ---- Hooks ----

  /** What the agent of the block is told, if it is an agent's. */
  predicate Tells(vt: Vt, b: Block, outcome: Outcome, events: seq<BlockEvent>) {
    match b.owner
    case User => events == []
    case Agent(conversation, call) =>
      events == [ToolResult(b.id, conversation, call, b.commandText, vt.content(b.output), outcome)]
  }

  /** A block as the shell opens it: the user's, waiting for a command, seen in the terminal only. */
  predicate Waiting(b: Block, id: nat, index: nat) {
    && b.id == id && b.index == index && b.kind.Shell? && b.owner.User? && b.state.BeforeExecution?
    && b.visibility.terminal && b.visibility.conversations == {} && b.commandText == "" && b.exitCode == None
    && b.command == Screen([], [], false, 0) && b.output == Screen([], [], false, 0) && b.dropped == 0
  }

  /** The list with one block changed and another opened behind all the others, active. */
  predicate Opens(was: BlockList, now: BlockList) {
    var n := |was.blocks|;
    && |now.blocks| == n + 1 && now.active == n && now.nextId == was.nextId + 1
    && (forall i :: 0 <= i < n && i != was.active ==> now.blocks[i] == was.blocks[i])
    && Waiting(now.blocks[n].(metadata := None, honorPs1 := false), was.nextId, n)
  }

  /** Everything of the list that only other hooks change. */
  predicate SameRest(was: BlockList, now: BlockList) {
    && now.bootstrapped == was.bootstrapped && now.inputBuffer == was.inputBuffer && now.inputCursor == was.inputCursor
    && now.gaps == was.gaps && now.claim == was.claim
  }

  /** A finished command: its code and its screens, both frozen; it ran unless it was
      blank and printed nothing. The shell's next block is open, and the finish and the
      agent's answer are reported. */
  lemma FinishDoes(env: E.Env, c: E.Core, code: int, next: Option<string>) returns (told: seq<BlockEvent>)
    ensures var r := E.StepMicro(env, c, E.Hook(H.CommandFinished(code, next)));
            var was, k := c.blocks.Active(), c.blocks.active;
            && Opens(c.blocks, r.blocks) && SameRest(c.blocks, r.blocks) && r.blocks.session == c.blocks.session
            && r.blocks.Active().metadata == None && !r.blocks.Active().honorPs1
            && r.blocks.blocks[k] == was.(exitCode := Some(code), command := was.command.(frozen := true),
                                          output := was.output.(frozen := true),
                                          state := if Blank(was.commandText) && env.vt.text(was.output) == ""
                                                   then DoneWithNoExecution else DoneWithExecution)
            && r.blockEvents == c.blockEvents + ([BlockFinished(was.id, code, code != 0)] + told)
            && Tells(env.vt, r.blocks.blocks[k], Finished(code), told)
  {
    var (list, events) := c.blocks.Apply(env.vt, H.CommandFinished(code, next));
    NothingStarts(list, events);
    told := events[1..];
    assert events == [BlockFinished(c.blocks.Active().id, code, code != 0)] + told;
  }

  lemma {:induction false} NothingStarts(list: BlockList, events: seq<BlockEvent>)
    requires forall e :: e in events ==> !e.BlockStarted?
    ensures E.AssociateAll(list, events) == list
  {
    if events != [] {
      NothingStarts(list, events[..|events| - 1]);
    }
  }

  /** What a prompt says of a block. */
  predicate Informed(was: Block, now: Block, facts: H.PromptFacts) {
    now == was.(metadata := Some(facts), honorPs1 := if facts.honorPs1.Some? then facts.honorPs1.value else was.honorPs1)
  }

  predicate Located(was: Session, now: Session, facts: H.PromptFacts) {
    now == was.(cwd := if facts.pwd.Some? then facts.pwd else was.cwd)
  }

  /** A prompt while nothing runs is about the active block. */
  lemma PromptDoes(env: E.Env, c: E.Core, facts: H.PromptFacts)
    requires !c.blocks.Active().state.Executing?
    ensures var r := E.StepMicro(env, c, E.Hook(H.Precmd(facts)));
            var k := c.blocks.active;
            && Informed(c.blocks.Active(), r.blocks.Active(), facts) && Located(c.blocks.session, r.blocks.session, facts)
            && r.blocks == c.blocks.(session := r.blocks.session, blocks := c.blocks.blocks[k := r.blocks.Active()])
            && r.blockEvents == c.blockEvents + [MetadataUpdated(c.blocks.Active().id)]
  {
    var (list, events) := c.blocks.Apply(env.vt, H.Precmd(facts));
    NothingStarts(list, events);
  }

  /** A prompt while a command runs: the command keeps its block, in the background and
      answered as still running; the prompt is about a new one. */
  lemma PromptPromotes(env: E.Env, c: E.Core, facts: H.PromptFacts) returns (told: seq<BlockEvent>)
    requires c.blocks.Active().state.Executing?
    ensures var r := E.StepMicro(env, c, E.Hook(H.Precmd(facts)));
            var was, k := c.blocks.Active(), c.blocks.active;
            && Opens(c.blocks, r.blocks) && SameRest(c.blocks, r.blocks)
            && r.blocks.blocks[k] == was.(state := Background)
            && Located(c.blocks.session, r.blocks.session, facts)
            && r.blocks.Active().metadata == Some(facts) && (r.blocks.Active().honorPs1 <==> facts.honorPs1 == Some(true))
            && r.blockEvents == c.blockEvents + (told + [MetadataUpdated(c.blocks.nextId)])
            && Tells(env.vt, was, StillRunning, told)
  {
    var (list, events) := c.blocks.Apply(env.vt, H.Precmd(facts));
    NothingStarts(list, events);
    told := events[..|events| - 1];
    assert events == told + [MetadataUpdated(c.blocks.nextId)];
  }

  /** A command starts: the block gets its text, and the claim's owner when it was made on
      this block; one that runs already only changes hands. The claim is spent. */
  predicate Started(list: BlockList, command: Option<string>, now: Block)
    requires list.Valid()
  {
    var was := list.Active();
    && now == was.(owner := now.owner, visibility := now.visibility, state := Executing,
                   commandText := if was.state.Executing? then was.commandText else if command.Some? then command.value else "")
    && now.owner == (if list.claim.Some? && list.claim.value.block == was.id then list.claim.value.owner else was.owner)
  }

  lemma PreexecStarts(vt: Vt, list: BlockList, command: Option<string>)
    requires list.Valid()
    ensures var (r, events) := list.Apply(vt, H.Preexec(command));
            && Started(list, command, r.Active()) && r.Active().visibility == list.Active().visibility
            && r == list.(blocks := list.blocks[list.active := r.Active()], claim := None)
            && events == [BlockStarted(list.Active().id)]
  {
  }

  /** An agent's block is seen in its conversation, a user's where it was. */
  predicate Seen(was: Block, now: Block) {
    now == was.(visibility := was.visibility.(conversations :=
             was.visibility.conversations + (if was.owner.Agent? then {was.owner.conversationId} else {})))
  }

  lemma OwnerSees(list: BlockList, k: nat)
    requires k < |list.blocks| && forall i :: 0 <= i < |list.blocks| && i != k ==> list.blocks[i].id != list.blocks[k].id
    ensures var r := E.AssociateAll(list, [BlockStarted(list.blocks[k].id)]);
            |r.blocks| == |list.blocks| && Seen(list.blocks[k], r.blocks[k]) && r == list.(blocks := list.blocks[k := r.blocks[k]])
  {
    var events := [BlockStarted(list.blocks[k].id)];
    assert events[..0] == [];
    assert list.Find(list.blocks[k].id) == Some(k) by {
      assert list.blocks[k] in list.blocks;
    }
    assert E.AssociateAll(list, events) == list.AssociateOwner(list.blocks[k].id);
    assert list.blocks[k := list.blocks[k]] == list.blocks;
    assert list.blocks[k].visibility.conversations + {} == list.blocks[k].visibility.conversations;
  }

  lemma StartDoes(env: E.Env, c: E.Core, command: Option<string>)
    requires forall i :: 0 <= i < |c.blocks.blocks| && i != c.blocks.active ==> c.blocks.blocks[i].id != c.blocks.Active().id
    ensures var r, k := E.StepMicro(env, c, E.Hook(H.Preexec(command))), c.blocks.active;
            var was, now := c.blocks.Active(), r.blocks.Active();
            && r.blocks == c.blocks.(blocks := c.blocks.blocks[k := now], claim := None)
            && Started(c.blocks, command, now) && Seen(now.(visibility := was.visibility), now)
            && r.blockEvents == c.blockEvents + [BlockStarted(was.id)]
  {
    PreexecStarts(env.vt, c.blocks, command);
    OwnerSees(c.blocks.Apply(env.vt, H.Preexec(command)).0, c.blocks.active);
  }

  /** A clear drops what is before the active block and blanks its output. */
  lemma ClearDoes(env: E.Env, c: E.Core)
    ensures var r, k := E.StepMicro(env, c, E.Hook(H.Clear)), c.blocks.active;
            var n := |c.blocks.blocks| - k;
            && |r.blocks.blocks| == n && r.blocks.active == 0
            && (forall i :: 0 < i < n ==> r.blocks.blocks[i] == c.blocks.blocks[k + i].(index := if k == 0 then c.blocks.blocks[i].index else i))
            && (var was := c.blocks.Active();
                r.blocks.blocks[0] == was.(index := if k == 0 then was.index else 0,
                                           output := Screen(was.output.past + [was.output.current], [], false, was.output.dropped)))
            && r.blocks == c.blocks.(blocks := r.blocks.blocks, active := 0, gaps := r.blocks.gaps)
            && (forall id :: id in r.blocks.gaps <==> id in c.blocks.gaps || id == c.blocks.Active().id)
            && (c.blocks.Active().id in c.blocks.gaps ==> r.blocks.gaps == c.blocks.gaps)
            && r.blockEvents == c.blockEvents + [Cleared(k)]
  {
    var (list, events) := c.blocks.Apply(env.vt, H.Clear);
    NothingStarts(list, events);
  }

  /** The shell says who it is; the first sign that it is ready opens its first block. */
  lemma ShellDoes(env: E.Env, c: E.Core, sid: Option<string>, shell: Option<string>, host: Option<string>, cwd: Option<string>,
                  honor: Option<bool>, version: Option<string>)
    ensures var r := E.StepMicro(env, c, E.Hook(H.InitShell(sid, shell, host, cwd, honor)));
            && r.blocks == c.blocks.(session := Session(sid, shell, host, if cwd.Some? then cwd else c.blocks.session.cwd,
                                                        if honor.Some? then honor.value else c.blocks.session.honorPs1))
            && r.blockEvents == c.blockEvents + [SessionInitialized(sid, shell)]
    ensures var r := E.StepMicro(env, c, E.Hook(H.Bootstrapped(version)));
            if c.blocks.bootstrapped then r.blocks == c.blocks && r.blockEvents == c.blockEvents
            else
              && Opens(c.blocks, r.blocks) && r.blocks.bootstrapped && r.blocks.blocks[c.blocks.active] == c.blocks.Active()
              && SameRest(c.blocks, r.blocks.(bootstrapped := false)) && r.blocks.session == c.blocks.session
              && r.blocks.Active().metadata == None && !r.blocks.Active().honorPs1
              && r.blockEvents == c.blockEvents + [ShellBootstrapped]
  {
    assert c.blockEvents + [] == c.blockEvents;
    var (list, events) := c.blocks.Apply(env.vt, H.InitShell(sid, shell, host, cwd, honor));
    NothingStarts(list, events);
    var (list', events') := c.blocks.Apply(env.vt, H.Bootstrapped(version));
    NothingStarts(list', events');
  }

  /** The line being edited. */
  lemma InputDoes(env: E.Env, c: E.Core, buffer: string, cursor: Option<nat>)
    ensures var r := E.StepMicro(env, c, E.Hook(H.InputBuffer(buffer, cursor)));
            && r.blocks == c.blocks.(inputBuffer := buffer, inputCursor := cursor)
            && r.blockEvents == c.blockEvents + [InputBufferChanged(buffer, cursor)]
  {
    var (list, events) := c.blocks.Apply(env.vt, H.InputBuffer(buffer, cursor));
    NothingStarts(list, events);
  }
}
