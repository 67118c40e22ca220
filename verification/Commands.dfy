/**
 What the ordered feed is for: a command's output lands in the command's own block,
 and an agent's command is shown in its conversation, however the stream is cut.
 */
module Commands {
  import opened Base
  import opened Blocks
  import H = HookTap
  import E = Emulator
  import B = BlockEffects
  import Streams

  // ---- Blocks are told apart ----

  /** Ids are given out once. */
  ghost predicate IdsApart(list: BlockList) {
    && (forall i :: 0 <= i < |list.blocks| ==> list.blocks[i].id < list.nextId)
    && (forall i, j :: 0 <= i < j < |list.blocks| ==> list.blocks[i].id != list.blocks[j].id)
  }

  lemma WithActiveApart(list: BlockList, b: Block)
    requires list.Valid() && IdsApart(list) && b.id == list.Active().id
    ensures IdsApart(list.WithActive(b))
  {
  }

  lemma PushApart(list: BlockList)
    requires IdsApart(list)
    ensures IdsApart(list.Push())
  {
  }

  lemma ApplyApart(list: BlockList, vt: Vt, event: H.HookEvent)
    requires list.Valid() && IdsApart(list)
    ensures IdsApart(list.Apply(vt, event).0)
  {
    if event.CommandFinished? {
      WithActiveApart(list, list.Active().Finish(vt, event.exitCode));
      PushApart(list.WithActive(list.Active().Finish(vt, event.exitCode)));
    } else if event.Precmd? {
      PrecmdApart(list, vt, event);
    } else if event.Clear? {
      ClearApart(list, vt, event);
    }
  }

  lemma PrecmdApart(list: BlockList, vt: Vt, event: H.HookEvent)
    requires list.Valid() && IdsApart(list) && event.Precmd?
    ensures IdsApart(list.Apply(vt, event).0)
  {
    var located := if event.prompt.pwd.Some? then list.(session := list.session.(cwd := event.prompt.pwd)) else list;
    if list.Active().state.Executing? {
      var promoted := located.WithActive(list.Active().Promote());
      WithActiveApart(located, list.Active().Promote());
      PushApart(promoted);
      WithActiveApart(promoted.Push(), promoted.Push().Active().SetMetadata(event.prompt));
    } else {
      WithActiveApart(located, list.Active().SetMetadata(event.prompt));
    }
  }

  lemma ClearApart(list: BlockList, vt: Vt, event: H.HookEvent)
    requires list.Valid() && IdsApart(list) && event.Clear?
    ensures IdsApart(list.Apply(vt, event).0)
  {
    var kept := if list.active > 0 then list.(blocks := Renumber(list.blocks[list.active..]), active := 0) else list;
    assert IdsApart(kept) by {
      forall i | 0 <= i < |kept.blocks| ensures kept.blocks[i].id == list.blocks[list.active + i].id {
      }
    }
    WithActiveApart(kept, kept.Active().(output := kept.Active().output.Reset()));
  }

  lemma AssociateApart(list: BlockList, id: nat)
    requires IdsApart(list)
    ensures IdsApart(list.AssociateOwner(id)) && list.AssociateOwner(id).nextId == list.nextId
  {
  }

  lemma {:induction false} AssociateAllApart(list: BlockList, events: seq<BlockEvent>)
    requires IdsApart(list)
    ensures IdsApart(E.AssociateAll(list, events))
  {
    if events != [] {
      AssociateAllApart(list, events[..|events| - 1]);
      var event := events[|events| - 1];
      if event.BlockStarted? {
        AssociateApart(E.AssociateAll(list, events[..|events| - 1]), event.id);
      }
    }
  }

  lemma MicroApart(env: E.Env, c: E.Core, m: E.Micro)
    requires IdsApart(c.blocks)
    ensures IdsApart(E.StepMicro(env, c, m).blocks)
  {
    match m
    case Byte(b) =>
    case Hook(event) =>
      ApplyApart(c.blocks, env.vt, event);
      AssociateAllApart(c.blocks.Apply(env.vt, event).0, c.blocks.Apply(env.vt, event).1);
  }

  /** Over every stream block ids stay apart. */
  lemma {:induction false} RunApart(env: E.Env, c: E.Core, ms: seq<E.Micro>)
    requires IdsApart(c.blocks)
    ensures IdsApart(E.RunMicros(env, c, ms).blocks)
  {
    if ms != [] {
      RunApart(env, c, ms[..|ms| - 1]);
      MicroApart(env, E.RunMicros(env, c, ms[..|ms| - 1]), ms[|ms| - 1]);
    }
  }

  /** From a new pane, however its stream is cut. */
  lemma SessionApart(env: E.Env, chunks: seq<seq<byte>>)
    ensures IdsApart(E.FeedAll(env, E.NEW_PANE, chunks).core.blocks)
  {
    E.ChunkIndependence(env, E.NEW_PANE, chunks);
    var cut, whole := E.FeedAll(env, E.NEW_PANE, chunks), E.FeedPane(env, E.NEW_PANE, Concat(chunks));
    assert cut.core == cut.(revision := 0).core && whole.core == whole.(revision := 0).core;
    RunApart(env, E.NEW_PANE.core, E.Micros(H.Scan(env.hook, H.Ground, Concat(chunks)).1));
  }

  // ---- What a started command's block shows ----

  /** The owner the preexec decides: the claim's, when it was made on this block. */
  function OwnerAt(list: BlockList): BlockOwner
    requires list.Valid()
  {
    if list.claim.Some? && list.claim.value.block == list.Active().id then list.claim.value.owner else list.Active().owner
  }

  /** A command that starts becomes the block's, with the owner the claim gives it. An
      agent's block is shown in its own conversation besides; a user's view is what
      it was. No other block is touched. */
  lemma StartedCommand(env: E.Env, c: E.Core, text: string)
    requires IdsApart(c.blocks) && c.blocks.Active().state.BeforeExecution?
    ensures var r, k := E.StepMicro(env, c, E.Hook(H.Preexec(Some(text)))).blocks, c.blocks.active;
            var was, owner := c.blocks.Active(), OwnerAt(c.blocks);
            && r.active == k && r.Active().owner == owner && r.Active().commandText == text
            && r.Active().state.Executing? && r.Active().output == was.output && r.Active().kind == was.kind
            && r.Active().visibility.terminal == was.visibility.terminal
            && r.Active().visibility.conversations
                 == was.visibility.conversations + (if owner.Agent? then {owner.conversationId} else {})
            && |r.blocks| == |c.blocks.blocks| && forall i :: 0 <= i < |r.blocks| && i != k ==> r.blocks[i] == c.blocks.blocks[i]
  {
    B.StartDoes(env, c, Some(text));
  }

  // ---- Where a command's bytes go ----

  function CommandMicros(text: string, out: seq<byte>, code: int, next: Option<string>): seq<E.Micro> {
    [E.Hook(H.Preexec(Some(text)))] + E.Bytes(out) + [E.Hook(H.CommandFinished(code, next))]
  }

  /** A block with output of its own: what the shell writes while it executes. */
  lemma BytesReachOutput(env: E.Env, c: E.Core, out: seq<byte>)
    requires c.blocks.Active().state.Executing? && c.blocks.Active().kind.Shell?
    ensures var r := E.RunMicros(env, c, E.Bytes(out)).blocks;
            r == c.blocks.WithActive(c.blocks.Active().(output := c.blocks.Active().output.Feed(out)))
  {
    E.SegmentIsBytes(env, c, out);
    if out == [] {
      assert c.blocks.Active().output.Feed([]) == c.blocks.Active().output by {
        assert c.blocks.Active().output.current + [] == c.blocks.Active().output.current;
      }
      assert c.blocks.WithActive(c.blocks.Active()) == c.blocks by {
        assert c.blocks.blocks[c.blocks.active := c.blocks.Active()] == c.blocks.blocks;
      }
    }
  }

  /** A whole command: its block holds exactly its own bytes, frozen, with its text and
      exit code; the blocks before are untouched and the next command has a new one. */
  lemma CommandOwnsItsBytes(env: E.Env, c: E.Core, text: string, out: seq<byte>, code: int, next: Option<string>)
    requires IdsApart(c.blocks) && c.blocks.Active().state.BeforeExecution? && c.blocks.Active().kind.Shell?
    ensures var r, k := E.RunMicros(env, c, CommandMicros(text, out, code, next)).blocks, c.blocks.active;
            var was := c.blocks.Active();
            && |r.blocks| == |c.blocks.blocks| + 1 && r.active == |c.blocks.blocks|
            && r.blocks[k].output == was.output.Feed(out).Freeze()
            && r.blocks[k].commandText == text && r.blocks[k].exitCode == Some(code) && r.blocks[k].owner == OwnerAt(c.blocks)
            && r.Active().output == BLANK_SCREEN && r.Active().state.BeforeExecution?
            && forall i :: 0 <= i < |c.blocks.blocks| && i != k ==> r.blocks[i] == c.blocks.blocks[i]
  {
    var start, body, end := [E.Hook(H.Preexec(Some(text)))], E.Bytes(out), E.Hook(H.CommandFinished(code, next));
    var started := E.StepMicro(env, c, start[0]);
    E.RunSnoc(env, c, start + body, end);
    E.RunAppend(env, c, start, body);
    E.RunSnoc(env, c, [], start[0]);
    assert [] + [start[0]] == start;
    StartedCommand(env, c, text);
    BytesReachOutput(env, started, out);
    FinishedCommand(env, E.RunMicros(env, started, body), code, next);
  }

  lemma FinishedCommand(env: E.Env, c: E.Core, code: int, next: Option<string>)
    ensures var r, k := E.StepMicro(env, c, E.Hook(H.CommandFinished(code, next))).blocks, c.blocks.active;
            var was := c.blocks.Active();
            && |r.blocks| == |c.blocks.blocks| + 1 && r.active == |c.blocks.blocks|
            && r.blocks[k].output == was.output.Freeze() && r.blocks[k].commandText == was.commandText
            && r.blocks[k].exitCode == Some(code) && r.blocks[k].owner == was.owner
            && r.Active().output == BLANK_SCREEN && r.Active().state.BeforeExecution?
            && forall i :: 0 <= i < |c.blocks.blocks| && i != k ==> r.blocks[i] == c.blocks.blocks[i]
  {
    var (applied, events) := c.blocks.Apply(env.vt, H.CommandFinished(code, next));
    B.NothingStarts(applied, events);
  }

  /** However the stream is cut: a pane whose stream comes to a prompt and then runs a
      command has that command's bytes, all of them and no others, in its block. */
  lemma OutputLandsInItsBlock(env: E.Env, p: E.Pane, chunks: seq<seq<byte>>, before: seq<E.Micro>,
                              text: string, out: seq<byte>, code: int, next: Option<string>)
    requires IdsApart(p.core.blocks)
    requires E.Micros(H.Scan(env.hook, p.hooks, Concat(chunks)).1) == before + CommandMicros(text, out, code, next)
    requires var b := E.RunMicros(env, p.core, before).blocks.Active(); b.state.BeforeExecution? && b.kind.Shell?
    ensures var at := E.RunMicros(env, p.core, before).blocks;
            var r := E.FeedAll(env, p, chunks).core.blocks;
            && at.active < |r.blocks| == |at.blocks| + 1
            && r.blocks[at.active].output == at.Active().output.Feed(out).Freeze()
            && r.blocks[at.active].commandText == text && r.blocks[at.active].exitCode == Some(code)
            && forall i :: 0 <= i < |at.blocks| && i != at.active ==> r.blocks[i] == at.blocks[i]
  {
    E.ChunkIndependence(env, p, chunks);
    var cut, whole := E.FeedAll(env, p, chunks), E.FeedPane(env, p, Concat(chunks));
    assert cut.core == cut.(revision := 0).core && whole.core == whole.(revision := 0).core;
    E.RunAppend(env, p.core, before, CommandMicros(text, out, code, next));
    RunApart(env, p.core, before);
    CommandOwnsItsBytes(env, E.RunMicros(env, p.core, before), text, out, code, next);
  }
}
