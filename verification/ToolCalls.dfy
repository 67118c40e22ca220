/**
 The answers an agent is owed: a command it claimed is answered when the shell says it
 has finished, or when a prompt shows that the shell moved on without it.
 */
module ToolCalls {
  import opened Base
  import opened Blocks
  import opened BlockEffects
  import opened Commands
  import H = HookTap
  import E = Emulator

  /** What happens to a session: its shell writes, or an agent claims the next command. */
  datatype Act = Stream(m: E.Micro) | ClaimNext(block: nat, owner: BlockOwner)

  /** A claim is taken only on the active block, while that waits for a command. */
  function Claimed(list: ValidList, id: nat, owner: BlockOwner): (ValidList, bool) {
    if list.Active().id != id || !list.Active().state.BeforeExecution? then (list, false)
    else (list.(claim := Some(Claim(id, owner))), true)
  }

  function Perform(env: E.Env, c: E.Core, a: Act): E.Core {
    match a
    case Stream(m) => E.StepMicro(env, c, m)
    case ClaimNext(id, owner) => c.(blocks := Claimed(c.blocks, id, owner).0)
  }

  function Session(env: E.Env, c: E.Core, acts: seq<Act>): E.Core {
    if acts == [] then c else Perform(env, Session(env, c, acts[..|acts| - 1]), acts[|acts| - 1])
  }

  /** How often a block's call was answered. */
  function Answers(events: seq<BlockEvent>, id: nat): nat {
    if events == [] then 0
    else
      var last := events[|events| - 1];
      Answers(events[..|events| - 1], id) + if last.ToolResult? && last.block == id then 1 else 0
  }

  lemma {:induction false} AnswersAppend(a: seq<BlockEvent>, b: seq<BlockEvent>, id: nat)
    ensures Answers(a + b, id) == Answers(a, id) + Answers(b, id)
  {
    if b == [] {
      assert a + b == a;
    } else {
      AnswersAppend(a, b[..|b| - 1], id);
      assert (a + b)[..|a + b| - 1] == a + b[..|b| - 1];
    }
  }

  /** Events of which at most one answers, and then block `id`. */
  lemma AnswersOf(events: seq<BlockEvent>, told: seq<BlockEvent>, front: seq<BlockEvent>, back: seq<BlockEvent>, id: nat)
    requires events == front + told + back && |told| <= 1
    requires forall e :: e in front || e in back ==> !e.ToolResult?
    ensures Answers(events, id) == if told != [] && told[0].ToolResult? && told[0].block == id then 1 else 0
  {
    AnswersAppend(front + told, back, id);
    AnswersAppend(front, told, id);
    NoAnswer(front, id);
    NoAnswer(back, id);
    assert told != [] ==> told[..0] == [];
  }

  lemma {:induction false} NoAnswer(events: seq<BlockEvent>, id: nat)
    requires forall e :: e in events ==> !e.ToolResult?
    ensures Answers(events, id) == 0
  {
    if events != [] {
      NoAnswer(events[..|events| - 1], id);
    }
  }

  /** An agent's block that is active, and is not any more after the step. */
  predicate Leaves(env: E.Env, c: E.Core, a: Act, id: nat) {
    && c.blocks.Active().id == id && c.blocks.Active().owner.Agent?
    && Perform(env, c, a).blocks.Active().id != id
  }

  /** The step is the shell's first sign of being ready, which opens a block whatever runs. */
  predicate Boots(a: Act) {
    a.Stream? && a.m.Hook? && a.m.event.Bootstrapped?
  }

  /** The agents' blocks that were left behind, and those of them a boot left behind. */
  function Left(env: E.Env, c: E.Core, acts: seq<Act>): set<nat> {
    if acts == [] then {}
    else
      var mid, a := Session(env, c, acts[..|acts| - 1]), acts[|acts| - 1];
      Left(env, c, acts[..|acts| - 1]) + if Leaves(env, mid, a, mid.blocks.Active().id) then {mid.blocks.Active().id} else {}
  }

  function Abandoned(env: E.Env, c: E.Core, acts: seq<Act>): set<nat> {
    if acts == [] then {}
    else
      var mid, a := Session(env, c, acts[..|acts| - 1]), acts[|acts| - 1];
      Abandoned(env, c, acts[..|acts| - 1])
        + if Leaves(env, mid, a, mid.blocks.Active().id) && Boots(a) then {mid.blocks.Active().id} else {}
  }

  /** Ids are given out once, and the agent's active block is running. */
  ghost predicate Sound(c: E.Core) {
    IdsApart(c.blocks) && (c.blocks.Active().owner.Agent? ==> c.blocks.Active().state.Executing?)
  }

  /** What a step does to the answers: exactly the agent's block it leaves behind, but for
      a boot, is answered. The next active block is the same or a new one. */
  ghost predicate Answered(env: E.Env, c: E.Core, a: Act, r: E.Core) {
    && Sound(r) && c.blocks.nextId <= r.blocks.nextId
    && (r.blocks.Active().id == c.blocks.Active().id || r.blocks.Active().id == c.blocks.nextId < r.blocks.nextId)
    && forall id :: Answers(r.blockEvents, id) == Answers(c.blockEvents, id) + if Leaves(env, c, a, id) && !Boots(a) then 1 else 0
  }

  lemma Reported(env: E.Env, c: E.Core, a: Act, events: seq<BlockEvent>, told: seq<BlockEvent>, front: seq<BlockEvent>,
                 back: seq<BlockEvent>)
    requires Perform(env, c, a).blockEvents == c.blockEvents + events && events == front + told + back
    requires match c.blocks.Active().owner
             case User => told == []
             case Agent(_, _) => |told| == 1 && told[0].ToolResult? && told[0].block == c.blocks.Active().id
    requires forall e :: e in front || e in back ==> !e.ToolResult?
    requires Perform(env, c, a).blocks.Active().id != c.blocks.Active().id && !Boots(a)
    ensures forall id :: Answers(Perform(env, c, a).blockEvents, id)
                         == Answers(c.blockEvents, id) + if Leaves(env, c, a, id) && !Boots(a) then 1 else 0
  {
    forall id ensures Answers(Perform(env, c, a).blockEvents, id)
                      == Answers(c.blockEvents, id) + if Leaves(env, c, a, id) && !Boots(a) then 1 else 0
    {
      AnswersAppend(c.blockEvents, events, id);
      AnswersOf(events, told, front, back, id);
    }
  }

  /** A step that reports no answer and leaves no agent's block, but by a boot. */
  lemma Unreported(env: E.Env, c: E.Core, a: Act, events: seq<BlockEvent>)
    requires Perform(env, c, a).blockEvents == c.blockEvents + events && forall e :: e in events ==> !e.ToolResult?
    requires Boots(a) || Perform(env, c, a).blocks.Active().id == c.blocks.Active().id
    ensures forall id :: Answers(Perform(env, c, a).blockEvents, id)
                         == Answers(c.blockEvents, id) + if Leaves(env, c, a, id) && !Boots(a) then 1 else 0
  {
    forall id ensures Answers(Perform(env, c, a).blockEvents, id) == Answers(c.blockEvents, id) {
      AnswersAppend(c.blockEvents, events, id);
      NoAnswer(events, id);
    }
  }

  lemma FinishAnswers(env: E.Env, c: E.Core, code: int, next: Option<string>)
    requires Sound(c)
    ensures var a := Stream(E.Hook(H.CommandFinished(code, next))); Answered(env, c, a, Perform(env, c, a))
  {
    var event := H.CommandFinished(code, next);
    var told := FinishDoes(env, c, code, next);
    MicroApart(env, c, E.Hook(event));
    var front := [BlockFinished(c.blocks.Active().id, code, code != 0)];
    assert front + told + [] == front + told;
    Reported(env, c, Stream(E.Hook(event)), front + told, told, front, []);
  }

  lemma PromptAnswers(env: E.Env, c: E.Core, facts: H.PromptFacts)
    requires Sound(c)
    ensures var a := Stream(E.Hook(H.Precmd(facts))); Answered(env, c, a, Perform(env, c, a))
  {
    MicroApart(env, c, E.Hook(H.Precmd(facts)));
    if c.blocks.Active().state.Executing? {
      var told := PromptPromotes(env, c, facts);
      var back := [MetadataUpdated(c.blocks.nextId)];
      assert [] + told + back == told + back;
      Reported(env, c, Stream(E.Hook(H.Precmd(facts))), told + back, told, [], back);
    } else {
      PromptDoes(env, c, facts);
      Unreported(env, c, Stream(E.Hook(H.Precmd(facts))), [MetadataUpdated(c.blocks.Active().id)]);
    }
  }

  lemma StartAnswers(env: E.Env, c: E.Core, command: Option<string>)
    requires Sound(c)
    ensures var a := Stream(E.Hook(H.Preexec(command))); Answered(env, c, a, Perform(env, c, a))
  {
    MicroApart(env, c, E.Hook(H.Preexec(command)));
    StartDoes(env, c, command);
    Unreported(env, c, Stream(E.Hook(H.Preexec(command))), [BlockStarted(c.blocks.Active().id)]);
  }

  lemma ShellAnswers(env: E.Env, c: E.Core, event: H.HookEvent)
    requires Sound(c) && (event.InitShell? || event.Bootstrapped?)
    ensures var a := Stream(E.Hook(event)); Answered(env, c, a, Perform(env, c, a))
  {
    MicroApart(env, c, E.Hook(event));
    if event.InitShell? {
      ShellDoes(env, c, event.sessionId, event.shell, event.host, event.cwd, event.honorPs1, None);
      Unreported(env, c, Stream(E.Hook(event)), [SessionInitialized(event.sessionId, event.shell)]);
    } else {
      ShellDoes(env, c, None, None, None, None, None, event.version);
      assert c.blockEvents + [] == c.blockEvents;
      Unreported(env, c, Stream(E.Hook(event)), if c.blocks.bootstrapped then [] else [ShellBootstrapped]);
    }
  }

  lemma EditAnswers(env: E.Env, c: E.Core, event: H.HookEvent)
    requires Sound(c) && (event.InputBuffer? || event.Clear?)
    ensures var a := Stream(E.Hook(event)); Answered(env, c, a, Perform(env, c, a))
  {
    MicroApart(env, c, E.Hook(event));
    if event.Clear? {
      ClearDoes(env, c);
      Unreported(env, c, Stream(E.Hook(event)), [Cleared(c.blocks.active)]);
    } else {
      InputDoes(env, c, event.buffer, event.cursor);
      Unreported(env, c, Stream(E.Hook(event)), [InputBufferChanged(event.buffer, event.cursor)]);
    }
  }

  lemma ByteAnswers(env: E.Env, c: E.Core, b: byte)
    requires Sound(c)
    ensures var a := Stream(E.Byte(b)); Answered(env, c, a, Perform(env, c, a))
  {
    MicroApart(env, c, E.Byte(b));
    assert c.blockEvents + [] == c.blockEvents;
    Unreported(env, c, Stream(E.Byte(b)), []);
  }

  lemma StepAnswers(env: E.Env, c: E.Core, a: Act)
    requires Sound(c)
    ensures Answered(env, c, a, Perform(env, c, a))
  {
    if a.ClaimNext? {
      assert c.blockEvents + [] == c.blockEvents;
      Unreported(env, c, a, []);
    } else if a.m.Byte? {
      ByteAnswers(env, c, a.m.b);
    } else if a.m.event.CommandFinished? {
      FinishAnswers(env, c, a.m.event.exitCode, a.m.event.nextBlockId);
    } else if a.m.event.Precmd? {
      PromptAnswers(env, c, a.m.event.prompt);
    } else if a.m.event.Preexec? {
      StartAnswers(env, c, a.m.event.command);
    } else if a.m.event.InitShell? || a.m.event.Bootstrapped? {
      ShellAnswers(env, c, a.m.event);
    } else {
      EditAnswers(env, c, a.m.event);
    }
  }

  /** Over a session: which calls were answered, and which blocks can still be. */
  ghost predicate Ledger(c: E.Core, r: E.Core, left: set<nat>, abandoned: set<nat>) {
    && Sound(r) && c.blocks.nextId <= r.blocks.nextId && abandoned <= left
    && (r.blocks.Active().id == c.blocks.Active().id || c.blocks.nextId <= r.blocks.Active().id)
    && (forall id :: id in left ==> id < r.blocks.nextId && id != r.blocks.Active().id)
    && forall id :: Answers(r.blockEvents, id) == Answers(c.blockEvents, id) + if id in left && id !in abandoned then 1 else 0
  }

  lemma {:induction false} SessionAnswers(env: E.Env, c: E.Core, acts: seq<Act>)
    requires Sound(c)
    ensures Ledger(c, Session(env, c, acts), Left(env, c, acts), Abandoned(env, c, acts))
  {
    if acts != [] {
      var front, a := acts[..|acts| - 1], acts[|acts| - 1];
      SessionAnswers(env, c, front);
      StepAnswers(env, Session(env, c, front), a);
      LedgerStep(env, c, front, a);
      assert acts == front + [a];
    }
  }

  lemma LedgerStep(env: E.Env, c: E.Core, front: seq<Act>, a: Act)
    requires var mid := Session(env, c, front);
             Ledger(c, mid, Left(env, c, front), Abandoned(env, c, front)) && Answered(env, mid, a, Perform(env, mid, a))
    ensures Ledger(c, Session(env, c, front + [a]), Left(env, c, front + [a]), Abandoned(env, c, front + [a]))
  {
    assert (front + [a])[..|front + [a]| - 1] == front;
    LedgerGrows(env, c, Session(env, c, front), a, Left(env, c, front), Abandoned(env, c, front));
  }

  lemma LedgerGrows(env: E.Env, c: E.Core, mid: E.Core, a: Act, left: set<nat>, abandoned: set<nat>)
    requires Ledger(c, mid, left, abandoned) && Answered(env, mid, a, Perform(env, mid, a))
    ensures var id := mid.blocks.Active().id;
            Ledger(c, Perform(env, mid, a), left + (if Leaves(env, mid, a, id) then {id} else {}),
                   abandoned + if Leaves(env, mid, a, id) && Boots(a) then {id} else {})
  {
    forall id ensures Leaves(env, mid, a, id) ==> id == mid.blocks.Active().id && id !in left {
    }
  }

  /** Every agent's block but the active one is among those left behind. */
  ghost predicate Listed(list: ValidList, left: set<nat>) {
    forall i :: 0 <= i < |list.blocks| && i != list.active && list.blocks[i].owner.Agent? ==> list.blocks[i].id in left
  }

  /** Every block but the active one was there before, `gone` places further, with its
      owner; the one that was active only if it is not active any more. */
  predicate Stays(was: ValidList, now: ValidList, gone: nat) {
    forall i :: 0 <= i < |now.blocks| && i != now.active ==> SameBlock(was, now, gone, i)
  }

  predicate SameBlock(was: ValidList, now: ValidList, gone: nat, i: nat)
    requires i < |now.blocks|
  {
    var j := gone + i;
    && j < |was.blocks| && was.blocks[j].id == now.blocks[i].id && was.blocks[j].owner == now.blocks[i].owner
    && (j == was.active ==> now.Active().id != was.Active().id)
  }

  lemma OpensStays(was: ValidList, now: ValidList)
    requires IdsApart(was) && Opens(was, now) && now.blocks[was.active].id == was.Active().id
    requires now.blocks[was.active].owner == was.Active().owner
    ensures Stays(was, now, 0)
  {
  }

  lemma ActiveStays(was: ValidList, now: ValidList, b: Block)
    requires now.blocks == was.blocks[was.active := b] && now.active == was.active
    ensures Stays(was, now, 0)
  {
  }

  lemma ClearStays(env: E.Env, c: E.Core)
    ensures Stays(c.blocks, E.StepMicro(env, c, E.Hook(H.Clear)).blocks, c.blocks.active)
  {
    ClearDoes(env, c);
  }

  lemma PromptStays(env: E.Env, c: E.Core, facts: H.PromptFacts)
    requires Sound(c)
    ensures Stays(c.blocks, E.StepMicro(env, c, E.Hook(H.Precmd(facts))).blocks, 0)
  {
    var r := E.StepMicro(env, c, E.Hook(H.Precmd(facts))).blocks;
    if c.blocks.Active().state.Executing? {
      var told := PromptPromotes(env, c, facts);
      OpensStays(c.blocks, r);
    } else {
      PromptDoes(env, c, facts);
      ActiveStays(c.blocks, r, r.Active());
    }
  }

  lemma EdgesStay(env: E.Env, c: E.Core, event: H.HookEvent)
    requires Sound(c) && (event.InitShell? || event.Bootstrapped? || event.InputBuffer?)
    ensures Stays(c.blocks, E.StepMicro(env, c, E.Hook(event)).blocks, 0)
  {
    var r := E.StepMicro(env, c, E.Hook(event)).blocks;
    assert c.blocks.blocks[c.blocks.active := c.blocks.Active()] == c.blocks.blocks;
    if event.InitShell? {
      ShellDoes(env, c, event.sessionId, event.shell, event.host, event.cwd, event.honorPs1, None);
      ActiveStays(c.blocks, r, c.blocks.Active());
    } else if event.Bootstrapped? {
      ShellDoes(env, c, None, None, None, None, None, event.version);
      if c.blocks.bootstrapped {
        ActiveStays(c.blocks, r, c.blocks.Active());
      } else {
        OpensStays(c.blocks, r);
      }
    } else {
      InputDoes(env, c, event.buffer, event.cursor);
      ActiveStays(c.blocks, r, c.blocks.Active());
    }
  }

  lemma ByteStays(env: E.Env, c: E.Core, b: byte)
    ensures Stays(c.blocks, E.StepMicro(env, c, E.Byte(b)).blocks, 0)
  {
    var r := E.StepMicro(env, c, E.Byte(b)).blocks;
    ActiveStays(c.blocks, r, r.Active());
  }

  lemma CommandStays(env: E.Env, c: E.Core, event: H.HookEvent)
    requires Sound(c) && (event.CommandFinished? || event.Preexec?)
    ensures Stays(c.blocks, E.StepMicro(env, c, E.Hook(event)).blocks, 0)
  {
    var r := E.StepMicro(env, c, E.Hook(event)).blocks;
    if event.CommandFinished? {
      var told := FinishDoes(env, c, event.exitCode, event.nextBlockId);
      OpensStays(c.blocks, r);
    } else {
      StartDoes(env, c, event.command);
      ActiveStays(c.blocks, r, r.Active());
    }
  }

  /** The blocks a step drops from the front. */
  function Gone(c: E.Core, a: Act): nat {
    if a.Stream? && a.m.Hook? && a.m.event.Clear? then c.blocks.active else 0
  }

  lemma StepStays(env: E.Env, c: E.Core, a: Act)
    requires Sound(c)
    ensures Stays(c.blocks, Perform(env, c, a).blocks, Gone(c, a))
  {
    if a.ClaimNext? {
      assert c.blocks.blocks[c.blocks.active := c.blocks.Active()] == c.blocks.blocks;
      ActiveStays(c.blocks, Perform(env, c, a).blocks, c.blocks.Active());
    } else if a.m.Byte? {
      ByteStays(env, c, a.m.b);
    } else if a.m.event.CommandFinished? || a.m.event.Preexec? {
      CommandStays(env, c, a.m.event);
    } else if a.m.event.Precmd? {
      PromptStays(env, c, a.m.event.prompt);
    } else if a.m.event.Clear? {
      ClearStays(env, c);
    } else {
      EdgesStay(env, c, a.m.event);
    }
  }

  lemma ListedBlock(env: E.Env, c: E.Core, a: Act, left: set<nat>, i: nat)
    requires Listed(c.blocks, left)
    requires var now := Perform(env, c, a).blocks;
             i < |now.blocks| && now.blocks[i].owner.Agent? && SameBlock(c.blocks, now, Gone(c, a), i)
    ensures var id := c.blocks.Active().id;
            Perform(env, c, a).blocks.blocks[i].id in left + if Leaves(env, c, a, id) then {id} else {}
  {
  }

  lemma ListedStep(env: E.Env, c: E.Core, a: Act, left: set<nat>)
    requires Sound(c) && Listed(c.blocks, left)
    ensures var id := c.blocks.Active().id;
            Listed(Perform(env, c, a).blocks, left + if Leaves(env, c, a, id) then {id} else {})
  {
    var was, now := c.blocks, Perform(env, c, a).blocks;
    StepStays(env, c, a);
    forall i | 0 <= i < |now.blocks| && i != now.active && now.blocks[i].owner.Agent?
      ensures now.blocks[i].id in left + if Leaves(env, c, a, was.Active().id) then {was.Active().id} else {}
    {
      ListedBlock(env, c, a, left, i);
    }
  }

  lemma {:induction false} SessionListed(env: E.Env, c: E.Core, acts: seq<Act>)
    requires Sound(c) && Listed(c.blocks, {})
    ensures Listed(Session(env, c, acts).blocks, Left(env, c, acts))
  {
    if acts != [] {
      SessionListed(env, c, acts[..|acts| - 1]);
      SessionAnswers(env, c, acts[..|acts| - 1]);
      ListedStep(env, Session(env, c, acts[..|acts| - 1]), acts[|acts| - 1], Left(env, c, acts[..|acts| - 1]));
    }
  }

  /** Over every session of a new pane: the call of an agent's block is answered exactly
      once when the block is not the active one any more, and never before; but for a
      block that the shell's first sign of being ready took the place of. */
  lemma EveryCallAnsweredOnce(env: E.Env, acts: seq<Act>, i: nat)
    requires var r := Session(env, E.NEW_PANE.core, acts).blocks; i < |r.blocks| && r.blocks[i].owner.Agent?
    ensures var r := Session(env, E.NEW_PANE.core, acts);
            var id := r.blocks.blocks[i].id;
            Answers(r.blockEvents, id) == if i == r.blocks.active || id in Abandoned(env, E.NEW_PANE.core, acts) then 0 else 1
  {
    SessionAnswers(env, E.NEW_PANE.core, acts);
    SessionListed(env, E.NEW_PANE.core, acts);
  }

  /** A claim is taken exactly on the active block, while that waits for a command: the
      command that starts there is the agent's, whatever is typed before it. */
  lemma ClaimIsHonoured(env: E.Env, c: E.Core, id: nat, owner: BlockOwner, typed: seq<byte>, command: Option<string>)
    requires Sound(c)
    ensures var (claimed, taken) := Claimed(c.blocks, id, owner);
            && (taken <==> c.blocks.Active().id == id && c.blocks.Active().state.BeforeExecution?)
            && claimed == (if taken then c.blocks.(claim := Some(Claim(id, owner))) else c.blocks)
    ensures Claimed(c.blocks, id, owner).1 ==>
              var mid := E.RunMicros(env, Perform(env, c, ClaimNext(id, owner)), E.Bytes(typed));
              var r := E.StepMicro(env, mid, E.Hook(H.Preexec(command))).blocks;
              r.Active().id == id && r.Active().owner == owner && r.claim == None
  {
    if Claimed(c.blocks, id, owner).1 {
      var claimed := Perform(env, c, ClaimNext(id, owner));
      var mid := E.RunMicros(env, claimed, E.Bytes(typed));
      if typed == [] {
        assert mid == claimed;
      } else {
        BytesLand(env, claimed, typed);
      }
      StartDoes(env, mid, command);
    }
  }

  lemma Then(env: E.Env, c: E.Core, acts: seq<Act>, a: Act)
    ensures Session(env, c, acts + [a]) == Perform(env, Session(env, c, acts), a)
    ensures var mid := Session(env, c, acts);
            Abandoned(env, c, acts + [a]) == Abandoned(env, c, acts)
              + if Leaves(env, mid, a, mid.blocks.Active().id) && Boots(a) then {mid.blocks.Active().id} else {}
  {
    assert (acts + [a])[..|acts + [a]| - 1] == acts;
  }

  /** A finish, a claim on the block it opens, the claimed command. */
  function ClaimedEarly(owner: BlockOwner): seq<Act> {
    [Stream(E.Hook(H.CommandFinished(0, None)))] + [ClaimNext(2, owner)] + [Stream(E.Hook(H.Preexec(Some("ls"))))]
  }

  /** Such a block is there to be lost: the shell's first sign of being ready comes while
      the agent's command runs, and its call is never answered. */
  lemma BootAbandons(env: E.Env, owner: BlockOwner)
    requires owner.Agent?
    ensures var acts := ClaimedEarly(owner) + [Stream(E.Hook(H.Bootstrapped(None)))];
            2 in Abandoned(env, E.NEW_PANE.core, acts) && Answers(Session(env, E.NEW_PANE.core, acts).blockEvents, 2) == 0
  {
    var c0 := E.NEW_PANE.core;
    var finish, claim, start := Stream(E.Hook(H.CommandFinished(0, None))), ClaimNext(2, owner), Stream(E.Hook(H.Preexec(Some("ls"))));
    var boot := Stream(E.Hook(H.Bootstrapped(None)));
    var c1 := Perform(env, c0, finish);
    var told := FinishDoes(env, c0, 0, None);
    Then(env, c0, [], finish);
    assert [] + [finish] == [finish];
    Then(env, c0, [finish], claim);
    Then(env, c0, [finish] + [claim], start);
    Then(env, c0, ClaimedEarly(owner), boot);
    StepAnswers(env, c0, finish);
    EarlyStart(env, c1, owner);
    SessionAnswers(env, c0, ClaimedEarly(owner) + [boot]);
  }

  lemma EarlyStart(env: E.Env, c: E.Core, owner: BlockOwner)
    requires Sound(c) && c.blocks.Active().id == 2 && c.blocks.Active().state.BeforeExecution? && !c.blocks.bootstrapped
    requires owner.Agent?
    ensures var r := Perform(env, Perform(env, c, ClaimNext(2, owner)), Stream(E.Hook(H.Preexec(Some("ls")))));
            Leaves(env, r, Stream(E.Hook(H.Bootstrapped(None))), 2)
  {
    var claimed := Perform(env, c, ClaimNext(2, owner));
    StartDoes(env, claimed, Some("ls"));
    MicroApart(env, claimed, E.Hook(H.Preexec(Some("ls"))));
    var r := Perform(env, claimed, Stream(E.Hook(H.Preexec(Some("ls")))));
    ShellDoes(env, r, None, None, None, None, None, None);
  }
}
