/**
 The control bridge: handlers on their own threads put verbs on a channel and
 wait for their reply; the UI thread drains the channel between its own changes,
 one verb at a time. Every send, take, run, reply, receipt, timeout and the
 closing of the window is a step of its own.
 */
module ControlBridge {
  import opened Base
  import opened Workspace
  import opened TabProofs
  import UI = UiState

  datatype Pending = Pending(call: nat, command: Command)

  /** What a handler returns to its client. */
  datatype CallState =
    | Waiting
    | Answered(answer: Answer)
    | TimedOut
    | Disconnected     // the window closed with the verb still on the channel
    | NotSent          // the window had closed before

  datatype Call = Call(command: Command, state: CallState)

  /** Where the drain loop stands. */
  datatype Drain = Idle | Taken(pending: Pending) | Executed(pending: Pending, answer: Answer)

  /** What the UI thread did, in order. */
  datatype Event = Ran(call: nat, command: Command, env: Env) | Local(env: Env, op: Op)

  datatype Bridge = Bridge(ws: Ws, queue: seq<Pending>, calls: seq<Call>, sent: nat, replies: map<nat, Answer>,
                           open: bool, drain: Drain, log: seq<Event>)

  datatype Step =
    | Send(command: Command)
    | Take
    | Execute(env: Env)
    | Reply
    | Receive(call: nat)
    | TimeOut(call: nat)
    | Disconnect(call: nat)
    | Change(env: Env, op: Op)
    | CloseWindow

  /** What the UI thread does to its state: a verb, and a change of its own. The
      bridge's properties hold of any. */
  datatype Ui = Ui(run: (Env, Ws, Command) -> (Ws, Answer), change: (Env, Ws, Op) -> Ws)

  /** What the app's does. */
  function App(): Ui {
    Ui((env: Env, ws: Ws, command: Command) => Handle(env, ws, command),
       (env: Env, ws: Ws, op: Op) => if ws.activeSpace < |ws.spaces| then Perform(ws, env, op) else ws)
  }

  function Start(ws: Ws): Bridge {
    Bridge(ws, [], [], 0, map[], true, Idle, [])
  }

  predicate WaitingOn(b: Bridge, call: nat) {
    call < |b.calls| && b.calls[call].state.Waiting?
  }

  /** A step happens only where it can; the channel, the loop and the window
      belong to the UI thread, so it closes the window between verbs. */
  predicate Enabled(b: Bridge, s: Step) {
    match s
    case Send(_) => true
    case Take => b.open && b.drain.Idle? && b.queue != []
    case Execute(_) => b.drain.Taken?
    case Reply => b.drain.Executed?
    case Receive(call) => WaitingOn(b, call) && call in b.replies
    case TimeOut(call) => WaitingOn(b, call) && call !in b.replies
    case Disconnect(call) => WaitingOn(b, call) && call !in b.replies && !b.open
    case Change(_, _) => b.open && b.drain.Idle?
    case CloseWindow => b.open && b.drain.Idle?
  }

  function Resolve(b: Bridge, call: nat, state: CallState): Bridge
    requires call < |b.calls|
  {
    b.(calls := b.calls[call := b.calls[call].(state := state)])
  }

  function Next(ui: Ui, b: Bridge, s: Step): Bridge
    requires Enabled(b, s)
  {
    match s
    case Send(command) =>
      if b.open
      then b.(calls := b.calls + [Call(command, Waiting)], queue := b.queue + [Pending(|b.calls|, command)],
              sent := b.sent + 1)
      else b.(calls := b.calls + [Call(command, NotSent)])
    case Take => b.(drain := Taken(b.queue[0]), queue := b.queue[1..])
    case Execute(env) =>
      var p := b.drain.pending;
      var (ws, answer) := ui.run(env, b.ws, p.command);
      b.(ws := ws, drain := Executed(p, answer), log := b.log + [Ran(p.call, p.command, env)])
    case Reply => b.(replies := b.replies[b.drain.pending.call := b.drain.answer], drain := Idle)
    case Receive(call) => Resolve(b, call, Answered(b.replies[call]))
    case TimeOut(call) => Resolve(b, call, TimedOut)
    case Disconnect(call) => Resolve(b, call, Disconnected)
    case Change(env, op) => b.(ws := ui.change(env, b.ws, op), log := b.log + [Local(env, op)])
    case CloseWindow => b.(open := false, queue := [])
  }

  function After(ui: Ui, ws: Ws, e: Event): Ws {
    match e
    case Ran(_, command, env) => ui.run(env, ws, command).0
    case Local(env, op) => ui.change(env, ws, op)
  }

  /** The workspace after the UI thread's history, one entry after the other. */
  function Replay(ui: Ui, ws: Ws, log: seq<Event>): Ws {
    if log == [] then ws else After(ui, Replay(ui, ws, log[..|log| - 1]), log[|log| - 1])
  }

  /** The answer the sequential history gives a call, if it ran it. */
  function AnswerIn(ui: Ui, ws: Ws, log: seq<Event>, call: nat): Option<Answer> {
    if log == [] then None
    else
      var rest, last := log[..|log| - 1], log[|log| - 1];
      if last.Ran? && last.call == call then Some(ui.run(last.env, Replay(ui, ws, rest), last.command).1)
      else AnswerIn(ui, ws, rest, call)
  }

  function RanId(e: Event): seq<nat> {
    if e.Ran? then [e.call] else []
  }

  /** The calls run, in the order they ran. */
  function RanIds(log: seq<Event>): seq<nat> {
    FlatMap(RanId, log)
  }

  function UpTo(n: nat): seq<nat> {
    seq(n, i => i)
  }

  /** How many calls the UI thread has taken off the channel and run. */
  function RanCount(b: Bridge): nat {
    |RanIds(b.log)|
  }

  /** Calls that left the channel: those run, and the one taken but not yet run. */
  function TakenCount(b: Bridge): nat {
    RanCount(b) + if b.drain.Taken? then 1 else 0
  }

  ghost predicate QueueInv(b: Bridge) {
    && b.sent <= |b.calls|
    && RanIds(b.log) == UpTo(RanCount(b))
    && TakenCount(b) + |b.queue| <= b.sent
    && (b.open ==> TakenCount(b) + |b.queue| == b.sent == |b.calls|)
    && (!b.open ==> b.drain.Idle? && b.queue == [])
    && (forall k :: 0 <= k < |b.queue| ==>
          b.queue[k].call == TakenCount(b) + k && b.queue[k].command == b.calls[b.queue[k].call].command)
    && (b.drain.Taken? ==> b.drain.pending.call == RanCount(b)
                           && b.drain.pending.command == b.calls[RanCount(b)].command)
    && (b.drain.Executed? ==> b.drain.pending.call + 1 == RanCount(b))
    && (forall k :: 0 <= k < |b.log| && b.log[k].Ran? ==>
          b.log[k].call < |b.calls| && b.log[k].command == b.calls[b.log[k].call].command)
  }

  /** Calls whose reply is in their slot: all that ran, but for one not yet replied to. */
  function RepliedCount(b: Bridge): nat
    requires b.drain.Executed? ==> RanCount(b) > 0
  {
    RanCount(b) - if b.drain.Executed? then 1 else 0
  }

  ghost predicate ReplyInv(ui: Ui, b: Bridge, ws0: Ws) {
    && b.ws == Replay(ui, ws0, b.log)
    && (b.drain.Executed? ==> RanCount(b) > 0)
    && (b.drain.Executed? ==> AnswerIn(ui, ws0, b.log, b.drain.pending.call) == Some(b.drain.answer))
    && (forall call :: call in b.replies <==> 0 <= call < RepliedCount(b))
    && (forall call :: call in b.replies ==> AnswerIn(ui, ws0, b.log, call) == Some(b.replies[call]))
  }

  /** What a settled call stands on. */
  predicate CallOk(b: Bridge, call: nat, state: CallState) {
    match state
    case Answered(answer) => call in b.replies && b.replies[call] == answer
    case Disconnected => !b.open && call >= RanCount(b)
    case NotSent => call >= b.sent
    case _ => true
  }

  ghost predicate CallInv(b: Bridge) {
    forall call :: 0 <= call < |b.calls| ==> CallOk(b, call, b.calls[call].state)
  }

  ghost predicate Inv(ui: Ui, b: Bridge, ws0: Ws) {
    QueueInv(b) && ReplyInv(ui, b, ws0) && CallInv(b)
  }

  lemma LogGrows(ui: Ui, ws0: Ws, log: seq<Event>, e: Event)
    ensures RanIds(log + [e]) == RanIds(log) + RanId(e)
    ensures Replay(ui, ws0, log + [e]) == After(ui, Replay(ui, ws0, log), e)
    ensures forall call :: AnswerIn(ui, ws0, log + [e], call) ==
              if e.Ran? && e.call == call then Some(ui.run(e.env, Replay(ui, ws0, log), e.command).1)
              else AnswerIn(ui, ws0, log, call)
  {
    FlatMapOne(RanId, log, e);
    assert (log + [e])[..|log + [e]| - 1] == log;
  }

  lemma ExecuteKeeps(ui: Ui, b: Bridge, ws0: Ws, env: Env)
    requires Inv(ui, b, ws0) && Enabled(b, Execute(env))
    ensures Inv(ui, Next(ui, b, Execute(env)), ws0)
  {
    var p := b.drain.pending;
    LogGrows(ui, ws0, b.log, Ran(p.call, p.command, env));
    assert UpTo(RanCount(b)) + [RanCount(b)] == UpTo(RanCount(b) + 1);
    var b' := Next(ui, b, Execute(env));
    assert RanCount(b') == RanCount(b) + 1;
    assert TakenCount(b') == TakenCount(b);
  }

  lemma ChangeKeeps(ui: Ui, b: Bridge, ws0: Ws, env: Env, op: Op)
    requires Inv(ui, b, ws0) && Enabled(b, Change(env, op))
    ensures Inv(ui, Next(ui, b, Change(env, op)), ws0)
  {
    LogGrows(ui, ws0, b.log, Local(env, op));
    assert RanIds(b.log) + [] == RanIds(b.log);
    assert RanCount(Next(ui, b, Change(env, op))) == RanCount(b);
  }

  lemma SendKeeps(ui: Ui, b: Bridge, ws0: Ws, command: Command)
    requires Inv(ui, b, ws0)
    ensures Inv(ui, Next(ui, b, Send(command)), ws0)
  {
  }

  lemma TakeKeeps(ui: Ui, b: Bridge, ws0: Ws)
    requires Inv(ui, b, ws0) && Enabled(b, Take)
    ensures Inv(ui, Next(ui, b, Take), ws0)
  {
    assert TakenCount(Next(ui, b, Take)) == TakenCount(b) + 1;
  }

  lemma ReplyKeeps(ui: Ui, b: Bridge, ws0: Ws)
    requires Inv(ui, b, ws0) && Enabled(b, Reply)
    ensures Inv(ui, Next(ui, b, Reply), ws0)
  {
    ReplyKeepsQueue(ui, b);
    ReplyKeepsReplies(ui, b, ws0);
    ReplyKeepsCalls(ui, b, ws0);
  }

  lemma ReplyKeepsQueue(ui: Ui, b: Bridge)
    requires QueueInv(b) && Enabled(b, Reply)
    ensures QueueInv(Next(ui, b, Reply))
  {
  }

  lemma ReplyKeepsReplies(ui: Ui, b: Bridge, ws0: Ws)
    requires QueueInv(b) && ReplyInv(ui, b, ws0) && Enabled(b, Reply)
    ensures ReplyInv(ui, Next(ui, b, Reply), ws0)
  {
    var b' := Next(ui, b, Reply);
    assert b'.log == b.log && RepliedCount(b') == RepliedCount(b) + 1 && b.drain.pending.call == RepliedCount(b);
  }

  lemma ReplyKeepsCalls(ui: Ui, b: Bridge, ws0: Ws)
    requires QueueInv(b) && ReplyInv(ui, b, ws0) && CallInv(b) && Enabled(b, Reply)
    ensures CallInv(Next(ui, b, Reply))
  {
    var b' := Next(ui, b, Reply);
    assert RanCount(b') == RanCount(b) && b'.open == b.open && b'.sent == b.sent;
    assert b.drain.pending.call !in b.replies;
    forall call | 0 <= call < |b'.calls| ensures CallOk(b', call, b'.calls[call].state) {
      assert CallOk(b, call, b.calls[call].state);
    }
  }

  /** A handler settles, by a reply, a timeout or a closed window. */
  lemma ResolveKeeps(ui: Ui, b: Bridge, ws0: Ws, s: Step)
    requires Inv(ui, b, ws0) && Enabled(b, s) && (s.Receive? || s.TimeOut? || s.Disconnect?)
    ensures Inv(ui, Next(ui, b, s), ws0)
  {
    ResolveKeepsQueue(ui, b, s);
    ResolveKeepsReplies(ui, b, ws0, s);
    ResolveKeepsCalls(ui, b, ws0, s);
  }

  lemma ResolveKeepsQueue(ui: Ui, b: Bridge, s: Step)
    requires QueueInv(b) && Enabled(b, s) && (s.Receive? || s.TimeOut? || s.Disconnect?)
    ensures QueueInv(Next(ui, b, s))
  {
  }

  lemma ResolveKeepsReplies(ui: Ui, b: Bridge, ws0: Ws, s: Step)
    requires ReplyInv(ui, b, ws0) && Enabled(b, s) && (s.Receive? || s.TimeOut? || s.Disconnect?)
    ensures ReplyInv(ui, Next(ui, b, s), ws0)
  {
  }

  lemma ResolveKeepsCalls(ui: Ui, b: Bridge, ws0: Ws, s: Step)
    requires QueueInv(b) && ReplyInv(ui, b, ws0) && CallInv(b) && Enabled(b, s) && (s.Receive? || s.TimeOut? || s.Disconnect?)
    ensures CallInv(Next(ui, b, s))
  {
    var b' := Next(ui, b, s);
    assert RanCount(b') == RanCount(b) && b'.replies == b.replies && b'.open == b.open && b'.sent == b.sent;
    forall call | 0 <= call < |b'.calls| ensures CallOk(b', call, b'.calls[call].state) {
      assert CallOk(b, call, b.calls[call].state);
      if call == s.call {
        assert CallOk(b, call, b'.calls[call].state);
      }
    }
  }

  lemma NextKeepsInv(ui: Ui, b: Bridge, ws0: Ws, s: Step)
    requires Inv(ui, b, ws0) && Enabled(b, s)
    ensures Inv(ui, Next(ui, b, s), ws0)
  {
    if s.Send? {
      SendKeeps(ui, b, ws0, s.command);
    } else if s.Take? {
      TakeKeeps(ui, b, ws0);
    } else if s.Execute? {
      ExecuteKeeps(ui, b, ws0, s.env);
    } else if s.Reply? {
      ReplyKeeps(ui, b, ws0);
    } else if s.Change? {
      ChangeKeeps(ui, b, ws0, s.env, s.op);
    } else if !s.CloseWindow? {
      ResolveKeeps(ui, b, ws0, s);
    }
  }

  /** A run of steps, each possible where it is taken. */
  ghost predicate Reaches(ui: Ui, b: Bridge, steps: seq<Step>, r: Bridge)
    decreases |steps|
  {
    if steps == [] then r == b
    else Enabled(b, steps[0]) && Reaches(ui, Next(ui, b, steps[0]), steps[1..], r)
  }

  lemma {:induction false} RunsKeepInv(ui: Ui, b: Bridge, ws0: Ws, steps: seq<Step>, r: Bridge)
    requires Inv(ui, b, ws0) && Reaches(ui, b, steps, r)
    ensures Inv(ui, r, ws0)
    decreases |steps|
  {
    if steps != [] {
      NextKeepsInv(ui, b, ws0, steps[0]);
      RunsKeepInv(ui, Next(ui, b, steps[0]), ws0, steps[1..], r);
    }
  }

  /** Linearizability: for any handlers and any interleaving, the workspace is
      that of a sequential history in which the verbs sent run once each, in the
      order of the channel, and every handler that got an answer got the answer
      that history gives its own verb. */
  lemma BridgeIsSequential(ui: Ui, ws0: Ws, steps: seq<Step>, b: Bridge)
    requires Reaches(ui, Start(ws0), steps, b)
    ensures b.ws == Replay(ui, ws0, b.log)
    ensures RanIds(b.log) == UpTo(RanCount(b)) && RanCount(b) <= |b.calls|
    ensures forall k :: 0 <= k < |b.log| && b.log[k].Ran? ==>
              b.log[k].call < |b.calls| && b.log[k].command == b.calls[b.log[k].call].command
    ensures forall call :: 0 <= call < |b.calls| && b.calls[call].state.Answered? ==>
              AnswerIn(ui, ws0, b.log, call) == Some(b.calls[call].state.answer)
  {
    RunsKeepInv(ui, Start(ws0), ws0, steps, b);
  }

  /** A verb whose handler gave up still runs, and runs once, when the channel is
      drained with the window open; a verb whose handler was told the window had
      closed never ran. */
  lemma GivenUpStillRunOnce(ui: Ui, ws0: Ws, steps: seq<Step>, b: Bridge)
    requires Reaches(ui, Start(ws0), steps, b)
    ensures b.open && b.queue == [] && b.drain.Idle? ==> RanIds(b.log) == UpTo(|b.calls|)
    ensures forall call :: 0 <= call < |b.calls| && (b.calls[call].state.Disconnected? || b.calls[call].state.NotSent?) ==>
              call !in RanIds(b.log)
    ensures Distinct(RanIds(b.log))
  {
    RunsKeepInv(ui, Start(ws0), ws0, steps, b);
  }

  /** What each step does to the handlers' calls: a send adds one, a receipt, a timeout and
      a closed channel settle one that waits, and nothing else touches any. */
  lemma CallsDo(ui: Ui, b: Bridge, s: Step)
    requires Enabled(b, s)
    ensures var r := Next(ui, b, s);
            match s
            case Send(command) => r.calls == b.calls + [Call(command, if b.open then Waiting else NotSent)]
            case Receive(call) => r == b.(calls := b.calls[call := Call(b.calls[call].command, Answered(b.replies[call]))])
            case TimeOut(call) => r == b.(calls := b.calls[call := Call(b.calls[call].command, TimedOut)])
            case Disconnect(call) => r == b.(calls := b.calls[call := Call(b.calls[call].command, Disconnected)])
            case _ => r.calls == b.calls
  {
  }

  /** What the UI thread's steps do: it takes the oldest verb, runs it, puts the answer into
      its own caller's slot; between verbs it changes its state itself, or closes. */
  lemma LoopDoes(ui: Ui, b: Bridge, s: Step)
    requires Enabled(b, s)
    ensures var r := Next(ui, b, s);
            match s
            case Take => b.open && b.drain == Idle && b.queue == [r.drain.pending] + r.queue && r == b.(queue := r.queue, drain := Taken(b.queue[0]))
            case Execute(env) =>
              var p := b.drain.pending;
              && r.ws == ui.run(env, b.ws, p.command).0 && r.drain == Executed(p, ui.run(env, b.ws, p.command).1)
              && r == b.(ws := r.ws, drain := r.drain, log := b.log + [Ran(p.call, p.command, env)])
            case Reply => r == b.(replies := b.replies[b.drain.pending.call := b.drain.answer], drain := Idle)
            case Change(env, op) =>
              b.open && b.drain == Idle && r == b.(ws := ui.change(env, b.ws, op), log := b.log + [Local(env, op)])
            case CloseWindow => b.open && b.drain == Idle && r == b.(open := false, queue := [])
            case Send(command) =>
              if b.open then r == b.(calls := r.calls, queue := b.queue + [Pending(|b.calls|, command)], sent := b.sent + 1)
              else r == b.(calls := r.calls)
            case _ => r == b.(calls := r.calls)
  {
  }

  /** What a call has come to is never taken back. */
  lemma {:induction false} SettledStays(ui: Ui, b: Bridge, steps: seq<Step>, r: Bridge, call: nat)
    requires Reaches(ui, b, steps, r) && call < |b.calls| && !b.calls[call].state.Waiting?
    ensures call < |r.calls| && r.calls[call] == b.calls[call]
    decreases |steps|
  {
    if steps != [] {
      CallsDo(ui, b, steps[0]);
      SettledStays(ui, Next(ui, b, steps[0]), steps[1..], r, call);
    }
  }

  function StepsToReply(d: Drain): nat {
    match d
    case Idle => 0
    case Taken(_) => 2
    case Executed(_, _) => 1
  }

  /** While the window is open a handler that waits is answered, if the loop goes on and it
      does not give up first. */
  lemma {:induction false} AnswerComes(ui: Ui, b: Bridge, ws0: Ws, call: nat, env: Env) returns (steps: seq<Step>, r: Bridge)
    requires Inv(ui, b, ws0) && b.open && WaitingOn(b, call)
    ensures Reaches(ui, b, steps, r) && call < |r.calls| && r.calls[call].state.Answered?
    ensures AnswerIn(ui, ws0, r.log, call) == Some(r.calls[call].state.answer)
    decreases |b.queue|, StepsToReply(b.drain)
  {
    var s := if call in b.replies then Receive(call)
             else if b.drain.Executed? then Reply
             else if b.drain.Taken? then Execute(env)
             else Take;
    CallsDo(ui, b, s);
    LoopDoes(ui, b, s);
    NextKeepsInv(ui, b, ws0, s);
    if call in b.replies {
      steps, r := [s], Next(ui, b, s);
      assert Reaches(ui, r, steps[1..], r);
    } else {
      var rest;
      rest, r := AnswerComes(ui, Next(ui, b, s), ws0, call, env);
      steps := [s] + rest;
      assert steps[1..] == rest;
    }
  }

  /** And whatever has happened, a handler that waits can be settled at once: by its answer,
      by giving up, and once the window is closed by the closed channel. */
  lemma WaitingCanEnd(b: Bridge, call: nat)
    requires WaitingOn(b, call)
    ensures call in b.replies ==> Enabled(b, Receive(call)) && !Enabled(b, TimeOut(call)) && !Enabled(b, Disconnect(call))
    ensures call !in b.replies ==> Enabled(b, TimeOut(call)) && (Enabled(b, Disconnect(call)) <==> !b.open)
  {
  }

  /** The window opens with an empty channel. */
  lemma StartsOpen(ui: Ui, ws: Ws)
    ensures var b := Start(ws); b.open && b.queue == [] && b.calls == [] && b.drain == Idle && b.ws == ws && Inv(ui, b, ws)
  {
  }

  /** The verbs waiting, run one after the other. */
  function RunAll(ui: Ui, env: Env, ws: Ws, commands: seq<Command>): (Ws, seq<Answer>) {
    if commands == [] then (ws, [])
    else
      var (before, answers) := RunAll(ui, env, ws, commands[..|commands| - 1]);
      var (ws', answer) := ui.run(env, before, commands[|commands| - 1]);
      (ws', answers + [answer])
  }

  /** The drain of a whole queue as entries of the sequential history. */
  function Drained(env: Env, queue: seq<Pending>): seq<Event> {
    seq(|queue|, k requires 0 <= k < |queue| => Ran(queue[k].call, queue[k].command, env))
  }

  function Verbs(queue: seq<Pending>): seq<Command> {
    seq(|queue|, k requires 0 <= k < |queue| => queue[k].command)
  }

  /** Draining a queue is replaying it: same workspace, and each verb is answered
      as the history answers its call. */
  lemma {:induction false} DrainIsReplay(ui: Ui, env: Env, ws: Ws, queue: seq<Pending>)
    requires forall i, j :: 0 <= i < j < |queue| ==> queue[i].call != queue[j].call
    ensures var (after, answers) := RunAll(ui, env, ws, Verbs(queue));
            && after == Replay(ui, ws, Drained(env, queue)) && |answers| == |queue|
            && forall k :: 0 <= k < |queue| ==> AnswerIn(ui, ws, Drained(env, queue), queue[k].call) == Some(answers[k])
  {
    if queue != [] {
      var front, last := queue[..|queue| - 1], queue[|queue| - 1];
      DrainIsReplay(ui, env, ws, front);
      DrainSnoc(ui, env, ws, queue);
      LogGrows(ui, ws, Drained(env, front), Ran(last.call, last.command, env));
      forall k | 0 <= k < |queue|
        ensures AnswerIn(ui, ws, Drained(env, queue), queue[k].call) == Some(RunAll(ui, env, ws, Verbs(queue)).1[k])
      {
        assert k < |front| ==> front[k].call == queue[k].call;
      }
    }
  }

  lemma DrainSnoc(ui: Ui, env: Env, ws: Ws, queue: seq<Pending>)
    requires queue != []
    ensures var front, last := queue[..|queue| - 1], queue[|queue| - 1];
            var (before, answers) := RunAll(ui, env, ws, Verbs(front));
            var (after, answer) := ui.run(env, before, last.command);
            && Drained(env, queue) == Drained(env, front) + [Ran(last.call, last.command, env)]
            && RunAll(ui, env, ws, Verbs(queue)) == (after, answers + [answer])
  {
    assert Verbs(queue)[..|queue| - 1] == Verbs(queue[..|queue| - 1]);
  }

  /** Each verb's answer put into its own caller's slot, in order. */
  function WithReplies(replies: map<nat, Answer>, queue: seq<Pending>, answers: seq<Answer>): map<nat, Answer>
    requires |queue| == |answers|
  {
    if queue == [] then replies
    else
      var n := |queue| - 1;
      WithReplies(replies, queue[..n], answers[..n])[queue[n].call := answers[n]]
  }

  function CallsOf(queue: seq<Pending>): set<nat> {
    set pending | pending in queue :: pending.call
  }

  predicate CallsDiffer(queue: seq<Pending>) {
    forall i, j :: 0 <= i < j < |queue| ==> queue[i].call != queue[j].call
  }

  /** With calls that differ, each gets its own answer, and no other slot is touched. */
  lemma RepliesAreOwn(replies: map<nat, Answer>, queue: seq<Pending>, answers: seq<Answer>)
    requires |queue| == |answers| && CallsDiffer(queue)
    ensures var r := WithReplies(replies, queue, answers);
            && r.Keys == replies.Keys + CallsOf(queue)
            && (forall k :: 0 <= k < |queue| ==> queue[k].call in r && r[queue[k].call] == answers[k])
            && (forall call :: call in replies && call !in CallsOf(queue) ==> r[call] == replies[call])
  {
    RepliedKeys(replies, queue, answers);
    OthersUntouched(replies, queue, answers);
    forall k | 0 <= k < |queue| ensures queue[k].call in WithReplies(replies, queue, answers)
                                     && WithReplies(replies, queue, answers)[queue[k].call] == answers[k] {
      OwnReply(replies, queue, answers, k);
    }
  }

  lemma CallsOfSnoc(queue: seq<Pending>)
    requires queue != []
    ensures CallsOf(queue) == CallsOf(queue[..|queue| - 1]) + {queue[|queue| - 1].call}
  {
    assert queue == queue[..|queue| - 1] + [queue[|queue| - 1]];
  }

  lemma {:induction false} RepliedKeys(replies: map<nat, Answer>, queue: seq<Pending>, answers: seq<Answer>)
    requires |queue| == |answers|
    ensures WithReplies(replies, queue, answers).Keys == replies.Keys + CallsOf(queue)
  {
    if queue != [] {
      var n := |queue| - 1;
      RepliedKeys(replies, queue[..n], answers[..n]);
      CallsOfSnoc(queue);
    }
  }

  lemma {:induction false} OthersUntouched(replies: map<nat, Answer>, queue: seq<Pending>, answers: seq<Answer>)
    requires |queue| == |answers|
    ensures forall call :: call in replies && call !in CallsOf(queue) ==>
              call in WithReplies(replies, queue, answers) && WithReplies(replies, queue, answers)[call] == replies[call]
  {
    if queue != [] {
      var n := |queue| - 1;
      OthersUntouched(replies, queue[..n], answers[..n]);
      CallsOfSnoc(queue);
    }
  }

  lemma {:induction false} OwnReply(replies: map<nat, Answer>, queue: seq<Pending>, answers: seq<Answer>, k: nat)
    requires |queue| == |answers| && CallsDiffer(queue) && k < |queue|
    ensures queue[k].call in WithReplies(replies, queue, answers)
    ensures WithReplies(replies, queue, answers)[queue[k].call] == answers[k]
  {
    var n := |queue| - 1;
    if k < n {
      assert CallsDiffer(queue[..n]) && queue[..n][k] == queue[k] && answers[..n][k] == answers[k];
      OwnReply(replies, queue[..n], answers[..n], k);
    }
  }

  /** What a drain of `queue` makes of the workspace and the reply slots. */
  function DrainAll(ui: Ui, env: Env, ws: Ws, replies: map<nat, Answer>, queue: seq<Pending>): (Ws, map<nat, Answer>) {
    if queue == [] then (ws, replies)
    else
      var (before, slots) := DrainAll(ui, env, ws, replies, queue[..|queue| - 1]);
      var (after, answer) := ui.run(env, before, queue[|queue| - 1].command);
      (after, slots[queue[|queue| - 1].call := answer])
  }

  /** The drain answers every verb of the queue with its own result, and no other call. */
  lemma {:induction false} DrainAnswers(ui: Ui, env: Env, ws: Ws, replies: map<nat, Answer>, queue: seq<Pending>)
    ensures var (after, answers) := RunAll(ui, env, ws, Verbs(queue));
            |answers| == |queue| && DrainAll(ui, env, ws, replies, queue) == (after, WithReplies(replies, queue, answers))
  {
    if queue != [] {
      var front := queue[..|queue| - 1];
      DrainAnswers(ui, env, ws, replies, front);
      DrainSnoc(ui, env, ws, queue);
      var answers := RunAll(ui, env, ws, Verbs(queue)).1;
      assert answers[..|front|] == RunAll(ui, env, ws, Verbs(front)).1;
    }
  }

  lemma DrainStep(ui: Ui, env: Env, ws: Ws, replies: map<nat, Answer>, queue: seq<Pending>, n: nat)
    requires n < |queue|
    ensures var (before, slots) := DrainAll(ui, env, ws, replies, queue[..n]);
            var (after, answer) := ui.run(env, before, queue[n].command);
            DrainAll(ui, env, ws, replies, queue[..n + 1]) == (after, slots[queue[n].call := answer])
  {
    assert queue[..n + 1][..n] == queue[..n];
  }

  /** The channel's receiving end beside the state it drains into. */
  class RootView {
    const state: UI.UiState
    var waiting: seq<Pending>
    var replies: map<nat, Answer>

    constructor (ws: Ws)
      ensures fresh(state) && state.Value() == ws && waiting == [] && replies == map[]
    {
      state := new UI.UiState(ws);
      waiting, replies := [], map[];
    }

    /** Drain every waiting verb and answer it. */
    method ProcessControlRequests(env: Env)
      modifies this, state
      ensures waiting == []
      ensures (state.Value(), replies) == DrainAll(App(), env, old(state.Value()), old(replies), old(waiting))
    {
      ghost var all := waiting;
      ghost var n := 0;
      while waiting != []
        invariant n <= |all| && waiting == all[n..]
        invariant (state.Value(), replies) == DrainAll(App(), env, old(state.Value()), old(replies), all[..n])
        decreases |waiting|
      {
        var pending := waiting[0];
        DrainStep(App(), env, old(state.Value()), old(replies), all, n);
        waiting := waiting[1..];
        AnswerOne(env, pending);
        n := n + 1;
      }
      assert all[..n] == all;
    }

    method AnswerOne(env: Env, pending: Pending)
      modifies this`replies, state
      ensures var (after, answer) := App().run(env, old(state.Value()), pending.command);
              state.Value() == after && replies == old(replies)[pending.call := answer]
    {
      var answer := state.HandleUiCommand(env, pending.command);
      replies := replies[pending.call := answer];
    }
  }
}
