/**
 The queued prompt: each pane has one slot for a prompt sent while its turn was
 running. The composer, the dashboard, the control socket and the turn events
 put, take, put back and drop it.

 Every prompt taken from a user gets a tag in the order of acceptance, and the
 history records how each tag was settled: started, on which conversation, or
 dropped, and why. Tags and history are for the properties; no handler reads them.
 */
module PromptQueue {
  import opened Base

  datatype Prompt = Prompt(tag: nat, text: string)

  /** A pane's live turn state. `pending` is the command a suspended turn proposes. */
  datatype Runtime = Runtime(queued: Option<Prompt>, busy: bool, pending: Option<string>)

  const QUIET := Runtime(None, false, None)

  datatype Reason = Overwritten | Dismissed | Cleared | FailedStart | FailedResume | NoConversation | NoModel | Unattributed | PaneClosed

  datatype Fate = Started(conversation: string) | Dropped(reason: Reason)

  datatype Settled = Settled(tag: nat, pane: nat, text: string, fate: Fate)

  /** `mirror` is the window's copy of the active pane's slot, `bound` the panes'
      own conversations, `selected` the sidebar's, `agents` the sub-agents each
      pane's turns have spawned, `reply` and `dispatch` the dashboard's drafts. */
  datatype St = St(active: nat, runtimes: map<nat, Runtime>, bound: map<nat, string>, agents: map<nat, set<string>>,
                   selected: Option<string>, mirror: Option<string>, desktop: bool, reply: string, dispatch: string,
                   accepted: seq<(nat, string)>, settled: seq<Settled>)

  /** A window as it opens: nothing runs, nothing is queued. */
  function Opened(active: nat, bound: map<nat, string>, selected: Option<string>, desktop: bool): St {
    St(active, map[], bound, map[], selected, None, desktop, "", "", [], [])
  }

  /** How the outside answers: whether a model can run, a suspended turn resumes,
      a turn starts. */
  datatype Outside = Outside(canRun: bool, resumes: bool, starts: bool)

  function Rt(s: St, pane: nat): Runtime {
    if pane in s.runtimes then s.runtimes[pane] else QUIET
  }

  function SetRt(s: St, pane: nat, rt: Runtime): St {
    s.(runtimes := s.runtimes[pane := rt])
  }

  function TextOf(p: Option<Prompt>): Option<string> {
    match p
    case None => None
    case Some(prompt) => Some(prompt.text)
  }

  /** The pane's own conversation, or the sidebar's for the active pane. */
  function ConversationOf(s: St, pane: nat): Option<string> {
    if pane in s.bound && s.bound[pane] != "" then Some(s.bound[pane])
    else if pane == s.active then s.selected
    else None
  }

  // ---- Which pane an event of a conversation is about ----

  predicate Owns(s: St, pane: nat, chat: string) {
    pane in s.bound && s.bound[pane] == chat
  }

  predicate Parents(s: St, pane: nat, chat: string) {
    pane in s.agents && chat in s.agents[pane]
  }

  /** The pane bound to the conversation; else the one that spawned it; else none. An
      event that names no conversation is about the active pane. Where several panes
      would do, any may be found. */
  predicate Resolves(s: St, chat: string, pane: Option<nat>) {
    if chat == "" then pane == Some(s.active)
    else if exists p :: p in s.bound && Owns(s, p, chat) then pane.Some? && Owns(s, pane.value, chat)
    else if exists p :: p in s.agents && Parents(s, p, chat) then pane.Some? && Parents(s, pane.value, chat)
    else pane.None?
  }

  /** Point the window's copies at the active pane. */
  function Sync(s: St): St {
    s.(mirror := TextOf(Rt(s, s.active).queued),
       selected := if s.active in s.bound && s.bound[s.active] != "" then Some(s.bound[s.active]) else s.selected)
  }

  function Settle(s: St, pane: nat, p: Prompt, fate: Fate): St {
    s.(settled := s.settled + [Settled(p.tag, pane, p.text, fate)])
  }

  /** Empty a slot for a reason. */
  function DropQueued(s: St, pane: nat, reason: Reason): St {
    match Rt(s, pane).queued
    case None => s
    case Some(p) => Settle(SetRt(s, pane, Rt(s, pane).(queued := None)), pane, p, Dropped(reason))
  }

  /** Queue a prompt behind the running turn; one already there is replaced. */
  function Enqueue(s: St, pane: nat, text: string): St {
    var emptied := DropQueued(s, pane, Overwritten);
    SetRt(emptied, pane, Rt(emptied, pane).(queued := Some(Prompt(|s.accepted|, text))))
      .(accepted := s.accepted + [(pane, text)], mirror := Some(text))
  }

  /** Hand a prompt to a turn on `conversation`. */
  function StartTurn(s: St, pane: nat, p: Prompt, conversation: string, starts: bool): St {
    if starts
    then Settle(SetRt(s, pane, Rt(s, pane).(busy := true)), pane, p, Started(conversation))
    else Settle(s, pane, p, Dropped(FailedStart))
  }

  /** Run one agent turn on the pane's conversation. Without a model nothing is taken:
      the text stays with the caller. */
  function SendPrompt(s: St, pane: nat, text: string, out: Outside): St {
    if !out.canRun then s
    else
      var p := Prompt(|s.accepted|, text);
      var taken := s.(accepted := s.accepted + [(pane, text)]);
      match ConversationOf(s, pane)
      case None => Sync(Settle(taken, pane, p, Dropped(NoConversation)))
      case Some(chat) =>
        var recorded := if chat == "" then taken else taken.(bound := s.bound[pane := chat]);
        if s.desktop then Sync(StartTurn(recorded, pane, p, chat, out.starts))
        else Sync(Settle(recorded, pane, p, Dropped(NoConversation)))
  }

  /** Submit the queued prompt now: over a turn that is only busy it starts
      afresh, over a suspended one it goes back to wait for the finish. */
  function Flush(s: St, out: Outside): St {
    var pane := s.active;
    var chat := ConversationOf(s, pane);
    var rt := Rt(s, pane);
    if !s.desktop || chat.None? || rt.queued.None? then s
    else
      var prompt := rt.queued.value;
      var taken := SetRt(s, pane, rt.(queued := None));
      if rt.pending.Some? then
        if out.resumes then Sync(SetRt(s, pane, rt.(busy := true, pending := None)))
        else Sync(Settle(taken, pane, prompt, Dropped(FailedResume)))
      else Sync(StartTurn(taken, pane, prompt, chat.value, out.starts))
  }

  /** A line that starts with `!` is a shell command, not a prompt. */
  predicate IsCommandLine(text: string) {
    Trim(text) != [] && Trim(text)[0] == '!'
  }

  /** Enter in the composer. */
  function SendMessage(s: St, text: string, out: Outside): St {
    if Trim(text) == [] then (if Rt(s, s.active).queued.Some? then Flush(s, out) else s)
    else if IsCommandLine(text) then s
    else if Rt(s, s.active).busy then Enqueue(s, s.active, text)
    else SendPrompt(s, s.active, text, out)
  }

  /** The dashboard clears its draft whatever became of it: without a model the text is
      taken and lost. */
  function SendOrLose(s: St, pane: nat, text: string, out: Outside): St {
    if out.canRun then SendPrompt(s, pane, text, out)
    else Settle(s.(accepted := s.accepted + [(pane, text)]), pane, Prompt(|s.accepted|, text), Dropped(NoModel))
  }

  /** A dashboard reply, to the pane that holds the row's conversation. */
  function Reply(s: St, pane: nat, out: Outside): St {
    var text := Trim(s.reply);
    if text == [] then s
    else (if Rt(s, pane).busy then Enqueue(s, pane, text) else SendOrLose(s, pane, text, out)).(reply := "")
  }

  /** A dashboard dispatch: a tab of its own for a new conversation, if the store makes one. */
  function Dispatch(s: St, pane: nat, created: Option<string>, out: Outside): St {
    var text := Trim(s.dispatch);
    if text == [] || !s.desktop || created.None? then s
    else SendOrLose(OpenTab(s, pane, created.value), pane, text, out).(dispatch := "")
  }

  /** Cmd+Enter, in a composer or a terminal pane: the pane's own conversation, a fresh
      one when it has none. */
  function OwnPrompt(s: St, pane: nat, text: string, newConversation: string, out: Outside): St {
    var owned := pane in s.bound && s.bound[pane] != "";
    SendPrompt(if out.canRun && !owned then s.(bound := s.bound[pane := newConversation]) else s, pane, text, out)
  }

  function CmdEnter(s: St, text: string, newConversation: string, out: Outside): St {
    if Trim(text) == [] then s else OwnPrompt(s, s.active, text, newConversation, out)
  }

  function Dismiss(s: St): St {
    DropQueued(s, s.active, Dismissed).(mirror := None)
  }

  function Clear(s: St): St {
    var dropped := DropQueued(s, s.active, Cleared);
    Sync(if s.active in s.runtimes then SetRt(dropped, s.active, Rt(dropped, s.active).(pending := None)) else dropped)
  }

  /** A turn ended on `pane` (none: the conversation is no pane's). A suspended
      command outlives it; the queued prompt goes out. Without a store no event
      is read at all. */
  function TurnFinished(s: St, pane: Option<nat>, out: Outside): St {
    if !s.desktop || pane.None? then s
    else
      var p := pane.value;
      var chat := ConversationOf(s, p);
      var ended := EndTurn(s, p);
      match Rt(ended, p).queued
      case None => Sync(ended)
      case Some(prompt) =>
        var taken := SetRt(ended, p, Rt(ended, p).(queued := None));
        match chat
        case None => Sync(Settle(taken, p, prompt, Dropped(Unattributed)))
        case Some(c) => Sync(StartTurn(taken, p, prompt, c, out.starts))
  }

  function EndTurn(s: St, pane: nat): St {
    if pane in s.runtimes then SetRt(s, pane, Rt(s, pane).(busy := false)) else s
  }

  /** The turn failed; one that names no conversation is nobody's. */
  function TurnFailed(s: St, chat: string, pane: Option<nat>): St {
    if !s.desktop then s
    else Sync(if chat != "" && pane.Some? then EndTurn(s, pane.value) else s)
  }

  /** The turn asks the user, or spawns a sub-agent: the pane has a runtime now. */
  function Asked(s: St, pane: Option<nat>): St {
    if !s.desktop then s else Sync(if pane.Some? then SetRt(s, pane.value, Rt(s, pane.value)) else s)
  }

  function Spawned(s: St, pane: Option<nat>, child: string): St {
    if !s.desktop || pane.None? then s
    else
      var known := if pane.value in s.agents then s.agents[pane.value] else {};
      SetRt(s, pane.value, Rt(s, pane.value)).(agents := s.agents[pane.value := known + {child}])
  }

  /** The turn proposes a command; the pane's approval mode may decide at once. */
  function Proposed(s: St, pane: Option<nat>, id: string, decided: bool, out: Outside): St {
    if !s.desktop then s
    else if pane.None? then Sync(s)
    else
      var held := SetRt(s, pane.value, Rt(s, pane.value).(pending := Some(id)));
      Sync(if decided && out.resumes then SetRt(held, pane.value, Rt(held, pane.value).(busy := true, pending := None)) else held)
  }

  /** The user decides on a proposal: the suspended turn runs again. */
  function Decided(s: St, pane: nat, id: string, out: Outside): St {
    if !s.desktop || ConversationOf(s, pane).None? then s
    else if !out.resumes || pane !in s.runtimes then Sync(s)
    else
      var rt := s.runtimes[pane];
      Sync(SetRt(s, pane, rt.(busy := true, pending := if rt.pending == Some(id) then None else rt.pending)))
  }

  /** The user answers or skips a question. */
  function Answered(s: St, out: Outside): St {
    if !s.desktop || ConversationOf(s, s.active).None? then s
    else Sync(if out.resumes && s.active in s.runtimes then SetRt(s, s.active, Rt(s, s.active).(busy := true)) else s)
  }

  /** A turn is stopped: no finish event follows, and the slot is left as it is. */
  function Stopped(s: St, pane: nat): St {
    SetRt(s, pane, Rt(s, pane).(busy := false, pending := None))
  }

  /** Without a store a workflow only makes the pane look busy. */
  function WorkflowStarted(s: St): St {
    if !s.desktop && s.active in s.runtimes then SetRt(s, s.active, Rt(s, s.active).(busy := true)) else s
  }

  function Fork(s: St, pane: nat, forked: string): St {
    if !s.desktop || ConversationOf(s, pane).None? then s
    else
      Sync(s.(bound := if pane in s.bound then s.bound[pane := forked] else s.bound,
              selected := if pane == s.active then Some(forked) else s.selected))
  }

  function FocusTo(s: St, pane: nat): St {
    Sync(s.(active := pane))
  }

  /** Bind the active pane elsewhere; without a store its turn state is cleared. */
  function BindActive(s: St, conversation: string): St {
    var bound := s.(selected := Some(conversation),
                    bound := if s.active in s.bound then s.bound[s.active := conversation] else s.bound);
    if s.desktop then Sync(bound) else Clear(bound)
  }

  /** Open a conversation in a pane of its own. */
  function OpenTab(s: St, pane: nat, conversation: string): St {
    Sync(s.(active := pane, bound := s.bound[pane := conversation]))
  }

  /** A closed pane owns nothing, its queued prompt neither. */
  function ClosePane(s: St, pane: nat, next: nat): St {
    var dropped := DropQueued(s, pane, PaneClosed);
    Sync(dropped.(runtimes := dropped.runtimes - {pane}, bound := s.bound - {pane}, agents := s.agents - {pane}, active := next))
  }

  /** `pane` of a bus event is the pane its conversation is found to be about. */
  datatype Event =
    | OnSend(text: string, out: Outside)
    | OnSendQueued(out: Outside)
    | OnReply(conversation: string, pane: nat, out: Outside)
    | OnDispatch(pane: nat, created: Option<string>, out: Outside)
    | OnCmdEnter(text: string, newConversation: string, out: Outside)
    | OnTerminalPrompt(pane: nat, text: string, newConversation: string, out: Outside)
    | OnControlPrompt(pane: nat, text: string, out: Outside)
    | OnReplyDraft(text: string)
    | OnDispatchDraft(text: string)
    | OnDismiss
    | OnClear
    | OnDecision(pane: nat, id: string, out: Outside)
    | OnAnswer(out: Outside)
    | OnStop(pane: nat)
    | OnWorkflow
    | OnFocus(pane: nat)
    | OnSelect(selected: Option<string>)
    | OnRefresh
    | OnBind(conversation: string)
    | OnBindPane(pane: nat, conversation: string)
    | OnFork(pane: nat, conversation: string)
    | OnOpenTab(pane: nat, conversation: string)
    | OnClose(pane: nat, next: nat)
    | BusFinished(chat: string, found: Option<nat>, out: Outside)
    | BusFailed(chat: string, found: Option<nat>)
    | BusAsked(chat: string, found: Option<nat>)
    | BusProposed(chat: string, found: Option<nat>, id: string, decided: bool, out: Outside)
    | BusSpawned(chat: string, found: Option<nat>, child: string)

  /** The handlers that take a prompt or hand one over. */
  predicate Submits(e: Event) {
    || e.OnSend? || e.OnSendQueued? || e.OnReply? || e.OnDispatch? || e.OnCmdEnter? || e.OnTerminalPrompt?
    || e.OnControlPrompt?
  }

  predicate OfBus(e: Event) {
    e.BusFinished? || e.BusFailed? || e.BusAsked? || e.BusProposed? || e.BusSpawned?
  }

  /** An event the window can meet: a bus event is about the pane its conversation
      resolves to, a reply goes to a pane bound to the row's conversation. */
  predicate Possible(s: St, e: Event) {
    (OfBus(e) ==> Resolves(s, e.chat, e.found)) && (e.OnReply? ==> e.conversation != "" && Owns(s, e.pane, e.conversation))
  }

  function Next(s: St, e: Event): St {
    if !Possible(s, e) then s
    else if OfBus(e) then Bus(s, e)
    else if e.OnSend? then SendMessage(s, e.text, e.out)
    else if e.OnSendQueued? then Flush(s, e.out)
    else if e.OnReply? then Reply(s, e.pane, e.out)
    else if e.OnDispatch? then Dispatch(s, e.pane, e.created, e.out)
    else if e.OnTerminalPrompt? then OwnPrompt(s, e.pane, e.text, e.newConversation, e.out)
    else if e.OnCmdEnter? then CmdEnter(s, e.text, e.newConversation, e.out)
    else if e.OnControlPrompt? then SendPrompt(s, e.pane, e.text, e.out)
    else Quiet(s, e)
  }

  /** The events off the bus. */
  function Bus(s: St, e: Event): St
    requires OfBus(e)
  {
    if e.BusFinished? then TurnFinished(s, e.found, e.out)
    else if e.BusFailed? then TurnFailed(s, e.chat, e.found)
    else if e.BusAsked? then Asked(s, e.found)
    else if e.BusProposed? then Proposed(s, e.found, e.id, e.decided, e.out)
    else Spawned(s, e.found, e.child)
  }

  /** The handlers that take no prompt. */
  function Quiet(s: St, e: Event): St {
    if e.OnDismiss? then Dismiss(s)
    else if e.OnClear? then Clear(s)
    else if e.OnDecision? then Decided(s, e.pane, e.id, e.out)
    else if e.OnAnswer? then Answered(s, e.out)
    else if e.OnStop? then Stopped(s, e.pane)
    else if e.OnReplyDraft? then s.(reply := e.text)
    else if e.OnDispatchDraft? then s.(dispatch := e.text)
    else if e.OnWorkflow? then WorkflowStarted(s)
    else if e.OnFocus? then FocusTo(s, e.pane)
    else if e.OnSelect? then s.(selected := e.selected)
    else if e.OnRefresh? then Sync(s)
    else if e.OnBind? then BindActive(s, e.conversation)
    else if e.OnBindPane? then s.(bound := s.bound[e.pane := e.conversation])
    else if e.OnFork? then Fork(s, e.pane, e.conversation)
    else if e.OnOpenTab? then OpenTab(s, e.pane, e.conversation)
    else if e.OnClose? then ClosePane(s, e.pane, e.next)
    else s
  }

  function Run(s: St, events: seq<Event>): St {
    if events == [] then s else Next(Run(s, events[..|events| - 1]), events[|events| - 1])
  }

  /** How often a tag has been settled. */
  function Times(settled: seq<Settled>, tag: nat): nat {
    if settled == [] then 0
    else Times(settled[..|settled| - 1], tag) + if settled[|settled| - 1].tag == tag then 1 else 0
  }

  /** The tag waits in the slot of the pane it was accepted for. */
  predicate Waits(s: St, tag: nat)
    requires tag < |s.accepted|
  {
    var pane := s.accepted[tag].0;
    pane in s.runtimes && s.runtimes[pane].queued == Some(Prompt(tag, s.accepted[tag].1))
  }

  /** A slot holds an accepted prompt of its own pane, text and all. */
  predicate SlotTrue(s: St, pane: nat)
    requires pane in s.runtimes && s.runtimes[pane].queued.Some?
  {
    var p := s.runtimes[pane].queued.value;
    p.tag < |s.accepted| && s.accepted[p.tag] == (pane, p.text)
  }

  /** Conservation: every accepted prompt either waits in its own pane's slot or
      has been settled, once, for that pane and with its own text; a slot holds
      nothing but an accepted prompt of its pane. */
  ghost predicate Conserved(s: St) {
    && (forall tag :: 0 <= tag < |s.accepted| ==> Times(s.settled, tag) + (if Waits(s, tag) then 1 else 0) == 1)
    && (forall pane :: pane in s.runtimes && s.runtimes[pane].queued.Some? ==> SlotTrue(s, pane))
    && (forall k :: 0 <= k < |s.settled| ==>
          s.settled[k].tag < |s.accepted| && s.accepted[s.settled[k].tag] == (s.settled[k].pane, s.settled[k].text))
  }

  lemma TimesSnoc(settled: seq<Settled>, x: Settled, tag: nat)
    ensures Times(settled + [x], tag) == Times(settled, tag) + if x.tag == tag then 1 else 0
  {
    assert (settled + [x])[..|settled + [x]| - 1] == settled;
  }

  lemma {:induction false} TimesZero(settled: seq<Settled>, tag: nat)
    requires forall k :: 0 <= k < |settled| ==> settled[k].tag != tag
    ensures Times(settled, tag) == 0
  {
    if settled != [] {
      TimesZero(settled[..|settled| - 1], tag);
    }
  }

  /** Same slots, same history: conserved together. */
  lemma SameSlots(s: St, s': St)
    requires Conserved(s) && s'.accepted == s.accepted && s'.settled == s.settled
    requires forall pane :: Rt(s', pane).queued == Rt(s, pane).queued
    ensures Conserved(s')
  {
    forall tag | 0 <= tag < |s.accepted| ensures Waits(s', tag) <==> Waits(s, tag) {
      assert Rt(s', s.accepted[tag].0).queued == Rt(s, s.accepted[tag].0).queued;
    }
    forall pane | pane in s'.runtimes && s'.runtimes[pane].queued.Some? ensures SlotTrue(s', pane) {
      assert Rt(s', pane).queued == Rt(s, pane).queued;
      assert SlotTrue(s, pane);
    }
  }

  /** Taking a prompt out of its slot and settling it. */
  lemma TakeKeeps(s: St, s': St, pane: nat, fate: Fate)
    requires Conserved(s) && Rt(s, pane).queued.Some?
    requires s'.accepted == s.accepted
    requires var p := Rt(s, pane).queued.value;
             s'.settled == s.settled + [Settled(p.tag, pane, p.text, fate)]
    requires forall q :: Rt(s', q).queued == if q == pane then None else Rt(s, q).queued
    ensures Conserved(s')
  {
    var p := Rt(s, pane).queued.value;
    assert pane in s.runtimes;
    forall tag | 0 <= tag < |s.accepted|
      ensures Times(s'.settled, tag) + (if Waits(s', tag) then 1 else 0) == 1
    {
      TimesSnoc(s.settled, Settled(p.tag, pane, p.text, fate), tag);
      var owner := s.accepted[tag].0;
      assert Rt(s', owner).queued == if owner == pane then None else Rt(s, owner).queued;
    }
    forall q | q in s'.runtimes && s'.runtimes[q].queued.Some?
      ensures SlotTrue(s', q)
    {
      assert Rt(s', q).queued == if q == pane then None else Rt(s, q).queued;
      assert SlotTrue(s, q);
    }
  }

  /** Accepting a prompt straight into a settlement. */
  lemma AcceptKeeps(s: St, s': St, pane: nat, text: string, fate: Fate)
    requires Conserved(s)
    requires s'.accepted == s.accepted + [(pane, text)]
    requires s'.settled == s.settled + [Settled(|s.accepted|, pane, text, fate)]
    requires forall q :: Rt(s', q).queued == Rt(s, q).queued
    ensures Conserved(s')
  {
    var n := |s.accepted|;
    TimesZero(s.settled, n);
    forall tag | 0 <= tag <= n
      ensures Times(s'.settled, tag) + (if Waits(s', tag) then 1 else 0) == 1
    {
      TimesSnoc(s.settled, Settled(n, pane, text, fate), tag);
      var owner := s'.accepted[tag].0;
      assert Rt(s', owner).queued == Rt(s, owner).queued;
      assert tag < n ==> (Waits(s', tag) <==> Waits(s, tag));
    }
    forall q | q in s'.runtimes && s'.runtimes[q].queued.Some? ensures SlotTrue(s', q) {
      assert Rt(s', q).queued == Rt(s, q).queued;
      assert SlotTrue(s, q);
    }
  }

  /** Accepting a prompt into an empty slot. */
  lemma QueueKeeps(s: St, s': St, pane: nat, text: string)
    requires Conserved(s) && Rt(s, pane).queued.None?
    requires s'.accepted == s.accepted + [(pane, text)] && s'.settled == s.settled
    requires pane in s'.runtimes
    requires forall q :: Rt(s', q).queued == if q == pane then Some(Prompt(|s.accepted|, text)) else Rt(s, q).queued
    ensures Conserved(s')
  {
    var n := |s.accepted|;
    TimesZero(s.settled, n);
    forall tag | 0 <= tag <= n
      ensures Times(s'.settled, tag) + (if Waits(s', tag) then 1 else 0) == 1
    {
      var owner := s'.accepted[tag].0;
      assert Rt(s', owner).queued == if owner == pane then Some(Prompt(n, text)) else Rt(s, owner).queued;
      assert tag < n ==> (Waits(s', tag) <==> Waits(s, tag));
    }
    forall q | q in s'.runtimes && s'.runtimes[q].queued.Some?
      ensures SlotTrue(s', q)
    {
      assert Rt(s', q).queued == if q == pane then Some(Prompt(n, text)) else Rt(s, q).queued;
      assert q != pane ==> SlotTrue(s, q);
    }
  }

  lemma DropKeeps(s: St, pane: nat, reason: Reason)
    requires Conserved(s)
    ensures var s' := DropQueued(s, pane, reason);
            && Conserved(s') && s'.accepted == s.accepted && Rt(s', pane).queued.None?
            && (forall q :: q != pane ==> Rt(s', q) == Rt(s, q))
  {
    if Rt(s, pane).queued.Some? {
      TakeKeeps(s, DropQueued(s, pane, reason), pane, Dropped(reason));
    }
  }

  lemma EnqueueKeeps(s: St, pane: nat, text: string)
    requires Conserved(s)
    ensures Conserved(Enqueue(s, pane, text))
  {
    DropKeeps(s, pane, Overwritten);
    QueueKeeps(DropQueued(s, pane, Overwritten), Enqueue(s, pane, text), pane, text);
  }

  lemma SendPromptTakes(s: St, pane: nat, text: string, out: Outside)
    requires out.canRun
    ensures SendPrompt(s, pane, text, out).accepted == s.accepted + [(pane, text)]
  {
  }

  /** A prompt that is taken is settled at once; no slot is asked. */
  lemma SendPromptSettles(s: St, pane: nat, text: string, out: Outside)
    requires out.canRun
    ensures SendPrompt(s, pane, text, out).settled == s.settled + [Settled(|s.accepted|, pane, text, SendFate(s, pane, out))]
  {
  }

  lemma SendPromptSlots(s: St, pane: nat, text: string, out: Outside)
    ensures forall q :: Rt(SendPrompt(s, pane, text, out), q).queued == Rt(s, q).queued
  {
  }

  lemma SendPromptKeeps(s: St, pane: nat, text: string, out: Outside)
    requires Conserved(s)
    ensures Conserved(SendPrompt(s, pane, text, out))
  {
    if out.canRun {
      SendPromptTakes(s, pane, text, out);
      SendPromptSettles(s, pane, text, out);
      SendPromptSlots(s, pane, text, out);
      AcceptKeeps(s, SendPrompt(s, pane, text, out), pane, text, SendFate(s, pane, out));
    }
  }

  /** What becomes of a prompt that is taken. */
  function SendFate(s: St, pane: nat, out: Outside): Fate {
    var chat := ConversationOf(s, pane);
    if chat.None? || !s.desktop then Dropped(NoConversation)
    else if out.starts then Started(chat.value) else Dropped(FailedStart)
  }

  lemma FlushKeeps(s: St, out: Outside)
    requires Conserved(s)
    ensures Conserved(Flush(s, out))
  {
    var rt := Rt(s, s.active);
    if s.desktop && ConversationOf(s, s.active).Some? && rt.queued.Some? {
      if rt.pending.Some? {
        FlushSuspendedKeeps(s, out);
      } else {
        FlushBusyKeeps(s, out);
      }
    }
  }

  lemma FlushSuspendedKeeps(s: St, out: Outside)
    requires Conserved(s) && s.desktop && ConversationOf(s, s.active).Some?
    requires Rt(s, s.active).queued.Some? && Rt(s, s.active).pending.Some?
    ensures Conserved(Flush(s, out))
  {
    if out.resumes {
      SameSlots(s, Flush(s, out));
    } else {
      TakeKeeps(s, Flush(s, out), s.active, Dropped(FailedResume));
    }
  }

  lemma FlushBusyKeeps(s: St, out: Outside)
    requires Conserved(s) && s.desktop && ConversationOf(s, s.active).Some?
    requires Rt(s, s.active).queued.Some? && Rt(s, s.active).pending.None?
    ensures Conserved(Flush(s, out))
  {
    var chat := ConversationOf(s, s.active).value;
    TakeKeeps(s, Flush(s, out), s.active, if out.starts then Started(chat) else Dropped(FailedStart));
  }

  lemma FinishKeeps(s: St, pane: nat, out: Outside)
    requires Conserved(s) && s.desktop
    ensures Conserved(TurnFinished(s, Some(pane), out))
  {
    var s' := TurnFinished(s, Some(pane), out);
    FinishSlots(s, pane, out);
    FinishAccepts(s, pane, out);
    if Rt(s, pane).queued.None? {
      SameSlots(s, s');
    } else {
      var fate := FinishSettles(s, pane, out);
      TakeKeeps(s, s', pane, fate);
    }
  }

  /** A finished turn empties its own pane's slot and no other. */
  lemma FinishSlots(s: St, pane: nat, out: Outside)
    requires s.desktop
    ensures forall q :: Rt(TurnFinished(s, Some(pane), out), q).queued == if q == pane then None else Rt(s, q).queued
  {
  }

  lemma FinishAccepts(s: St, pane: nat, out: Outside)
    requires s.desktop
    ensures var s' := TurnFinished(s, Some(pane), out);
            s'.accepted == s.accepted && (Rt(s, pane).queued.None? ==> s'.settled == s.settled)
  {
  }

  /** What was in it is settled. */
  lemma FinishSettles(s: St, pane: nat, out: Outside) returns (fate: Fate)
    requires s.desktop && Rt(s, pane).queued.Some?
    ensures var p := Rt(s, pane).queued.value;
            TurnFinished(s, Some(pane), out).settled == s.settled + [Settled(p.tag, pane, p.text, fate)]
    ensures fate == var chat := ConversationOf(s, pane);
                    if chat.None? then Dropped(Unattributed)
                    else if out.starts then Started(chat.value) else Dropped(FailedStart)
  {
    var chat := ConversationOf(s, pane);
    fate := if chat.None? then Dropped(Unattributed) else if out.starts then Started(chat.value) else Dropped(FailedStart);
  }

  lemma ClearKeeps(s: St)
    requires Conserved(s)
    ensures Conserved(Clear(s))
  {
    DropKeeps(s, s.active, Cleared);
    SameSlots(DropQueued(s, s.active, Cleared), Clear(s));
  }

  lemma NextKeeps(s: St, e: Event)
    requires Conserved(s)
    ensures Conserved(Next(s, e))
  {
    if Possible(s, e) {
      if OfBus(e) {
        BusKeeps(s, e);
      } else if Submits(e) {
        SubmitKeeps(s, e);
      } else {
        QuietKeeps(s, e);
      }
    }
  }

  lemma BusKeeps(s: St, e: Event)
    requires Conserved(s) && OfBus(e)
    ensures Conserved(Bus(s, e))
  {
    if e.BusFinished? {
      if s.desktop && e.found.Some? {
        FinishKeeps(s, e.found.value, e.out);
      }
    } else {
      SameSlots(s, Bus(s, e));
    }
  }

  lemma SubmitKeeps(s: St, e: Event)
    requires Conserved(s) && Possible(s, e) && Submits(e)
    ensures Conserved(Next(s, e))
  {
    if e.OnSend? {
      FlushKeeps(s, e.out);
      EnqueueKeeps(s, s.active, e.text);
      SendPromptKeeps(s, s.active, e.text, e.out);
    } else if e.OnSendQueued? {
      FlushKeeps(s, e.out);
    } else if e.OnReply? {
      ReplyKeeps(s, e.pane, e.out);
    } else if e.OnDispatch? {
      DispatchKeeps(s, e.pane, e.created, e.out);
    } else if e.OnCmdEnter? {
      OwnPromptKeeps(s, s.active, e.text, e.newConversation, e.out);
    } else if e.OnTerminalPrompt? {
      OwnPromptKeeps(s, e.pane, e.text, e.newConversation, e.out);
    } else {
      SendPromptKeeps(s, e.pane, e.text, e.out);
    }
  }

  lemma SendOrLoseKeeps(s: St, pane: nat, text: string, out: Outside)
    requires Conserved(s)
    ensures Conserved(SendOrLose(s, pane, text, out))
  {
    if out.canRun {
      SendPromptKeeps(s, pane, text, out);
    } else {
      AcceptKeeps(s, SendOrLose(s, pane, text, out), pane, text, Dropped(NoModel));
    }
  }

  lemma ReplyKeeps(s: St, pane: nat, out: Outside)
    requires Conserved(s)
    ensures Conserved(Reply(s, pane, out))
  {
    var text := Trim(s.reply);
    if text != [] {
      var done := if Rt(s, pane).busy then Enqueue(s, pane, text) else SendOrLose(s, pane, text, out);
      EnqueueKeeps(s, pane, text);
      SendOrLoseKeeps(s, pane, text, out);
      SameSlots(done, done.(reply := ""));
    }
  }

  lemma DispatchKeeps(s: St, pane: nat, created: Option<string>, out: Outside)
    requires Conserved(s)
    ensures Conserved(Dispatch(s, pane, created, out))
  {
    var text := Trim(s.dispatch);
    if text != [] && s.desktop && created.Some? {
      var tab := OpenTab(s, pane, created.value);
      SameSlots(s, tab);
      SendOrLoseKeeps(tab, pane, text, out);
      var done := SendOrLose(tab, pane, text, out);
      SameSlots(done, done.(dispatch := ""));
    }
  }

  lemma OwnPromptKeeps(s: St, pane: nat, text: string, newConversation: string, out: Outside)
    requires Conserved(s)
    ensures Conserved(OwnPrompt(s, pane, text, newConversation, out))
  {
    var bound := s.(bound := s.bound[pane := newConversation]);
    SameSlots(s, bound);
    SendPromptKeeps(bound, pane, text, out);
    SendPromptKeeps(s, pane, text, out);
  }

  predicate OfTurns(e: Event) {
    e.OnDismiss? || e.OnClear? || e.OnDecision? || e.OnAnswer? || e.OnStop? || e.OnWorkflow?
  }

  lemma QuietKeeps(s: St, e: Event)
    requires Conserved(s)
    ensures Conserved(Quiet(s, e))
  {
    if OfTurns(e) {
      TurnsKeep(s, e);
    } else {
      PanesKeep(s, e);
    }
  }

  lemma TurnsKeep(s: St, e: Event)
    requires Conserved(s) && OfTurns(e)
    ensures Conserved(Quiet(s, e))
  {
    if e.OnDismiss? {
      DropKeeps(s, s.active, Dismissed);
      SameSlots(DropQueued(s, s.active, Dismissed), Dismiss(s));
    } else if e.OnClear? {
      ClearKeeps(s);
    } else {
      SameSlots(s, Quiet(s, e));
    }
  }

  lemma PanesKeep(s: St, e: Event)
    requires Conserved(s) && !OfTurns(e)
    ensures Conserved(Quiet(s, e))
  {
    if e.OnBind? {
      BindKeeps(s, e.conversation);
    } else if e.OnClose? {
      DropKeeps(s, e.pane, PaneClosed);
      SameSlots(DropQueued(s, e.pane, PaneClosed), ClosePane(s, e.pane, e.next));
    } else {
      SameSlots(s, Quiet(s, e));
    }
  }

  lemma BindKeeps(s: St, conversation: string)
    requires Conserved(s)
    ensures Conserved(BindActive(s, conversation))
  {
    var bound := s.(selected := Some(conversation),
                    bound := if s.active in s.bound then s.bound[s.active := conversation] else s.bound);
    SameSlots(s, bound);
    if s.desktop {
      SameSlots(bound, Sync(bound));
    } else {
      ClearKeeps(bound);
    }
  }

  /** Over every run and every pane, accepted prompts are conserved. */
  lemma {:induction false} RunsConserve(s: St, events: seq<Event>)
    requires Conserved(s)
    ensures Conserved(Run(s, events))
  {
    if events != [] {
      RunsConserve(s, events[..|events| - 1]);
      NextKeeps(Run(s, events[..|events| - 1]), events[|events| - 1]);
    }
  }

  /** From the window as it opens. */
  lemma OpenedIsConserved(active: nat, bound: map<nat, string>, selected: Option<string>, desktop: bool)
    ensures var s := Opened(active, bound, selected, desktop); Conserved(s) && MirrorTrue(s) && WaitingHasTurn(s)
  {
  }

  /** So a prompt is started at most once, never both started and dropped, and
      never while it still waits. */
  lemma SettledOnce(s: St, i: nat)
    requires Conserved(s) && i < |s.settled|
    ensures !Waits(s, s.settled[i].tag)
    ensures forall j :: 0 <= j < |s.settled| && j != i ==> s.settled[j].tag != s.settled[i].tag
  {
    var tag := s.settled[i].tag;
    TimesOne(s.settled, i, tag);
    forall j | 0 <= j < |s.settled| && j != i ensures s.settled[j].tag != tag {
      if i < j {
        TimesCounts(s.settled, i, j, tag);
      } else {
        TimesCounts(s.settled, j, i, s.settled[j].tag);
      }
    }
  }

  lemma {:induction false} TimesCounts(settled: seq<Settled>, i: nat, j: nat, tag: nat)
    requires i < j < |settled| && settled[i].tag == tag
    ensures Times(settled, tag) >= if settled[j].tag == tag then 2 else 1
  {
    var rest := settled[..|settled| - 1];
    if j < |rest| {
      TimesCounts(rest, i, j, tag);
    } else {
      TimesOne(rest, i, tag);
    }
  }

  lemma {:induction false} TimesOne(settled: seq<Settled>, i: nat, tag: nat)
    requires i < |settled| && settled[i].tag == tag
    ensures Times(settled, tag) >= 1
  {
    if i < |settled| - 1 {
      TimesOne(settled[..|settled| - 1], i, tag);
    }
  }

  /** An empty submit leaves everything alone unless there is a store, a
      conversation and a prompt to submit; then the slot empties unless a
      suspended turn took the rejection, which puts the same prompt back. */
  lemma EmptySubmit(s: St, text: string, out: Outside)
    requires Trim(text) == []
    ensures var s' := SendMessage(s, text, out);
            var rt := Rt(s, s.active);
            if !s.desktop || ConversationOf(s, s.active).None? || rt.queued.None? then s' == s
            else
              && (Rt(s', s.active).queued.Some? <==> rt.pending.Some? && out.resumes)
              && (Rt(s', s.active).queued.Some? ==>
                    Rt(s', s.active).queued == rt.queued && s'.settled == s.settled && s'.accepted == s.accepted)
  {
  }

  /** "Send now", and an empty Enter: the waiting prompt is started on the pane's
      conversation, or dropped when its turn cannot be issued. Over a proposed command the
      proposal is turned down instead; the prompt waits on, or is dropped when the turn
      does not resume. */
  lemma SendNow(s: St, e: Event, chat: string, out: Outside)
    requires e == OnSendQueued(out) || (e.OnSend? && e.out == out && Trim(e.text) == [])
    requires s.desktop && ConversationOf(s, s.active) == Some(chat) && Rt(s, s.active).queued.Some?
    ensures var s', rt := Next(s, e), Rt(s, s.active);
            var p := rt.queued.value;
            && s'.active == s.active && s'.accepted == s.accepted
            && if rt.pending.None? then
                 && s'.settled == s.settled + [Settled(p.tag, s.active, p.text, if out.starts then Started(chat) else Dropped(FailedStart))]
                 && Rt(s', s.active) == Runtime(None, rt.busy || out.starts, None)
               else if out.resumes then
                 s'.settled == s.settled && Rt(s', s.active) == Runtime(Some(p), true, None)
               else
                 && s'.settled == s.settled + [Settled(p.tag, s.active, p.text, Dropped(FailedResume))]
                 && Rt(s', s.active) == Runtime(None, rt.busy, rt.pending)
    ensures forall q :: q != s.active ==> Rt(Next(s, e), q) == Rt(s, q)
  {
    FlushDoes(s, chat, out);
  }

  lemma FlushDoes(s: St, chat: string, out: Outside)
    requires s.desktop && ConversationOf(s, s.active) == Some(chat) && Rt(s, s.active).queued.Some?
    ensures var s', rt := Flush(s, out), Rt(s, s.active);
            var p := rt.queued.value;
            && s'.active == s.active && s'.accepted == s.accepted && (forall q :: q != s.active ==> Rt(s', q) == Rt(s, q))
            && if rt.pending.None? then
                 && s'.settled == s.settled + [Settled(p.tag, s.active, p.text, if out.starts then Started(chat) else Dropped(FailedStart))]
                 && Rt(s', s.active) == Runtime(None, rt.busy || out.starts, None)
               else if out.resumes then
                 s'.settled == s.settled && Rt(s', s.active) == Runtime(Some(p), true, None)
               else
                 && s'.settled == s.settled + [Settled(p.tag, s.active, p.text, Dropped(FailedResume))]
                 && Rt(s', s.active) == Runtime(None, rt.busy, rt.pending)
  {
  }

  /** What a finished turn does with the prompt behind it: it is always taken,
      and it starts, on the conversation the pane shows, exactly when the pane
      has one and the turn could be issued. */
  lemma FinishSubmits(s: St, pane: nat, out: Outside)
    requires s.desktop && Rt(s, pane).queued.Some?
    ensures var s' := TurnFinished(s, Some(pane), out);
            var p := Rt(s, pane).queued.value;
            && Rt(s', pane).queued.None? && |s'.settled| == |s.settled| + 1
            && s'.settled[|s.settled|].tag == p.tag && s'.settled[|s.settled|].pane == pane
            && (s'.settled[|s.settled|].fate.Started? <==> ConversationOf(s, pane).Some? && out.starts)
            && (s'.settled[|s.settled|].fate.Started? ==>
                  Rt(s', pane).busy && ConversationOf(s, pane) == Some(s'.settled[|s.settled|].fate.conversation))
            && (s'.settled[|s.settled|].fate == Dropped(Unattributed) <==> ConversationOf(s, pane).None?)
  {
    FinishSlots(s, pane, out);
    var fate := FinishSettles(s, pane, out);
  }

  /** An event that names a conversation some pane is bound to: the prompt waiting on
      the pane found is submitted on that very conversation, and started if and only
      if the turn could be issued. It is never lost for want of one. */
  lemma FinishNamed(s: St, chat: string, found: Option<nat>, out: Outside, home: nat)
    requires s.desktop && chat != "" && Owns(s, home, chat) && Resolves(s, chat, found)
    ensures found.Some? && Owns(s, found.value, chat)
    ensures Rt(s, found.value).queued.Some? ==>
              var s' := Next(s, BusFinished(chat, found, out));
              var p := Rt(s, found.value).queued.value;
              && s'.settled == s.settled + [Settled(p.tag, found.value, p.text, if out.starts then Started(chat) else Dropped(FailedStart))]
              && Rt(s', found.value).queued.None? && (out.starts ==> Rt(s', found.value).busy)
  {
    if Rt(s, found.value).queued.Some? {
      FinishSlots(s, found.value, out);
      FinishSubmits(s, found.value, out);
      var fate := FinishSettles(s, found.value, out);
    }
  }

  // ---- When a finish loses the prompt ----

  /** The event names its conversation, as the daemon's events do, and no handler binds
      a pane to no conversation. */
  predicate Named(e: Event) {
    && (OfBus(e) ==> e.chat != "")
    && (e.OnCmdEnter? || e.OnTerminalPrompt? ==> e.newConversation != "")
    && (e.OnDispatch? && e.created.Some? ==> e.created.value != "")
    && (e.OnBind? || e.OnBindPane? || e.OnFork? || e.OnOpenTab? ==> e.conversation != "")
  }

  /** A pane whose turns have spawned sub-agents has a conversation of its own; no
      prompt was lost for want of one at a finish. */
  ghost predicate Homes(s: St) {
    && (forall pane :: pane in s.agents ==> pane in s.bound && s.bound[pane] != "")
    && (forall k :: 0 <= k < |s.settled| ==> s.settled[k].fate != Dropped(Unattributed))
  }

  lemma NamedFindsHome(s: St, chat: string, found: Option<nat>)
    requires Homes(s) && chat != "" && Resolves(s, chat, found) && found.Some?
    ensures found.value in s.bound && s.bound[found.value] != ""
  {
  }

  lemma BusKeepsHomes(s: St, e: Event)
    requires Homes(s) && OfBus(e) && Named(e) && Resolves(s, e.chat, e.found)
    ensures Homes(Bus(s, e))
  {
    if e.found.Some? {
      NamedFindsHome(s, e.chat, e.found);
      if e.BusFinished? && s.desktop {
        FinishHomes(s, e.found.value, e.out);
      }
    }
  }

  lemma FinishHomes(s: St, pane: nat, out: Outside)
    requires Homes(s) && s.desktop && pane in s.bound && s.bound[pane] != ""
    ensures Homes(TurnFinished(s, Some(pane), out))
  {
    FinishAccepts(s, pane, out);
    if Rt(s, pane).queued.Some? {
      var fate := FinishSettles(s, pane, out);
    }
  }

  lemma SendPromptHomes(s: St, pane: nat, text: string, out: Outside)
    requires Homes(s)
    ensures Homes(SendPrompt(s, pane, text, out))
  {
    SendPromptBinds(s, pane, text, out);
    if out.canRun {
      SendPromptSettles(s, pane, text, out);
    }
  }

  lemma SendPromptBinds(s: St, pane: nat, text: string, out: Outside)
    ensures var s' := SendPrompt(s, pane, text, out);
            s'.agents == s.agents && forall p :: p in s.bound && s.bound[p] != "" ==> p in s'.bound && s'.bound[p] != ""
  {
  }

  lemma FlushHomes(s: St, out: Outside)
    requires Homes(s)
    ensures Homes(Flush(s, out))
  {
  }

  lemma EnqueueHomes(s: St, pane: nat, text: string)
    requires Homes(s)
    ensures Homes(Enqueue(s, pane, text))
  {
  }

  lemma SendOrLoseHomes(s: St, pane: nat, text: string, out: Outside)
    requires Homes(s)
    ensures Homes(SendOrLose(s, pane, text, out))
  {
    SendPromptHomes(s, pane, text, out);
  }

  lemma OwnPromptHomes(s: St, pane: nat, text: string, newConversation: string, out: Outside)
    requires Homes(s) && newConversation != ""
    ensures Homes(OwnPrompt(s, pane, text, newConversation, out))
  {
    SendPromptHomes(s.(bound := s.bound[pane := newConversation]), pane, text, out);
    SendPromptHomes(s, pane, text, out);
  }

  lemma DashboardHomes(s: St, e: Event)
    requires Homes(s) && Named(e) && Possible(s, e) && (e.OnReply? || e.OnDispatch?)
    ensures Homes(Next(s, e))
  {
    if e.OnReply? {
      EnqueueHomes(s, e.pane, Trim(s.reply));
      SendOrLoseHomes(s, e.pane, Trim(s.reply), e.out);
    } else if e.created.Some? {
      SendOrLoseHomes(OpenTab(s, e.pane, e.created.value), e.pane, Trim(s.dispatch), e.out);
    }
  }

  lemma SubmitKeepsHomes(s: St, e: Event)
    requires Homes(s) && Named(e) && Possible(s, e) && Submits(e)
    ensures Homes(Next(s, e))
  {
    if e.OnSend? {
      FlushHomes(s, e.out);
      EnqueueHomes(s, s.active, e.text);
      SendPromptHomes(s, s.active, e.text, e.out);
    } else if e.OnSendQueued? {
      FlushHomes(s, e.out);
    } else if e.OnReply? || e.OnDispatch? {
      DashboardHomes(s, e);
    } else if e.OnCmdEnter? {
      OwnPromptHomes(s, s.active, e.text, e.newConversation, e.out);
    } else if e.OnTerminalPrompt? {
      OwnPromptHomes(s, e.pane, e.text, e.newConversation, e.out);
    } else {
      SendPromptHomes(s, e.pane, e.text, e.out);
    }
  }

  lemma QuietKeepsHomes(s: St, e: Event)
    requires Homes(s) && Named(e)
    ensures Homes(Quiet(s, e))
  {
    if OfTurns(e) {
      TurnsKeepHomes(s, e);
    } else {
      PanesKeepHomes(s, e);
    }
  }

  lemma TurnsKeepHomes(s: St, e: Event)
    requires Homes(s) && OfTurns(e)
    ensures Homes(Quiet(s, e))
  {
  }

  lemma PanesKeepHomes(s: St, e: Event)
    requires Homes(s) && Named(e) && !OfTurns(e)
    ensures Homes(Quiet(s, e))
  {
    if e.OnBind? {
      BindKeepsHomes(s, e.conversation);
    } else if e.OnClose? {
      CloseKeepsHomes(s, e.pane, e.next);
    }
  }

  lemma BindKeepsHomes(s: St, conversation: string)
    requires Homes(s) && conversation != ""
    ensures Homes(BindActive(s, conversation))
  {
  }

  lemma CloseKeepsHomes(s: St, pane: nat, next: nat)
    requires Homes(s)
    ensures Homes(ClosePane(s, pane, next))
  {
  }

  lemma NextKeepsHomes(s: St, e: Event)
    requires Homes(s) && Named(e)
    ensures Homes(Next(s, e))
  {
    if Possible(s, e) {
      if OfBus(e) {
        BusKeepsHomes(s, e);
      } else if Submits(e) {
        SubmitKeepsHomes(s, e);
      } else {
        QuietKeepsHomes(s, e);
      }
    }
  }

  /** Over every run whose events name their conversations, no finish ever loses a
      prompt for want of one, whoever the finished turn was: a pane's own or a
      sub-agent's. */
  lemma {:induction false} NamedRunsLoseNothing(active: nat, bound: map<nat, string>, selected: Option<string>, desktop: bool,
                                                events: seq<Event>)
    requires forall e :: e in events ==> Named(e)
    ensures Homes(Run(Opened(active, bound, selected, desktop), events))
  {
    if events != [] {
      assert forall e :: e in events[..|events| - 1] ==> e in events;
      NamedRunsLoseNothing(active, bound, selected, desktop, events[..|events| - 1]);
      NextKeepsHomes(Run(Opened(active, bound, selected, desktop), events[..|events| - 1]), events[|events| - 1]);
    }
  }

  /** One event that names none is enough to lose a prompt. A sub-agent is announced
      without its parent and falls to the active pane, which only follows the
      sidebar; the user answers it, queues a prompt, looks elsewhere; the sub-agent
      finishes, and the pane it finds has no conversation. */
  function UnnamedRun(): seq<Event> {
    var yes := Outside(true, true, true);
    [BusSpawned("", Some(1), "kid"), OnAnswer(yes), OnSend("go", yes), OnFocus(2), BusFinished("kid", Some(1), yes)]
  }

  /** The window after `n` of them, up to four. */
  function UnnamedAfter(n: nat): St {
    var start := Opened(1, map[], Some("c"), true);
    if n == 0 then start
    else if n == 1 then start.(runtimes := map[1 := QUIET], agents := map[1 := {"kid"}])
    else if n == 2 then UnnamedAfter(1).(runtimes := map[1 := Runtime(None, true, None)])
    else if n == 3 then
      UnnamedAfter(2).(runtimes := map[1 := Runtime(Some(Prompt(0, "go")), true, None)], accepted := [(1, "go")], mirror := Some("go"))
    else UnnamedAfter(3).(active := 2, mirror := None)
  }

  lemma UnnamedStart()
    ensures Next(UnnamedAfter(0), UnnamedRun()[0]) == UnnamedAfter(1)
  {
    var none: set<string> := {};
    assert none + {"kid"} == {"kid"};
    var runtimes: map<nat, Runtime> := map[];
    var agents: map<nat, set<string>> := map[];
    assert runtimes[1 := QUIET] == map[1 := QUIET] && agents[1 := {"kid"}] == map[1 := {"kid"}];
  }

  lemma UnnamedAnswers()
    ensures Next(UnnamedAfter(1), UnnamedRun()[1]) == UnnamedAfter(2)
  {
    assert (map[1 := QUIET])[1 := Runtime(None, true, None)] == map[1 := Runtime(None, true, None)];
  }

  lemma UnnamedQueues()
    ensures Next(UnnamedAfter(2), UnnamedRun()[2]) == UnnamedAfter(3)
  {
    assert Trim("go") == "go";
    assert Rt(UnnamedAfter(2), 1) == Runtime(None, true, None);
    var slot := Runtime(Some(Prompt(0, "go")), true, None);
    assert (map[1 := Runtime(None, true, None)])[1 := slot] == map[1 := slot];
    assert [] + [(1, "go")] == [(1, "go")];
  }

  lemma UnnamedLooksAway()
    ensures Next(UnnamedAfter(3), UnnamedRun()[3]) == UnnamedAfter(4)
  {
  }

  lemma UnnamedFinish()
    ensures Next(UnnamedAfter(4), UnnamedRun()[4]).settled == [Settled(0, 1, "go", Dropped(Unattributed))]
  {
    var s := UnnamedAfter(4);
    assert Parents(s, 1, "kid") && Resolves(s, "kid", Some(1));
    var fate := FinishSettles(s, 1, Outside(true, true, true));
    assert [] + [Settled(0, 1, "go", fate)] == [Settled(0, 1, "go", fate)];
  }

  lemma UnnamedStep(n: nat)
    requires n < 4
    ensures Next(UnnamedAfter(n), UnnamedRun()[n]) == UnnamedAfter(n + 1)
  {
    if n == 0 {
      UnnamedStart();
    } else if n == 1 {
      UnnamedAnswers();
    } else if n == 2 {
      UnnamedQueues();
    } else {
      UnnamedLooksAway();
    }
  }

  lemma UnnamedRunLoses()
    ensures Run(UnnamedAfter(0), UnnamedRun()).settled == [Settled(0, 1, "go", Dropped(Unattributed))]
  {
    var run := UnnamedRun();
    forall n: nat | n < 4 ensures Next(UnnamedAfter(n), run[..4][n]) == UnnamedAfter(n + 1) {
      UnnamedStep(n);
    }
    StepsAreRun(run[..4], UnnamedAfter);
    UnnamedFinish();
    LastStep(UnnamedAfter(0), run, 4);
  }

  lemma LastStep(s: St, events: seq<Event>, n: nat)
    requires |events| == n + 1
    ensures Run(s, events) == Next(Run(s, events[..n]), events[n])
  {
  }

  /** States that follow one another by these events are a run's. */
  lemma {:induction false} StepsAreRun(events: seq<Event>, after: nat -> St)
    requires forall n: nat :: n < |events| ==> Next(after(n), events[n]) == after(n + 1)
    ensures Run(after(0), events) == after(|events|)
  {
    if events != [] {
      StepsAreRun(events[..|events| - 1], after);
    }
  }

  /** The window's copy shows the active pane's slot. */
  predicate MirrorTrue(s: St) {
    s.mirror == TextOf(Rt(s, s.active).queued)
  }

  lemma SendPromptMirror(s: St, pane: nat, text: string, out: Outside)
    requires MirrorTrue(s)
    ensures MirrorTrue(SendPrompt(s, pane, text, out))
  {
  }

  lemma FlushMirror(s: St, out: Outside)
    requires MirrorTrue(s)
    ensures MirrorTrue(Flush(s, out))
  {
  }

  lemma EnqueueMirror(s: St, pane: nat, text: string)
    requires MirrorTrue(s)
    ensures MirrorTrue(Enqueue(s, pane, text)) <==>
            pane == s.active || TextOf(Rt(s, s.active).queued) == Some(text)
  {
    assert Rt(Enqueue(s, pane, text), pane).queued == Some(Prompt(|s.accepted|, text));
    assert pane != s.active ==> Rt(Enqueue(s, pane, text), s.active) == Rt(s, s.active);
  }

  lemma BusMirror(s: St, e: Event)
    requires MirrorTrue(s) && OfBus(e)
    ensures MirrorTrue(Bus(s, e))
  {
    if e.BusFinished? {
      FinishMirror(s, e.found, e.out);
    }
  }

  lemma FinishMirror(s: St, pane: Option<nat>, out: Outside)
    requires MirrorTrue(s)
    ensures MirrorTrue(TurnFinished(s, pane, out))
  {
  }

  /** A dashboard reply queued behind another pane's turn. */
  predicate QueuesElsewhere(s: St, e: Event) {
    && e.OnReply? && Possible(s, e) && Trim(s.reply) != [] && Rt(s, e.pane).busy && e.pane != s.active
    && TextOf(Rt(s, s.active).queued) != Some(Trim(s.reply))
  }

  /** Every handler keeps the window's copy true, but for a dashboard reply queued
      behind another pane's turn: it shows that pane's prompt as the active
      pane's own, unless the active pane happens to queue the same text. */
  lemma MirrorStaysTrue(s: St, e: Event)
    requires MirrorTrue(s)
    ensures MirrorTrue(Next(s, e)) <==> !QueuesElsewhere(s, e)
  {
    if !Possible(s, e) {
    } else if OfBus(e) {
      BusMirror(s, e);
    } else if e.OnReply? || e.OnDispatch? {
      DashboardMirror(s, e);
    } else if Submits(e) {
      SubmitMirror(s, e);
    } else {
      QuietMirror(s, e);
    }
  }

  lemma SubmitMirror(s: St, e: Event)
    requires MirrorTrue(s) && Possible(s, e) && Submits(e) && !e.OnReply? && !e.OnDispatch?
    ensures MirrorTrue(Next(s, e))
  {
    if e.OnSend? {
      FlushMirror(s, e.out);
      EnqueueMirror(s, s.active, e.text);
      SendPromptMirror(s, s.active, e.text, e.out);
    } else if e.OnSendQueued? {
      FlushMirror(s, e.out);
    } else if e.OnCmdEnter? {
      OwnPromptMirror(s, s.active, e.text, e.newConversation, e.out);
    } else if e.OnTerminalPrompt? {
      OwnPromptMirror(s, e.pane, e.text, e.newConversation, e.out);
    } else {
      SendPromptMirror(s, e.pane, e.text, e.out);
    }
  }

  lemma OwnPromptMirror(s: St, pane: nat, text: string, newConversation: string, out: Outside)
    requires MirrorTrue(s)
    ensures MirrorTrue(OwnPrompt(s, pane, text, newConversation, out))
  {
    SendPromptMirror(s, pane, text, out);
    SendPromptMirror(s.(bound := s.bound[pane := newConversation]), pane, text, out);
  }

  lemma SendOrLoseMirror(s: St, pane: nat, text: string, out: Outside)
    requires MirrorTrue(s)
    ensures MirrorTrue(SendOrLose(s, pane, text, out))
  {
    SendPromptMirror(s, pane, text, out);
  }

  lemma DashboardMirror(s: St, e: Event)
    requires MirrorTrue(s) && Possible(s, e) && (e.OnReply? || e.OnDispatch?)
    ensures MirrorTrue(Next(s, e)) <==> !QueuesElsewhere(s, e)
  {
    if e.OnReply? {
      ReplyMirror(s, e.pane, e.out);
    } else if e.created.Some? {
      SendOrLoseMirror(OpenTab(s, e.pane, e.created.value), e.pane, Trim(s.dispatch), e.out);
    }
  }

  lemma ReplyMirror(s: St, pane: nat, out: Outside)
    requires MirrorTrue(s)
    ensures MirrorTrue(Reply(s, pane, out)) <==>
            !(Trim(s.reply) != [] && Rt(s, pane).busy && pane != s.active
              && TextOf(Rt(s, s.active).queued) != Some(Trim(s.reply)))
  {
    EnqueueMirror(s, pane, Trim(s.reply));
    SendOrLoseMirror(s, pane, Trim(s.reply), out);
  }

  lemma QuietMirror(s: St, e: Event)
    requires MirrorTrue(s)
    ensures MirrorTrue(Quiet(s, e))
  {
  }

  // ---- A reply that is lost ----

  predicate StartedTag(settled: seq<Settled>, tag: nat) {
    exists k :: 0 <= k < |settled| && settled[k].tag == tag && settled[k].fate.Started?
  }

  /** What becomes of a dashboard reply: its draft is gone in every case; it waits when
      the pane is busy, else it is started or dropped at once. */
  lemma ReplyFate(s: St, conversation: string, pane: nat, out: Outside)
    requires conversation != "" && Owns(s, pane, conversation) && Trim(s.reply) != []
    ensures var s', tag, text := Next(s, OnReply(conversation, pane, out)), |s.accepted|, Trim(s.reply);
            && s'.reply == "" && s'.accepted == s.accepted + [(pane, text)]
            && if Rt(s, pane).busy then Rt(s', pane).queued == Some(Prompt(tag, text))
               else Rt(s', pane).queued == Rt(s, pane).queued
                    && s'.settled == s.settled + [Settled(tag, pane, text, ReplyIdle(s, conversation, out))]
  {
    if Rt(s, pane).busy {
      assert Rt(Enqueue(s, pane, Trim(s.reply)), pane).queued == Some(Prompt(|s.accepted|, Trim(s.reply)));
    }
  }

  /** On an idle pane. */
  function ReplyIdle(s: St, conversation: string, out: Outside): Fate {
    if !out.canRun then Dropped(NoModel)
    else if !s.desktop then Dropped(NoConversation)
    else if out.starts then Started(conversation) else Dropped(FailedStart)
  }

  /** A reply that is not blank leaves neither a turn nor a slot if and only if its pane
      is idle and a turn cannot run or be issued. */
  lemma ReplyLostIff(s: St, conversation: string, pane: nat, out: Outside)
    requires Conserved(s) && conversation != "" && Owns(s, pane, conversation) && Trim(s.reply) != []
    ensures var s', tag := Next(s, OnReply(conversation, pane, out)), |s.accepted|;
            tag < |s'.accepted| &&
            (!Waits(s', tag) && !StartedTag(s'.settled, tag) <==>
               !Rt(s, pane).busy && !(out.canRun && s.desktop && out.starts))
  {
    var s', tag := Next(s, OnReply(conversation, pane, out)), |s.accepted|;
    ReplyFate(s, conversation, pane, out);
    NextKeeps(s, OnReply(conversation, pane, out));
    if !Rt(s, pane).busy {
      SettledOnce(s', |s.settled|);
      assert s'.settled[|s.settled|].tag == tag;
    }
  }

  lemma DispatchFate(s: St, pane: nat, created: string, out: Outside)
    requires s.desktop && created != "" && Trim(s.dispatch) != []
    ensures var s', tag, text := Next(s, OnDispatch(pane, Some(created), out)), |s.accepted|, Trim(s.dispatch);
            && s'.dispatch == "" && s'.accepted == s.accepted + [(pane, text)]
            && s'.settled == s.settled + [Settled(tag, pane, text, if !out.canRun then Dropped(NoModel)
                                                                  else if out.starts then Started(created) else Dropped(FailedStart))]
  {
    var tab := OpenTab(s, pane, created);
    assert ConversationOf(tab, pane) == Some(created);
    if out.canRun {
      SendPromptTakes(tab, pane, Trim(s.dispatch), out);
      SendPromptSettles(tab, pane, Trim(s.dispatch), out);
    }
  }

  /** A dispatch whose conversation was made starts its turn, or loses its text: exactly
      when the turn cannot run or be issued. */
  lemma DispatchLostIff(s: St, pane: nat, created: string, out: Outside)
    requires Conserved(s) && s.desktop && created != "" && Trim(s.dispatch) != []
    ensures var s', tag := Next(s, OnDispatch(pane, Some(created), out)), |s.accepted|;
            tag < |s'.accepted| && !Waits(s', tag) && (!StartedTag(s'.settled, tag) <==> !(out.canRun && out.starts))
  {
    var e := OnDispatch(pane, Some(created), out);
    var s', tag := Next(s, e), |s.accepted|;
    DispatchFate(s, pane, created, out);
    NextKeeps(s, e);
    SettledOnce(s', |s.settled|);
    assert s'.settled[|s.settled|].tag == tag;
  }

  // ---- A waiting prompt has a turn to wait for ----

  predicate HasTurn(s: St, pane: nat) {
    Rt(s, pane).queued.Some? ==> Rt(s, pane).busy
  }

  ghost predicate WaitingHasTurn(s: St) {
    forall pane :: HasTurn(s, pane)
  }

  /** The pane a turn ends on while a prompt waits behind it: stopped, or failed before
      its finish. */
  predicate LeavesWaiting(s: St, e: Event) {
    || (e.OnStop? && Rt(s, e.pane).queued.Some?)
    || (e.BusFailed? && Possible(s, e) && s.desktop && e.chat != "" && e.found.Some? && Rt(s, e.found.value).queued.Some?)
  }

  lemma SendPromptTurn(s: St, pane: nat, text: string, out: Outside)
    requires WaitingHasTurn(s)
    ensures WaitingHasTurn(SendPrompt(s, pane, text, out))
  {
    forall q ensures HasTurn(SendPrompt(s, pane, text, out), q) {
      assert HasTurn(s, q);
    }
  }

  lemma SendOrLoseTurn(s: St, pane: nat, text: string, out: Outside)
    requires WaitingHasTurn(s)
    ensures WaitingHasTurn(SendOrLose(s, pane, text, out))
  {
    if out.canRun {
      SendPromptTurn(s, pane, text, out);
    } else {
      SameRuntimes(s, SendOrLose(s, pane, text, out));
    }
  }

  lemma SameRuntimes(s: St, s': St)
    requires WaitingHasTurn(s) && s'.runtimes == s.runtimes
    ensures WaitingHasTurn(s')
  {
    forall q ensures HasTurn(s', q) {
      assert HasTurn(s, q);
    }
  }

  lemma EnqueueTurn(s: St, pane: nat, text: string)
    requires WaitingHasTurn(s) && Rt(s, pane).busy
    ensures WaitingHasTurn(Enqueue(s, pane, text))
  {
    forall q ensures HasTurn(Enqueue(s, pane, text), q) {
      assert HasTurn(s, q);
    }
  }

  lemma FlushTurn(s: St, out: Outside)
    requires WaitingHasTurn(s)
    ensures WaitingHasTurn(Flush(s, out))
  {
    forall q ensures HasTurn(Flush(s, out), q) {
      assert HasTurn(s, q);
    }
  }

  lemma OwnPromptTurn(s: St, pane: nat, text: string, newConversation: string, out: Outside)
    requires WaitingHasTurn(s)
    ensures WaitingHasTurn(OwnPrompt(s, pane, text, newConversation, out))
  {
    SameRuntimes(s, s.(bound := s.bound[pane := newConversation]));
    SendPromptTurn(s.(bound := s.bound[pane := newConversation]), pane, text, out);
    SendPromptTurn(s, pane, text, out);
  }

  lemma DashboardTurn(s: St, e: Event)
    requires WaitingHasTurn(s) && Possible(s, e) && (e.OnReply? || e.OnDispatch?)
    ensures WaitingHasTurn(Next(s, e))
  {
    if e.OnReply? {
      var text := Trim(s.reply);
      if text != [] {
        var done := if Rt(s, e.pane).busy then Enqueue(s, e.pane, text) else SendOrLose(s, e.pane, text, e.out);
        if Rt(s, e.pane).busy {
          EnqueueTurn(s, e.pane, text);
        }
        SendOrLoseTurn(s, e.pane, text, e.out);
        SameRuntimes(done, Next(s, e));
      }
    } else if e.created.Some? && s.desktop && Trim(s.dispatch) != [] {
      var tab := OpenTab(s, e.pane, e.created.value);
      SameRuntimes(s, tab);
      SendOrLoseTurn(tab, e.pane, Trim(s.dispatch), e.out);
      SameRuntimes(SendOrLose(tab, e.pane, Trim(s.dispatch), e.out), Next(s, e));
    }
  }

  lemma SubmitTurn(s: St, e: Event)
    requires WaitingHasTurn(s) && Possible(s, e) && Submits(e)
    ensures WaitingHasTurn(Next(s, e))
  {
    if e.OnSend? {
      FlushTurn(s, e.out);
      if Rt(s, s.active).busy {
        EnqueueTurn(s, s.active, e.text);
      }
      SendPromptTurn(s, s.active, e.text, e.out);
    } else if e.OnSendQueued? {
      FlushTurn(s, e.out);
    } else if e.OnReply? || e.OnDispatch? {
      DashboardTurn(s, e);
    } else if e.OnCmdEnter? {
      OwnPromptTurn(s, s.active, e.text, e.newConversation, e.out);
    } else if e.OnTerminalPrompt? {
      OwnPromptTurn(s, e.pane, e.text, e.newConversation, e.out);
    } else {
      SendPromptTurn(s, e.pane, e.text, e.out);
    }
  }

  lemma FinishTurn(s: St, pane: Option<nat>, out: Outside)
    requires WaitingHasTurn(s)
    ensures WaitingHasTurn(TurnFinished(s, pane, out))
  {
    forall q ensures HasTurn(TurnFinished(s, pane, out), q) {
      assert HasTurn(s, q);
    }
  }

  lemma FailedTurn(s: St, chat: string, pane: Option<nat>)
    requires WaitingHasTurn(s)
    ensures WaitingHasTurn(TurnFailed(s, chat, pane)) <==>
            !(s.desktop && chat != "" && pane.Some? && Rt(s, pane.value).queued.Some?)
  {
    var s' := TurnFailed(s, chat, pane);
    if s.desktop && chat != "" && pane.Some? && Rt(s, pane.value).queued.Some? {
      assert !HasTurn(s', pane.value);
    } else {
      forall q ensures HasTurn(s', q) {
        assert HasTurn(s, q);
      }
    }
  }

  lemma BusTurn(s: St, e: Event)
    requires WaitingHasTurn(s) && OfBus(e) && Possible(s, e)
    ensures WaitingHasTurn(Bus(s, e)) <==> !LeavesWaiting(s, e)
  {
    if e.BusFinished? {
      FinishTurn(s, e.found, e.out);
    } else if e.BusFailed? {
      FailedTurn(s, e.chat, e.found);
    } else {
      forall q ensures HasTurn(Bus(s, e), q) {
        assert HasTurn(s, q);
      }
    }
  }

  lemma StopTurn(s: St, pane: nat)
    requires WaitingHasTurn(s)
    ensures WaitingHasTurn(Stopped(s, pane)) <==> Rt(s, pane).queued.None?
  {
    if Rt(s, pane).queued.Some? {
      assert !HasTurn(Stopped(s, pane), pane);
    } else {
      forall q ensures HasTurn(Stopped(s, pane), q) {
        assert HasTurn(s, q);
      }
    }
  }

  lemma QuietTurn(s: St, e: Event)
    requires WaitingHasTurn(s) && !e.OnStop?
    ensures WaitingHasTurn(Quiet(s, e))
  {
    if OfTurns(e) {
      TurnsTurn(s, e);
    } else {
      PanesTurn(s, e);
    }
  }

  lemma TurnsTurn(s: St, e: Event)
    requires WaitingHasTurn(s) && OfTurns(e) && !e.OnStop?
    ensures WaitingHasTurn(Quiet(s, e))
  {
    forall q ensures HasTurn(Quiet(s, e), q) {
      assert HasTurn(s, q);
    }
  }

  lemma PanesTurn(s: St, e: Event)
    requires WaitingHasTurn(s) && !OfTurns(e)
    ensures WaitingHasTurn(Quiet(s, e))
  {
    forall q ensures HasTurn(Quiet(s, e), q) {
      assert HasTurn(s, q);
    }
  }

  /** Every event keeps the property but exactly these: a stop, and an error event, of a
      turn a prompt waits behind. */
  lemma WaitingKeepsTurnIff(s: St, e: Event)
    requires WaitingHasTurn(s)
    ensures WaitingHasTurn(Next(s, e)) <==> !LeavesWaiting(s, e)
  {
    if e.OnStop? {
      StopTurn(s, e.pane);
    } else if Possible(s, e) {
      if OfBus(e) {
        BusTurn(s, e);
      } else if Submits(e) {
        SubmitTurn(s, e);
      } else {
        QuietTurn(s, e);
      }
    }
  }

  /** So over every run without those, each prompt that waits has its turn. */
  lemma {:induction false} RunsKeepTurns(s: St, events: seq<Event>)
    requires WaitingHasTurn(s)
    requires forall k :: 0 <= k < |events| ==> !LeavesWaiting(Run(s, events[..k]), events[k])
    ensures WaitingHasTurn(Run(s, events))
  {
    if events != [] {
      var front, n := events[..|events| - 1], |events| - 1;
      forall k | 0 <= k < n ensures !LeavesWaiting(Run(s, front[..k]), front[k]) {
        assert front[..k] == events[..k];
      }
      RunsKeepTurns(s, front);
      WaitingKeepsTurnIff(Run(s, front), events[n]);
    }
  }

  /** After a stop no finish follows, and the next prompt typed is settled ahead of
      the one that waits. */
  lemma StoppedIsOvertaken(s: St, text: string, out: Outside)
    requires Rt(s, s.active).queued.Some? && Trim(text) != [] && !IsCommandLine(text) && out.canRun
    ensures var next := Next(Stopped(s, s.active), OnSend(text, out));
            && Next(s, OnStop(s.active)) == Stopped(s, s.active)
            && Rt(next, s.active).queued == Rt(s, s.active).queued
            && next.settled == s.settled + [Settled(|s.accepted|, s.active, text, SendFate(Stopped(s, s.active), s.active, out))]
  {
    SendPromptSettles(Stopped(s, s.active), s.active, text, out);
    SendPromptSlots(Stopped(s, s.active), s.active, text, out);
  }

  /** After an error event the finish that follows takes the prompt that waits. */
  lemma FailedIsFinished(s: St, chat: string, found: Option<nat>, out: Outside)
    requires s.desktop && chat != "" && Resolves(s, chat, found) && found.Some?
    ensures var failed := Next(s, BusFailed(chat, found));
            Resolves(failed, chat, found) && Rt(Next(failed, BusFinished(chat, found, out)), found.value).queued.None?
  {
    var failed := Next(s, BusFailed(chat, found));
    assert failed.bound == s.bound && failed.agents == s.agents;
    FinishSlots(failed, found.value, out);
  }
}
