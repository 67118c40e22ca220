/**
 What each handler does with the panes' turns, slots and conversations, read off the
 window before and after it.
 */
module PromptEffects {
  import opened Base
  import opened PromptQueue

  /** The window's copies follow the active pane: its slot, and its own conversation when
      it has one. */
  predicate Follows(was: Option<string>, s: St) {
    && s.mirror == (match Rt(s, s.active).queued { case None => None case Some(p) => Some(p.text) })
    && s.selected == (if s.active in s.bound && s.bound[s.active] != "" then Some(s.bound[s.active]) else was)
  }

  /** Nothing but turns, slots, their history and the copies of `pane` is touched. */
  ghost predicate Elsewhere(s: St, s': St, pane: nat) {
    && s'.active == s.active && s'.agents == s.agents && s'.desktop == s.desktop
    && s'.reply == s.reply && s'.dispatch == s.dispatch
    && (forall q :: q != pane ==> Rt(s', q) == Rt(s, q))
    && (forall q :: q != pane ==> (q in s'.runtimes <==> q in s.runtimes))
  }

  predicate NothingTaken(s: St, s': St) {
    s'.accepted == s.accepted && s'.settled == s.settled
  }

  /** A slot is emptied, and its prompt, if any, dropped for that reason. */
  predicate Emptied(s: St, settled: seq<Settled>, pane: nat, reason: Reason) {
    settled == s.settled + match Rt(s, pane).queued
                           case None => []
                           case Some(p) => [Settled(p.tag, pane, p.text, Dropped(reason))]
  }

  /** The conversation a pane's turn runs on: its own, else for the active pane the one
      selected in the sidebar. */
  predicate RunsOn(s: St, pane: nat, chat: Option<string>) {
    chat == if pane in s.bound && s.bound[pane] != "" then Some(s.bound[pane]) else if pane == s.active then s.selected else None
  }

  // ---- Prompts ----

  /** A prompt is sent: it is taken and settled at once. Its turn starts on the pane's
      conversation, which the pane is then bound to, when there is a store, a conversation
      and the turn is issued. */
  ghost predicate Sent(s: St, s': St, pane: nat, text: string, chat: Option<string>, out: Outside) {
    var runs := s.desktop && chat.Some?;
    && Elsewhere(s, s', pane) && Follows(s.selected, s')
    && s'.accepted == s.accepted + [(pane, text)]
    && s'.settled == s.settled + [Settled(|s.accepted|, pane, text, if !runs then Dropped(NoConversation)
                                          else if out.starts then Started(chat.value) else Dropped(FailedStart))]
    && Rt(s', pane) == Rt(s, pane).(busy := Rt(s, pane).busy || (runs && out.starts))
    && s'.bound == (if chat.Some? && chat.value != "" then s.bound[pane := chat.value] else s.bound)
  }

  lemma SendTurns(s: St, pane: nat, text: string, chat: Option<string>, out: Outside)
    requires RunsOn(s, pane, chat) && out.canRun
    ensures var s' := SendPrompt(s, pane, text, out);
            && Elsewhere(s, s', pane)
            && Rt(s', pane) == Rt(s, pane).(busy := Rt(s, pane).busy || (s.desktop && chat.Some? && out.starts))
  {
  }

  lemma SendBinds(s: St, pane: nat, text: string, chat: Option<string>, out: Outside)
    requires RunsOn(s, pane, chat) && out.canRun
    ensures var s' := SendPrompt(s, pane, text, out);
            && Follows(s.selected, s')
            && s'.bound == (if chat.Some? && chat.value != "" then s.bound[pane := chat.value] else s.bound)
  {
  }

  lemma SendDoes(s: St, pane: nat, text: string, chat: Option<string>, out: Outside)
    requires RunsOn(s, pane, chat)
    ensures if out.canRun then Sent(s, SendPrompt(s, pane, text, out), pane, text, chat, out) else SendPrompt(s, pane, text, out) == s
  {
    if out.canRun {
      assert ConversationOf(s, pane) == chat;
      SendTurns(s, pane, text, chat, out);
      SendBinds(s, pane, text, chat, out);
      SendPromptTakes(s, pane, text, out);
      SendPromptSettles(s, pane, text, out);
    }
  }

  /** A prompt is queued behind the running turn, in the place of one that waits. */
  ghost predicate Queued(s: St, s': St, pane: nat, text: string) {
    && Elsewhere(s, s', pane) && s'.bound == s.bound && s'.selected == s.selected && s'.mirror == Some(text)
    && s'.accepted == s.accepted + [(pane, text)] && Emptied(s, s'.settled, pane, Overwritten)
    && Rt(s', pane) == Rt(s, pane).(queued := Some(Prompt(|s.accepted|, text)))
  }

  lemma EnqueueDoes(s: St, pane: nat, text: string)
    ensures Queued(s, Enqueue(s, pane, text), pane, text)
  {
    assert s.settled + [] == s.settled;
  }

  /** Enter: a command line is no prompt; a prompt waits behind a running turn, else it
      is sent, if a model can run. */
  lemma EnterDoes(s: St, text: string, chat: Option<string>, out: Outside)
    requires Trim(text) != [] && RunsOn(s, s.active, chat)
    ensures var s' := Next(s, OnSend(text, out));
            if Trim(text)[0] == '!' then s' == s
            else if Rt(s, s.active).busy then Queued(s, s', s.active, text)
            else if out.canRun then Sent(s, s', s.active, text, chat, out)
            else s' == s
  {
    EnqueueDoes(s, s.active, text);
    SendDoes(s, s.active, text, chat, out);
  }

  /** A prompt from a socket goes to its pane whatever runs there. */
  lemma ControlPromptDoes(s: St, pane: nat, text: string, chat: Option<string>, out: Outside)
    requires RunsOn(s, pane, chat)
    ensures var s' := Next(s, OnControlPrompt(pane, text, out));
            if out.canRun then Sent(s, s', pane, text, chat, out) else s' == s
  {
    SendDoes(s, pane, text, chat, out);
  }

  /** Cmd+Enter: on the pane's own conversation, a new one when it has none; the sidebar's
      is never adopted. */
  lemma OwnPromptDoes(s: St, pane: nat, text: string, newChat: string, out: Outside)
    requires newChat != ""
    ensures var s', chat := OwnPrompt(s, pane, text, newChat, out), if pane in s.bound && s.bound[pane] != "" then s.bound[pane] else newChat;
            if !out.canRun then s' == s
            else s'.bound == s.bound[pane := chat] && Sent(s.(bound := s.bound[pane := chat]), s', pane, text, Some(chat), out)
  {
    var bound := s.(bound := s.bound[pane := newChat]);
    var owned := pane in s.bound && s.bound[pane] != "";
    if owned {
      assert s.(bound := s.bound[pane := s.bound[pane]]) == s by {
        assert s.bound[pane := s.bound[pane]] == s.bound;
      }
      SendDoes(s, pane, text, Some(s.bound[pane]), out);
    } else {
      SendDoes(bound, pane, text, Some(newChat), out);
      assert bound.bound[pane := newChat] == bound.bound;
    }
  }

  lemma CmdEnterDoes(s: St, text: string, newChat: string, out: Outside)
    ensures Next(s, OnCmdEnter(text, newChat, out)) == if Trim(text) == [] then s else OwnPrompt(s, s.active, text, newChat, out)
  {
  }

  lemma TerminalPromptDoes(s: St, pane: nat, text: string, newChat: string, out: Outside)
    ensures Next(s, OnTerminalPrompt(pane, text, newChat, out)) == OwnPrompt(s, pane, text, newChat, out)
  {
  }

  /** A dashboard reply is trimmed, queued behind a running turn or sent, and its draft
      erased; without a model it is lost. A blank one stays. */
  lemma ReplyDoes(s: St, conversation: string, pane: nat, out: Outside)
    requires conversation != "" && Owns(s, pane, conversation)
    ensures var s', text := Next(s, OnReply(conversation, pane, out)), Trim(s.reply);
            if text == [] then s' == s
            else if Rt(s, pane).busy then s'.reply == "" && Queued(s, s'.(reply := s.reply), pane, text)
            else if out.canRun then s'.reply == "" && Sent(s, s'.(reply := s.reply), pane, text, Some(conversation), out)
            else s' == s.(reply := "", accepted := s.accepted + [(pane, text)],
                          settled := s.settled + [Settled(|s.accepted|, pane, text, Dropped(NoModel))])
  {
    EnqueueDoes(s, pane, Trim(s.reply));
    SendDoes(s, pane, Trim(s.reply), Some(conversation), out);
  }

  /** A dispatch opens the conversation the store made in a pane of its own, and sends its
      draft there. */
  lemma DispatchDoes(s: St, pane: nat, created: Option<string>, out: Outside)
    requires created.Some? ==> created.value != ""
    ensures var s', text := Next(s, OnDispatch(pane, created, out)), Trim(s.dispatch);
            if text == [] || !s.desktop || created.None? then s' == s
            else
              && s'.dispatch == "" && s'.active == pane && s'.selected == created
              && s'.bound == s.bound[pane := created.value] && s'.accepted == s.accepted + [(pane, text)]
              && s'.settled == s.settled + [Settled(|s.accepted|, pane, text, if !out.canRun then Dropped(NoModel)
                                                    else if out.starts then Started(created.value) else Dropped(FailedStart))]
              && Rt(s', pane) == Rt(s, pane).(busy := Rt(s, pane).busy || (out.canRun && out.starts))
              && Follows(created, s') && forall q :: q != pane ==> Rt(s', q) == Rt(s, q)
  {
    if created.Some? && s.desktop && Trim(s.dispatch) != [] {
      var tab := OpenTab(s, pane, created.value);
      SendDoes(tab, pane, Trim(s.dispatch), created, out);
      assert tab.bound[pane := created.value] == tab.bound;
    }
  }

  /** The drafts are what was typed. */
  lemma DraftsDo(s: St, text: string)
    ensures Next(s, OnReplyDraft(text)) == s.(reply := text) && Next(s, OnDispatchDraft(text)) == s.(dispatch := text)
  {
  }

  // ---- Slots and turns ----

  lemma DropDoes(s: St, pane: nat, reason: Reason)
    ensures var s' := DropQueued(s, pane, reason);
            && Elsewhere(s, s', pane) && s'.bound == s.bound && s'.selected == s.selected && s'.mirror == s.mirror
            && s'.accepted == s.accepted && Emptied(s, s'.settled, pane, reason)
            && Rt(s', pane) == Rt(s, pane).(queued := None) && (pane in s'.runtimes <==> pane in s.runtimes)
  {
    assert s.settled + [] == s.settled;
  }

  /** A dismissal empties the active pane's slot, its turn running on. */
  lemma DismissDoes(s: St)
    ensures var s' := Next(s, OnDismiss);
            && Elsewhere(s, s', s.active) && s'.bound == s.bound && s'.selected == s.selected && s'.mirror == None
            && s'.accepted == s.accepted && Emptied(s, s'.settled, s.active, Dismissed)
            && Rt(s', s.active) == Rt(s, s.active).(queued := None)
  {
    DropDoes(s, s.active, Dismissed);
  }

  /** Clearing the transcript empties the slot and forgets the proposed command. */
  lemma ClearDoes(s: St)
    ensures var s' := Next(s, OnClear);
            && Elsewhere(s, s', s.active) && s'.bound == s.bound && Follows(s.selected, s')
            && s'.accepted == s.accepted && Emptied(s, s'.settled, s.active, Cleared)
            && Rt(s', s.active) == Rt(s, s.active).(queued := None, pending := None)
  {
    DropDoes(s, s.active, Cleared);
  }

  /** A stop ends the turn and its proposal, and leaves the slot. */
  lemma StopDoes(s: St, pane: nat)
    ensures var s' := Next(s, OnStop(pane));
            && Elsewhere(s, s', pane) && s'.bound == s.bound && s'.selected == s.selected && s'.mirror == s.mirror
            && NothingTaken(s, s') && Rt(s', pane) == Runtime(Rt(s, pane).queued, false, None)
  {
  }

  /** A decision on the pane's proposal runs the suspended turn on, and takes that proposal
      away; another stays. */
  lemma DecisionDoes(s: St, pane: nat, id: string, chat: Option<string>, out: Outside)
    requires RunsOn(s, pane, chat)
    ensures var s', rt := Next(s, OnDecision(pane, id, out)), Rt(s, pane);
            if !s.desktop || chat.None? then s' == s
            else
              && Elsewhere(s, s', pane) && s'.bound == s.bound && Follows(s.selected, s') && NothingTaken(s, s')
              && Rt(s', pane) == if out.resumes && pane in s.runtimes
                                 then Runtime(rt.queued, true, if rt.pending == Some(id) then None else rt.pending) else rt
  {
  }

  /** An answered question runs the active pane's suspended turn on. */
  lemma AnswerDoes(s: St, chat: Option<string>, out: Outside)
    requires RunsOn(s, s.active, chat)
    ensures var s', rt := Next(s, OnAnswer(out)), Rt(s, s.active);
            if !s.desktop || chat.None? then s' == s
            else
              && Elsewhere(s, s', s.active) && s'.bound == s.bound && Follows(s.selected, s') && NothingTaken(s, s')
              && Rt(s', s.active) == rt.(busy := rt.busy || (out.resumes && s.active in s.runtimes))
  {
  }

  /** A workflow without a store only makes the pane look busy. */
  lemma WorkflowDoes(s: St)
    ensures var s' := Next(s, OnWorkflow);
            && Elsewhere(s, s', s.active) && s'.bound == s.bound && s'.selected == s.selected && s'.mirror == s.mirror
            && NothingTaken(s, s')
            && Rt(s', s.active) == Rt(s, s.active).(busy := Rt(s, s.active).busy || (!s.desktop && s.active in s.runtimes))
  {
  }

  // ---- Panes and conversations ----

  /** Moving the focus, refreshing and picking in the sidebar only move the copies. */
  lemma FocusDoes(s: St, pane: nat)
    ensures var s' := Next(s, OnFocus(pane));
            s' == s.(active := pane, selected := s'.selected, mirror := s'.mirror) && Follows(s.selected, s')
  {
  }

  lemma RefreshDoes(s: St, picked: Option<string>)
    ensures var s' := Next(s, OnRefresh); s' == s.(selected := s'.selected, mirror := s'.mirror) && Follows(s.selected, s')
    ensures Next(s, OnSelect(picked)) == s.(selected := picked)
  {
  }

  /** A pane that has a conversation of its own is bound to the one picked; without a store
      its turn state is cleared. */
  lemma BindDoes(s: St, conversation: string)
    ensures var s' := Next(s, OnBind(conversation));
            && Elsewhere(s, s', s.active) && Follows(Some(conversation), s') && s'.accepted == s.accepted
            && s'.bound == (if s.active in s.bound then s.bound[s.active := conversation] else s.bound)
            && if s.desktop then s'.settled == s.settled && Rt(s', s.active) == Rt(s, s.active)
               else Emptied(s, s'.settled, s.active, Cleared) && Rt(s', s.active) == Rt(s, s.active).(queued := None, pending := None)
  {
    var bound := s.(selected := Some(conversation),
                    bound := if s.active in s.bound then s.bound[s.active := conversation] else s.bound);
    if !s.desktop {
      ClearDoes(bound);
      assert Next(bound, OnClear) == Next(s, OnBind(conversation));
    }
  }

  lemma BindPaneDoes(s: St, pane: nat, conversation: string)
    ensures Next(s, OnBindPane(pane, conversation)) == s.(bound := s.bound[pane := conversation])
    ensures var s' := Next(s, OnOpenTab(pane, conversation));
            && s' == s.(active := pane, bound := s.bound[pane := conversation], selected := s'.selected, mirror := s'.mirror)
            && Follows(s.selected, s')
  {
  }

  /** A fork rebinds a pane that was bound, and the sidebar when the pane is the active one. */
  lemma ForkDoes(s: St, pane: nat, forked: string, chat: Option<string>)
    requires RunsOn(s, pane, chat)
    ensures var s' := Next(s, OnFork(pane, forked));
            if !s.desktop || chat.None? then s' == s
            else
              && s' == s.(bound := s'.bound, selected := s'.selected, mirror := s'.mirror)
              && s'.bound == (if pane in s.bound then s.bound[pane := forked] else s.bound)
              && Follows(if pane == s.active then Some(forked) else s.selected, s')
  {
  }

  /** A closed pane takes its waiting prompt with it, and owns nothing any more. */
  lemma CloseDoes(s: St, pane: nat, next: nat)
    ensures var s' := Next(s, OnClose(pane, next));
            && s'.active == next && pane !in s'.runtimes && pane !in s'.agents && s'.bound == s.bound - {pane}
            && s'.agents == s.agents - {pane} && s'.desktop == s.desktop && s'.reply == s.reply && s'.dispatch == s.dispatch
            && (forall q :: q != pane ==> Rt(s', q) == Rt(s, q)) && s'.accepted == s.accepted
            && Emptied(s, s'.settled, pane, PaneClosed) && Follows(s.selected, s')
  {
    DropDoes(s, pane, PaneClosed);
  }

  // ---- The bus ----

  /** An error event ends the turn of the pane it names, and leaves its slot. */
  lemma FailedDoes(s: St, chat: string, found: Option<nat>)
    requires Resolves(s, chat, found)
    ensures var s', pane := Next(s, BusFailed(chat, found)), if found.Some? then found.value else s.active;
            if !s.desktop then s' == s
            else
              && Elsewhere(s, s', pane) && s'.bound == s.bound && Follows(s.selected, s') && NothingTaken(s, s')
              && Rt(s', pane) == if chat != "" && found.Some? then Rt(s, pane).(busy := false) else Rt(s, pane)
  {
  }

  /** A proposal is held on the pane; the pane's mode may run the turn on at once. */
  lemma ProposedDoes(s: St, chat: string, found: Option<nat>, id: string, decided: bool, out: Outside)
    requires Resolves(s, chat, found)
    ensures var s', pane := Next(s, BusProposed(chat, found, id, decided, out)), if found.Some? then found.value else s.active;
            if !s.desktop then s' == s
            else
              && Elsewhere(s, s', pane) && s'.bound == s.bound && Follows(s.selected, s') && NothingTaken(s, s')
              && Rt(s', pane) == if found.None? then Rt(s, pane)
                                 else if decided && out.resumes then Rt(s, pane).(busy := true, pending := None)
                                 else Rt(s, pane).(pending := Some(id))
  {
  }

  /** A question, or a sub-agent, gives the pane a runtime; the sub-agent is noted as its. */
  lemma SpawnedDoes(s: St, chat: string, found: Option<nat>, child: string)
    requires Resolves(s, chat, found)
    ensures var s' := Next(s, BusAsked(chat, found));
            if !s.desktop then s' == s
            else
              && s' == s.(runtimes := s'.runtimes, selected := s'.selected, mirror := s'.mirror) && Follows(s.selected, s')
              && (forall q :: Rt(s', q) == Rt(s, q))
              && s'.runtimes.Keys == s.runtimes.Keys + if found.Some? then {found.value} else {}
    ensures var s' := Next(s, BusSpawned(chat, found, child));
            if !s.desktop || found.None? then s' == s
            else
              && s' == s.(runtimes := s'.runtimes, agents := s'.agents)
              && (forall q :: Rt(s', q) == Rt(s, q)) && s'.runtimes.Keys == s.runtimes.Keys + {found.value}
              && s'.agents.Keys == s.agents.Keys + {found.value}
              && (forall q :: q in s'.agents && q != found.value ==> s'.agents[q] == s.agents[q])
              && s'.agents[found.value] == (if found.value in s.agents then s.agents[found.value] else {}) + {child}
  {
  }

  /** A finish ends the pane's turn; the prompt behind it is taken and started on the
      conversation the pane shows, or dropped for want of one or of a turn. */
  ghost predicate Finished(s: St, s': St, pane: nat, shown: Option<string>, out: Outside) {
    var rt := Rt(s, pane);
    && Elsewhere(s, s', pane) && s'.bound == s.bound && Follows(s.selected, s') && s'.accepted == s.accepted
    && Rt(s', pane) == Runtime(None, rt.queued.Some? && shown.Some? && out.starts, rt.pending)
    && s'.settled == s.settled + match rt.queued
                                 case None => []
                                 case Some(p) => [Settled(p.tag, pane, p.text,
                                                    if shown.None? then Dropped(Unattributed)
                                                    else if out.starts then Started(shown.value) else Dropped(FailedStart))]
  }

  lemma EndDoes(s: St, pane: nat)
    ensures var s' := EndTurn(s, pane);
            && Elsewhere(s, s', pane) && s' == s.(runtimes := s'.runtimes) && Rt(s', pane) == Rt(s, pane).(busy := false)
  {
  }

  lemma NothingWaits(s: St, pane: nat, shown: Option<string>, out: Outside)
    requires s.desktop && RunsOn(s, pane, shown) && Rt(s, pane).queued.None?
    ensures Finished(s, TurnFinished(s, Some(pane), out), pane, shown, out)
  {
    EndDoes(s, pane);
    assert s.settled + [] == s.settled;
  }

  lemma OneWaits(s: St, pane: nat, shown: Option<string>, out: Outside)
    requires s.desktop && RunsOn(s, pane, shown) && Rt(s, pane).queued.Some?
    ensures Finished(s, TurnFinished(s, Some(pane), out), pane, shown, out)
  {
    EndDoes(s, pane);
    assert ConversationOf(s, pane) == shown;
    var ended := EndTurn(s, pane);
    var taken := SetRt(ended, pane, Rt(ended, pane).(queued := None));
    assert Rt(taken, pane) == Runtime(None, false, Rt(s, pane).pending) && Elsewhere(s, taken, pane);
    HandedOver(taken, pane, Rt(s, pane).queued.value, shown, out);
  }

  lemma HandedOver(taken: St, pane: nat, p: Prompt, shown: Option<string>, out: Outside)
    ensures var s' := Sync(match shown
                           case None => Settle(taken, pane, p, Dropped(Unattributed))
                           case Some(c) => StartTurn(taken, pane, p, c, out.starts));
            && Elsewhere(taken, s', pane) && s'.bound == taken.bound && Follows(taken.selected, s') && s'.accepted == taken.accepted
            && Rt(s', pane) == Rt(taken, pane).(busy := Rt(taken, pane).busy || (shown.Some? && out.starts))
            && s'.settled == taken.settled + [Settled(p.tag, pane, p.text,
                                                if shown.None? then Dropped(Unattributed)
                                                else if out.starts then Started(shown.value) else Dropped(FailedStart))]
  {
  }

  lemma FinishedDoes(s: St, chat: string, found: Option<nat>, shown: Option<string>, out: Outside)
    requires Resolves(s, chat, found) && (found.Some? ==> RunsOn(s, found.value, shown))
    ensures var s' := Next(s, BusFinished(chat, found, out));
            if !s.desktop || found.None? then s' == s else Finished(s, s', found.value, shown, out)
  {
    if s.desktop && found.Some? {
      if Rt(s, found.value).queued.None? {
        NothingWaits(s, found.value, shown, out);
      } else {
        OneWaits(s, found.value, shown, out);
      }
    }
  }
}
