/**
 The queued-prompt handlers as the window runs them: they change the panes' slots
 in place, step by step. Each is proved to do what its function in `PromptQueue`
 says, so the properties of runs proved there are about these handlers.
 */
module PromptDesk {
  import opened Base
  import opened PromptQueue

  class Desk {
    var active: nat
    var runtimes: map<nat, Runtime>
    var bound: map<nat, string>
    var agents: map<nat, set<string>>
    var selected: Option<string>
    var mirror: Option<string>
    const desktop: bool
    var reply: string
    var dispatch: string
    var accepted: seq<(nat, string)>
    var settled: seq<Settled>

    constructor (pane: nat, conversations: map<nat, string>, shown: Option<string>, store: bool)
      ensures Value() == Opened(pane, conversations, shown, store)
    {
      active, runtimes, bound, agents, selected, mirror := pane, map[], conversations, map[], shown, None;
      desktop, reply, dispatch, accepted, settled := store, "", "", [], [];
    }

    function Value(): St
      reads this
    {
      St(active, runtimes, bound, agents, selected, mirror, desktop, reply, dispatch, accepted, settled)
    }

    /** The slot is emptied and its prompt returned. */
    method TakeQueued(pane: nat) returns (prompt: Option<Prompt>)
      modifies this`runtimes
      ensures prompt == Rt(old(Value()), pane).queued
      ensures Value() == if prompt.None? then old(Value())
                         else SetRt(old(Value()), pane, Rt(old(Value()), pane).(queued := None))
    {
      prompt := None;
      if pane in runtimes {
        prompt := runtimes[pane].queued;
        runtimes := runtimes[pane := runtimes[pane].(queued := None)];
        assert prompt.None? ==> runtimes == old(runtimes);
      }
    }

    method SetQueued(pane: nat, prompt: Option<Prompt>)
      modifies this`runtimes
      ensures Value() == SetRt(old(Value()), pane, Rt(old(Value()), pane).(queued := prompt))
    {
      runtimes := runtimes[pane := Rt(Value(), pane).(queued := prompt)];
    }

    method BeginTurn(pane: nat)
      modifies this`runtimes
      ensures Value() == SetRt(old(Value()), pane, Rt(old(Value()), pane).(busy := true))
    {
      runtimes := runtimes[pane := Rt(Value(), pane).(busy := true)];
    }

    method Record(pane: nat, prompt: Prompt, fate: Fate)
      modifies this`settled
      ensures Value() == Settle(old(Value()), pane, prompt, fate)
    {
      settled := settled + [Settled(prompt.tag, pane, prompt.text, fate)];
    }

    method SyncActiveView()
      modifies this`selected, this`mirror
      ensures Value() == Sync(old(Value()))
    {
      if active in bound && bound[active] != "" {
        selected := Some(bound[active]);
      }
      mirror := if active in runtimes then TextOf(runtimes[active].queued) else None;
    }

    /** Hand the prompt to a turn and begin it when it could be issued. */
    method IssueTurn(pane: nat, prompt: Prompt, conversation: string, starts: bool)
      modifies this`runtimes, this`settled
      ensures Value() == StartTurn(old(Value()), pane, prompt, conversation, starts)
    {
      if starts {
        BeginTurn(pane);
        Record(pane, prompt, Started(conversation));
      } else {
        Record(pane, prompt, Dropped(FailedStart));
      }
    }

    method FlushQueuedPrompt(out: Outside)
      modifies this
      ensures Value() == Flush(old(Value()), out)
    {
      var pane := active;
      var chat := ConversationOf(Value(), pane);
      if !desktop || chat.None? {
        return;
      }
      var taken := TakeQueued(pane);
      if taken.None? {
        return;
      }
      mirror := None;
      if runtimes[pane].pending.Some? {
        if out.resumes {
          runtimes := runtimes[pane := runtimes[pane].(busy := true, pending := None)];
          SetQueued(pane, taken);
          mirror := TextOf(taken);
          assert runtimes == old(runtimes)[pane := old(runtimes)[pane].(busy := true, pending := None)];
        } else {
          Record(pane, taken.value, Dropped(FailedResume));
        }
        SyncActiveView();
        return;
      }
      IssueTurn(pane, taken.value, chat.value, out.starts);
      SyncActiveView();
    }

    /** Queue behind the running turn. */
    method QueueBehind(pane: nat, text: string)
      modifies this
      ensures Value() == Enqueue(old(Value()), pane, text)
    {
      var replaced := TakeQueued(pane);
      if replaced.Some? {
        Record(pane, replaced.value, Dropped(Overwritten));
      }
      SetQueued(pane, Some(Prompt(|accepted|, text)));
      accepted := accepted + [(pane, text)];
      mirror := Some(text);
    }

    method SendAgentPrompt(pane: nat, text: string, out: Outside) returns (ran: bool)
      modifies this
      ensures Value() == SendPrompt(old(Value()), pane, text, out)
      ensures ran <==> out.canRun && desktop && ConversationOf(old(Value()), pane).Some? && out.starts
      ensures ran ==> Rt(Value(), pane).busy
    {
      ran := false;
      if !out.canRun {
        return;
      }
      var chat := ConversationOf(Value(), pane);
      var prompt := Prompt(|accepted|, text);
      accepted := accepted + [(pane, text)];
      if chat.Some? && chat.value != "" {
        bound := bound[pane := chat.value];
      }
      if desktop && chat.Some? {
        IssueTurn(pane, prompt, chat.value, out.starts);
        ran := out.starts;
      } else {
        Record(pane, prompt, Dropped(NoConversation));
      }
      SyncActiveView();
    }

    method OnSendMessage(text: string, out: Outside)
      modifies this
      ensures Value() == SendMessage(old(Value()), text, out)
    {
      var pane := active;
      if Trim(text) == [] {
        if pane in runtimes && runtimes[pane].queued.Some? {
          FlushQueuedPrompt(out);
        }
        return;
      }
      if IsCommandLine(text) {
        return;
      }
      if pane in runtimes && runtimes[pane].busy {
        QueueBehind(pane, text);
        return;
      }
      var _ := SendAgentPrompt(pane, text, out);
    }

    /** Send from the dashboard, whose draft is cleared whatever comes of it. */
    method SendFromDashboard(pane: nat, text: string, out: Outside)
      modifies this
      ensures Value() == SendOrLose(old(Value()), pane, text, out)
    {
      if out.canRun {
        var _ := SendAgentPrompt(pane, text, out);
      } else {
        var prompt := Prompt(|accepted|, text);
        accepted := accepted + [(pane, text)];
        Record(pane, prompt, Dropped(NoModel));
      }
    }

    method OnReply(pane: nat, out: Outside)
      modifies this
      ensures Value() == Reply(old(Value()), pane, out)
    {
      var text := Trim(reply);
      if text == [] {
        return;
      }
      if pane in runtimes && runtimes[pane].busy {
        QueueBehind(pane, text);
      } else {
        SendFromDashboard(pane, text, out);
      }
      reply := "";
    }

    method OnDispatch(pane: nat, created: Option<string>, out: Outside)
      modifies this
      ensures Value() == Dispatch(old(Value()), pane, created, out)
    {
      var text := Trim(dispatch);
      if text == [] || !desktop || created.None? {
        return;
      }
      active := pane;
      bound := bound[pane := created.value];
      SyncActiveView();
      SendFromDashboard(pane, text, out);
      dispatch := "";
    }

    method OnStop(pane: nat)
      modifies this`runtimes
      ensures Value() == Stopped(old(Value()), pane)
    {
      runtimes := runtimes[pane := Rt(Value(), pane).(busy := false, pending := None)];
    }

    method OnCmdEnter(text: string, newConversation: string, out: Outside)
      modifies this
      ensures Value() == CmdEnter(old(Value()), text, newConversation, out)
    {
      if Trim(text) == [] {
        return;
      }
      if out.canRun && !(active in bound && bound[active] != "") {
        bound := bound[active := newConversation];
      }
      var _ := SendAgentPrompt(active, text, out);
    }

    method OnDismissQueued()
      modifies this
      ensures Value() == Dismiss(old(Value()))
    {
      var taken := TakeQueued(active);
      if taken.Some? {
        Record(active, taken.value, Dropped(Dismissed));
      }
      mirror := None;
    }

    method OnClearTranscript()
      modifies this
      ensures Value() == Clear(old(Value()))
    {
      var taken := TakeQueued(active);
      if taken.Some? {
        Record(active, taken.value, Dropped(Cleared));
      }
      if active in runtimes {
        runtimes := runtimes[active := runtimes[active].(pending := None)];
      }
      mirror := None;
      SyncActiveView();
    }

    method EndTurnOf(pane: nat)
      modifies this`runtimes
      ensures Value() == EndTurn(old(Value()), pane)
    {
      if pane in runtimes {
        runtimes := runtimes[pane := runtimes[pane].(busy := false)];
      }
    }

    /** The finish arm of the event drain: the slot is taken whatever the pane's
        conversation is, and submitted only when it has one. */
    method OnTurnFinished(found: Option<nat>, out: Outside)
      requires desktop
      modifies this
      ensures Value() == TurnFinished(old(Value()), found, out)
    {
      if found.None? {
        return;
      }
      var chat := ConversationOf(Value(), found.value);
      EndTurnOf(found.value);
      var taken := TakeQueued(found.value);
      if taken.Some? {
        if chat.Some? {
          IssueTurn(found.value, taken.value, chat.value, out.starts);
        } else {
          Record(found.value, taken.value, Dropped(Unattributed));
        }
      }
      SyncActiveView();
    }

    /** The error arm: an error that names no conversation settles no turn. */
    method OnTurnFailed(chat: string, found: Option<nat>)
      requires desktop
      modifies this
      ensures Value() == TurnFailed(old(Value()), chat, found)
    {
      if chat != "" && found.Some? {
        EndTurnOf(found.value);
      }
      SyncActiveView();
    }

    /** The proposal arm: held on the pane, decided at once when the pane's mode says so. */
    method OnProposal(found: Option<nat>, id: string, decided: bool, out: Outside)
      requires desktop
      modifies this
      ensures Value() == Proposed(old(Value()), found, id, decided, out)
    {
      if found.Some? {
        runtimes := runtimes[found.value := Rt(Value(), found.value).(pending := Some(id))];
        if decided && out.resumes {
          runtimes := runtimes[found.value := runtimes[found.value].(busy := true, pending := None)];
        }
      }
      SyncActiveView();
    }

    /** The arms that only see to the pane's runtime. */
    method OnAsked(found: Option<nat>)
      requires desktop
      modifies this
      ensures Value() == Asked(old(Value()), found)
    {
      if found.Some? {
        runtimes := runtimes[found.value := Rt(Value(), found.value)];
      }
      SyncActiveView();
    }

    method OnSpawned(found: Option<nat>, child: string)
      requires desktop
      modifies this
      ensures Value() == Spawned(old(Value()), found, child)
    {
      if found.Some? {
        runtimes := runtimes[found.value := Rt(Value(), found.value)];
        var known := if found.value in agents then agents[found.value] else {};
        agents := agents[found.value := known + {child}];
      }
    }

    method OnBusEvent(e: Event)
      requires desktop && OfBus(e)
      modifies this
      ensures Value() == Bus(old(Value()), e)
    {
      if e.BusFinished? {
        OnTurnFinished(e.found, e.out);
      } else if e.BusFailed? {
        OnTurnFailed(e.chat, e.found);
      } else if e.BusAsked? {
        OnAsked(e.found);
      } else if e.BusProposed? {
        OnProposal(e.found, e.id, e.decided, e.out);
      } else {
        OnSpawned(e.found, e.child);
      }
    }

    /** One frame's events, in order; none is read without a store. Each is about the
        pane its conversation resolves to when its turn comes. */
    method DrainEvents(events: seq<Event>)
      requires forall e :: e in events ==> OfBus(e)
      modifies this
      ensures Value() == if desktop then RunBus(old(Value()), events) else old(Value())
    {
      if !desktop {
        return;
      }
      for i := 0 to |events|
        invariant Value() == RunBus(old(Value()), events[..i])
      {
        assert events[..i + 1][..i] == events[..i];
        OnBusEvent(events[i]);
      }
      assert events[..|events|] == events;
    }
  }

  /** A batch of bus events, one after the other. */
  function RunBus(s: St, events: seq<Event>): St
    requires forall e :: e in events ==> OfBus(e)
  {
    if events == [] then s else Bus(RunBus(s, events[..|events| - 1]), events[|events| - 1])
  }

  /** Each event is about the pane its conversation resolves to when its turn comes. */
  predicate AllPossible(s: St, events: seq<Event>)
    requires forall e :: e in events ==> OfBus(e)
  {
    events == [] ||
    (AllPossible(s, events[..|events| - 1]) && Possible(RunBus(s, events[..|events| - 1]), events[|events| - 1]))
  }

  /** Such a batch is a stretch of a run, so what holds of runs holds of drained frames. */
  lemma {:induction false} BatchIsARun(s: St, events: seq<Event>)
    requires (forall e :: e in events ==> OfBus(e)) && AllPossible(s, events)
    ensures RunBus(s, events) == Run(s, events)
  {
    if events != [] {
      BatchIsARun(s, events[..|events| - 1]);
      NextIsBus(Run(s, events[..|events| - 1]), events[|events| - 1]);
    }
  }

  lemma NextIsBus(s: St, e: Event)
    requires OfBus(e) && Possible(s, e)
    ensures Next(s, e) == Bus(s, e)
  {
  }
}
