/** Run events, the two run-local histories, and the grammar of a run log. */
module RunEvents {
  import opened Prelude
  import opened Conversation

  datatype Event =
    | RunStart
    | RunEnd(outcome: RunOutcome)
    | RunFault(message: string)
    | AgentStart
    | AgentEnd
    | ResultFollowUp(message: string)
    | TurnStart
    | TurnEnd(turn: AssistantTurn, executions: seq<ToolOutcome>)
    | MessageStart(responseId: string)
    | MessageUpdate(update: string)
    | MessageEnd(turn: AssistantTurn)
    | ToolStart(call: ToolCall)
    | ToolEnd(execution: ToolOutcome)

  // ----- Histories -----

  /** What the provider sees, and what this run will commit. */
  datatype History = History(working: seq<Item>, delta: seq<Item>)

  function StartHistory(committed: seq<Item>, prompt: string): History {
    History(committed + [UserMessage(prompt)], [UserMessage(prompt)])
  }

  /** The item an event carries into the histories. */
  function ItemFor(event: Event): Option<Item> {
    match event
    case MessageEnd(turn) => if turn.status == TurnCompleted then Some(Assistant(turn)) else None
    case ToolEnd(execution) => Some(ToolResultTurn(execution.result))
    case ResultFollowUp(message) => Some(UserMessage(message))
    case _ => None
  }

  function Append(h: History, items: seq<Item>): History {
    History(h.working + items, h.delta + items)
  }

  function Observed(h: History, event: Event): History {
    match ItemFor(event)
    case None => h
    case Some(item) => Append(h, [item])
  }

  function HealedHistory(h: History): History {
    Append(h, HealingResults(h.delta))
  }

  /** The run-local buffers, updated in place by every event. */
  class RunHistory {
    var working: seq<Item>
    var delta: seq<Item>

    ghost function View(): History
      reads this
    {
      History(working, delta)
    }

    constructor Start(committed: seq<Item>, prompt: string)
      ensures View() == StartHistory(committed, prompt)
    {
      delta := [UserMessage(prompt)];
      working := committed + [UserMessage(prompt)];
    }

    method Observe(event: Event)
      modifies this
      ensures View() == Observed(old(View()), event)
    {
      var item := ItemFor(event);
      if item.None? {
        return;
      }
      delta := delta + [item.value];
      working := working + [item.value];
    }

    method Heal()
      modifies this
      ensures View() == HealedHistory(old(View()))
    {
      var calls := UnansweredCalls(delta, AnsweredIds(delta));
      var results: seq<Item> := [];
      for i := 0 to |calls|
        invariant results == ErrorResults(calls[..i])
        invariant delta == old(delta) && working == old(working)
      {
        results := results + [ErrorResult(calls[i])];
        assert calls[..i + 1] == calls[..i] + [calls[i]];
      }
      assert calls[..|calls|] == calls;
      delta := delta + results;
      working := working + results;
    }
  }

  // ----- The grammar of a run log -----

  /** Where a log stands: run > attempt > turn > message, then tool executions. */
  datatype Phase =
    | NotBegun
    | BetweenAttempts
    | InAttempt(hasTurn: bool)
    | InTurn
    | InMessage
    | AfterMessage(turn: AssistantTurn, executed: nat)
    | InTool(turn: AssistantTurn, executed: nat)
    | AfterFailedTurn
    | AfterAttempt
    | Closed
    | Wrong

  predicate Begun(phase: Phase) {
    phase != NotBegun && phase != Closed && phase != Wrong
  }

  function NextPhase(phase: Phase, event: Event): Phase {
    match event
    case RunStart => if phase == NotBegun then BetweenAttempts else Wrong
    case RunEnd(_) => if Begun(phase) then Closed else Wrong
    case RunFault(_) => if Begun(phase) then Closed else Wrong
    case AgentStart => if phase == BetweenAttempts then InAttempt(false) else Wrong
    case AgentEnd => if phase == InAttempt(true) then AfterAttempt else Wrong
    case ResultFollowUp(_) => if phase == AfterAttempt then BetweenAttempts else Wrong
    case TurnStart => if phase.InAttempt? then InTurn else Wrong
    case MessageStart(_) => if phase == InTurn then InMessage else Wrong
    case MessageUpdate(_) => if phase == InMessage then InMessage else Wrong
    case MessageEnd(turn) =>
      if phase != InMessage then Wrong
      else if turn.status == TurnCompleted then AfterMessage(turn, 0)
      else AfterFailedTurn
    case ToolStart(call) =>
      if phase.AfterMessage? && phase.executed < |ToolCalls(phase.turn.blocks)|
         && call == ToolCalls(phase.turn.blocks)[phase.executed]
      then InTool(phase.turn, phase.executed)
      else Wrong
    case ToolEnd(execution) =>
      if phase.InTool? && phase.executed < |ToolCalls(phase.turn.blocks)|
         && Answers(ToolResultTurn(execution.result), ToolCalls(phase.turn.blocks)[phase.executed])
      then AfterMessage(phase.turn, phase.executed + 1)
      else Wrong
    case TurnEnd(turn, executions) =>
      if phase == AfterMessage(turn, |ToolCalls(turn.blocks)|) && |executions| == |ToolCalls(turn.blocks)|
      then InAttempt(true)
      else Wrong
  }

  function PhaseOf(events: seq<Event>): Phase {
    if events == [] then NotBegun
    else NextPhase(PhaseOf(events[..|events| - 1]), events[|events| - 1])
  }

  predicate IsTerminal(event: Event) {
    event.RunEnd? || event.RunFault?
  }

  /** A closed log ends with its one terminal event, after a run start. */
  lemma {:induction false} ClosedLog(events: seq<Event>)
    requires PhaseOf(events) != Wrong && events != []
    ensures events[0] == RunStart
    ensures PhaseOf(events) == Closed <==> IsTerminal(events[|events| - 1])
    ensures forall i :: 0 <= i < |events| - 1 ==> !IsTerminal(events[i])
    ensures forall i :: 0 < i < |events| ==> events[i] != RunStart
  {
    var front := events[..|events| - 1];
    if front != [] {
      ClosedLog(front);
    }
  }
}
