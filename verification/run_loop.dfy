/** When the agent goes on: the loop over turns, as its log shows it. */
module RunLoop {
  import opened Prelude
  import opened Conversation
  import opened RunEvents
  import opened Runs

  // ----- Reading a log -----

  /** The executions of the last turn that ended in the attempt in progress, or
      in the last attempt if none is. */
  function LastTurnEnd(events: seq<Event>): Option<seq<ToolOutcome>> {
    if events == [] then None
    else
      match events[|events| - 1]
      case AgentStart => None
      case TurnEnd(_, executions) => Some(executions)
      case _ => LastTurnEnd(events[..|events| - 1])
  }

  predicate SomeTerminates(executions: seq<ToolOutcome>) {
    exists k :: 0 <= k < |executions| && executions[k].terminate
  }

  /** After such a turn the provider is asked again. */
  predicate GoesOn(executions: seq<ToolOutcome>) {
    executions != [] && !SomeTerminates(executions)
  }

  predicate MayAsk(events: seq<Event>) {
    LastTurnEnd(events).Some? ==> GoesOn(LastTurnEnd(events).value)
  }

  predicate MayStop(events: seq<Event>) {
    LastTurnEnd(events).Some? && !GoesOn(LastTurnEnd(events).value)
  }

  /** A turn starts only first in its attempt or after a turn that asked for more;
      an attempt ends, and a reminder follows, only after one that did not. */
  predicate StepAllowed(events: seq<Event>, event: Event) {
    && (event.TurnStart? ==> MayAsk(events))
    && (event.AgentEnd? || event.ResultFollowUp? ==> MayStop(events))
  }

  predicate LoopLog(events: seq<Event>) {
    forall i :: 0 <= i < |events| ==> StepAllowed(events[..i], events[i])
  }

  // ----- The invariant -----

  predicate LoopInv(run: Run) {
    LoopLog(run.events) &&
    match run.frame.point
    case AtAttempt => run.frame.attempt > 0 ==> MayStop(run.events)
    case AtOpen => MayAsk(run.events)
    case AtNext => MayAsk(run.events)
    case AtTool(_, _) => true
    case AtClose(Conclude(_, outcomes)) => LastTurnEnd(run.events) == Some(outcomes)
    case AtClose(_) => true
    case Done(Returned(_)) => MayStop(run.events)
    case Done(_) => true
  }

  lemma EmitLoop(run: Run, event: Event)
    requires LoopLog(run.events) && StepAllowed(run.events, event)
    ensures var after := Emit(run, event);
            && LoopLog(after.events) && after.frame == run.frame && after.typed == run.typed
            && LastTurnEnd(after.events)
               == (if event == AgentStart then None
                   else if event.TurnEnd? then Some(event.executions)
                   else LastTurnEnd(run.events))
  {
    var after := Emit(run, event).events;
    assert after[..|run.events|] == run.events;
    forall i | 0 <= i < |after|
      ensures StepAllowed(after[..i], after[i])
    {
      assert i < |run.events| ==> after[..i] == run.events[..i];
    }
  }

  lemma AcceptedLoop(committed: seq<Item>, prompt: string, typed: bool)
    ensures LoopInv(Accepted(committed, prompt, typed))
  {
    EmitLoop(Run(typed, committed, [], StartHistory(committed, prompt), false, false, None, [],
                 Frame(AtAttempt, 0, [], [])),
             RunStart);
  }

  lemma NextToolLoop(run: Run, turn: AssistantTurn, outcomes: seq<ToolOutcome>)
    requires LoopLog(run.events)
    ensures LoopInv(NextTool(run, turn, outcomes))
  {
    hide LoopLog, LastTurnEnd, ToolCalls;
    if |outcomes| < |ToolCalls(turn.blocks)| {
      EmitLoop(run, ToolStart(ToolCalls(turn.blocks)[|outcomes|]));
    } else {
      EmitLoop(run, TurnEnd(turn, outcomes));
    }
  }

  lemma StreamLoop(run: Run, event: StreamEvent)
    requires LoopInv(run) && run.frame.point == AtNext
    ensures LoopInv(HandleStreamEvent(run, event))
  {
    hide LoopLog, LastTurnEnd, ToolCalls;
    match event
    case StreamStart(responseId) =>
      EmitLoop(run, TurnStart);
      EmitLoop(Emit(run, TurnStart), MessageStart(responseId));
    case StreamUpdate(update) =>
      EmitLoop(run, MessageUpdate(update));
    case StreamDone(blocks) =>
      var turn := AssistantTurn(blocks, TurnCompleted);
      EmitLoop(run, MessageEnd(turn));
      NextToolLoop(Emit(run, MessageEnd(turn)), turn, []);
    case StreamError(blocks, status, message) =>
      EmitLoop(run, MessageEnd(AssistantTurn(blocks, if status == TurnAborted then TurnAborted else TurnError)));
  }

  lemma ToolLoop(run: Run, r: Response)
    requires LoopInv(run) && Enabled(run, r) && r.ToolDone?
    ensures LoopInv(Resume(run, r))
  {
    hide LoopLog, LastTurnEnd;
    var turn, outcomes := run.frame.point.turn, run.frame.point.outcomes;
    var call := ToolCalls(turn.blocks)[|outcomes|];
    var outcome := ToolOutcome(ToolResult(call.callId, call.name, r.content, r.isError), r.details, r.terminate);
    EmitLoop(run, ToolEnd(outcome));
    NextToolLoop(Emit(run, ToolEnd(outcome)), turn, outcomes + [outcome]);
  }

  lemma AttemptEndLoop(run: Run, turn: AssistantTurn)
    requires LoopLog(run.events) && MayStop(run.events)
    ensures LoopInv(EndAttempt(run, turn)) && EndAttempt(run, turn).frame.point != AtOpen
  {
    hide LoopLog, LastTurnEnd, ResultOutcome, JoinTexts, Texts;
    EmitLoop(run, AgentEnd);
    EmitLoop(Emit(run, AgentEnd), ResultFollowUp(RESULT_FOLLOW_UP));
  }

  /** The step that decides, once the stream of a finished turn is closed: the
      provider is called again, on the history with the turn and its results, if
      and only if some tool ran and none of them terminates. */
  lemma GoesOnExactly(run: Run, turn: AssistantTurn, outcomes: seq<ToolOutcome>)
    requires LoopInv(run) && run.frame.point == AtClose(Conclude(turn, outcomes))
    ensures var next := Resume(run, StreamClosed);
            && LoopInv(next)
            && (next.frame.point == AtOpen <==> GoesOn(outcomes))
            && (next.events == run.events <==> GoesOn(outcomes))
            && (next.frame.point.Done? || next.frame.point == AtAttempt <==> !GoesOn(outcomes))
            && (GoesOn(outcomes) ==> next.frame.runHistory == run.frame.runHistory + TurnItems(turn, outcomes))
  {
    hide LoopLog, LastTurnEnd, ResultOutcome, JoinTexts, Texts;
    assert ShouldContinue(outcomes) <==> GoesOn(outcomes);
    if !GoesOn(outcomes) {
      var frame := run.frame.(runHistory := run.frame.runHistory + TurnItems(turn, outcomes),
                              executions := run.frame.executions + outcomes);
      AttemptEndLoop(run.(frame := frame), turn);
      AttemptEndGrows(run.(frame := frame), turn);
    }
  }

  lemma AttemptEndGrows(run: Run, turn: AssistantTurn)
    ensures |EndAttempt(run, turn).events| > |run.events|
    ensures EndAttempt(run, turn).frame.point.Done? || EndAttempt(run, turn).frame.point == AtAttempt
  {
    hide ResultOutcome, JoinTexts, Texts, Observed;
  }

  /** Every step keeps the log a log of the loop. */
  lemma ResumeLoop(run: Run, r: Response)
    requires LoopInv(run) && Enabled(run, r)
    ensures LoopInv(Resume(run, r))
  {
    hide LoopLog, LastTurnEnd, ToolCalls;
    match r
    case Go => EmitLoop(run, AgentStart);
    case Next(event) => StreamLoop(run, event);
    case ToolDone(_, _, _, _) => ToolLoop(run, r);
    case StreamClosed =>
      if run.frame.point.then_.Conclude? {
        GoesOnExactly(run, run.frame.point.then_.turn, run.frame.point.then_.outcomes);
      }
    case _ =>
  }

  lemma CloseLoop(run: Run, result: RunResult)
    requires LoopLog(run.events)
    ensures LoopLog(CloseRun(run, result).events)
  {
    hide LoopLog, LastTurnEnd;
    EmitLoop(run.(result := Some(result)), TerminalEvent(result));
  }
}
