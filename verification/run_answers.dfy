/** What a run records and returns, in terms of what it was answered. */
module RunAnswers {
  import opened Prelude
  import opened Conversation
  import opened RunEvents
  import opened Runs
  import opened RunProperties

  // ----- A run and its answers -----

  predicate Drives(first: Run, answers: seq<Response>)
    decreases |answers|, 0
  {
    answers == [] ||
    (Drives(first, answers[..|answers| - 1])
     && Enabled(After(first, answers[..|answers| - 1]), answers[|answers| - 1]))
  }

  /** The run after these answers. */
  function After(first: Run, answers: seq<Response>): Run
    requires Drives(first, answers)
    decreases |answers|, 1
  {
    if answers == [] then first
    else Resume(After(first, answers[..|answers| - 1]), answers[|answers| - 1])
  }

  // ----- What tools returned -----

  function ToolAnswers(answers: seq<Response>): seq<Response> {
    if answers == [] then []
    else
      var last := answers[|answers| - 1];
      ToolAnswers(answers[..|answers| - 1]) + if last.ToolDone? then [last] else []
  }

  /** All executions that the log shows. */
  function Executed(events: seq<Event>): seq<ToolOutcome> {
    if events == [] then []
    else
      var last := events[|events| - 1];
      Executed(events[..|events| - 1]) + if last.ToolEnd? then [last.execution] else []
  }

  predicate Records(execution: ToolOutcome, answer: Response) {
    && answer.ToolDone?
    && execution.result.content == answer.content && execution.result.isError == answer.isError
    && execution.details == answer.details && execution.terminate == answer.terminate
  }

  predicate RecordsAll(executions: seq<ToolOutcome>, answers: seq<Response>) {
    |executions| == |answers| && forall k :: 0 <= k < |answers| ==> Records(executions[k], answers[k])
  }

  // ----- What providers sent -----

  predicate FromProvider(event: Event) {
    event.MessageStart? || event.MessageUpdate? || event.MessageEnd?
  }

  /** The messages that the log shows, piece by piece. */
  function Messages(events: seq<Event>): seq<Event> {
    if events == [] then []
    else
      var last := events[|events| - 1];
      Messages(events[..|events| - 1]) + if FromProvider(last) then [last] else []
  }

  function MessageOf(answer: Response): seq<Event> {
    match answer
    case Next(StreamStart(responseId)) => [MessageStart(responseId)]
    case Next(StreamUpdate(update)) => [MessageUpdate(update)]
    case Next(StreamDone(blocks)) => [MessageEnd(AssistantTurn(blocks, TurnCompleted))]
    case Next(StreamError(blocks, TurnAborted, _)) => [MessageEnd(AssistantTurn(blocks, TurnAborted))]
    case Next(StreamError(blocks, _, _)) => [MessageEnd(AssistantTurn(blocks, TurnError))]
    case _ => []
  }

  function MessageAnswers(answers: seq<Response>): seq<Event> {
    if answers == [] then []
    else MessageAnswers(answers[..|answers| - 1]) + MessageOf(answers[|answers| - 1])
  }

  // ----- What ends a run -----

  /** The outcome that the last answer, closing the stream aside, forces; None
      when it forces none, and the run goes on or returns. */
  function Cause(answers: seq<Response>): Option<RunOutcome> {
    if answers == [] then None
    else
      match answers[|answers| - 1]
      case StreamClosed => Cause(answers[..|answers| - 1])
      case Cancel => Some(Aborted)
      case Raise(TurnFailed(message)) => Some(Failed(TurnFailure(message)))
      case Raise(OtherError(message)) => Some(Failed(ExecutionFailure(message)))
      case Next(StreamError(_, _, message)) => Some(Failed(TurnFailure(message)))
      case StreamEnd => Some(Failed(ExecutionFailure("Provider stream ended without a terminal event.")))
      case _ => None
  }

  /** How the point of suspension shows the cause. */
  predicate CauseInv(point: Point, cause: Option<RunOutcome>) {
    match point
    case AtClose(Reraise(error)) => cause == Some(TerminalOutcome(Raised(error)))
    case AtClose(Unwind) => cause == Some(Aborted)
    case Done(Returned(_)) => cause == None
    case Done(exit) => cause == Some(TerminalOutcome(exit))
    case _ => cause == None
  }

  // ----- One step -----

  lemma EmitShown(run: Run, event: Event)
    ensures var after := Emit(run, event);
            && Executed(after.events) == Executed(run.events) + (if event.ToolEnd? then [event.execution] else [])
            && Messages(after.events) == Messages(run.events) + (if FromProvider(event) then [event] else [])
            && after.frame == run.frame
  {
    assert (run.events + [event])[..|run.events|] == run.events;
  }

  predicate SameShown(before: Run, after: Run) {
    Executed(after.events) == Executed(before.events) && Messages(after.events) == Messages(before.events)
  }

  lemma EmitOther(run: Run, event: Event)
    requires !event.ToolEnd? && !FromProvider(event)
    ensures SameShown(run, Emit(run, event))
  {
    EmitShown(run, event);
    assert Executed(run.events) + [] == Executed(run.events) && Messages(run.events) + [] == Messages(run.events);
  }

  lemma NextToolShown(run: Run, turn: AssistantTurn, outcomes: seq<ToolOutcome>)
    ensures SameShown(run, NextTool(run, turn, outcomes))
  {
    hide Executed, Messages, ToolCalls;
    if |outcomes| < |ToolCalls(turn.blocks)| {
      EmitOther(run, ToolStart(ToolCalls(turn.blocks)[|outcomes|]));
    } else {
      EmitOther(run, TurnEnd(turn, outcomes));
    }
  }

  /** A piece of a message is shown once, as the provider sent it. */
  lemma StreamShown(run: Run, event: StreamEvent)
    ensures var after := HandleStreamEvent(run, event);
            && Executed(after.events) == Executed(run.events)
            && Messages(after.events) == Messages(run.events) + MessageOf(Next(event))
  {
    hide Executed, Messages, ToolCalls;
    assert Executed(run.events) + [] == Executed(run.events);
    match event
    case StreamStart(responseId) =>
      EmitOther(run, TurnStart);
      EmitShown(Emit(run, TurnStart), MessageStart(responseId));
    case StreamUpdate(update) =>
      EmitShown(run, MessageUpdate(update));
    case StreamDone(blocks) =>
      var turn := AssistantTurn(blocks, TurnCompleted);
      EmitShown(run, MessageEnd(turn));
      NextToolShown(Emit(run, MessageEnd(turn)), turn, []);
    case StreamError(blocks, status, message) =>
      EmitShown(run, MessageEnd(AssistantTurn(blocks, if status == TurnAborted then TurnAborted else TurnError)));
  }

  lemma EndShown(run: Run, turn: AssistantTurn)
    ensures SameShown(run, EndAttempt(run, turn))
  {
    hide Executed, Messages, ResultOutcome, JoinTexts, Texts;
    EmitOther(run, AgentEnd);
    EmitOther(Emit(run, AgentEnd), ResultFollowUp(RESULT_FOLLOW_UP));
  }

  /** A tool's answer is recorded once, as the result of the call that was
      pending, in the log and in both histories. */
  lemma ToolAnswerIsRecorded(run: Run, r: Response)
    requires Enabled(run, r) && r.ToolDone?
    ensures var call := ToolCalls(run.frame.point.turn.blocks)[|run.frame.point.outcomes|];
            var result := ToolResult(call.callId, call.name, r.content, r.isError);
            var outcome := ToolOutcome(result, r.details, r.terminate);
            && Executed(Resume(run, r).events) == Executed(run.events) + [outcome]
            && Messages(Resume(run, r).events) == Messages(run.events)
            && Records(outcome, r)
            && Resume(run, r).history == Append(run.history, [ToolResultTurn(outcome.result)])
  {
    hide Executed, Messages;
    var turn, outcomes := run.frame.point.turn, run.frame.point.outcomes;
    var call := ToolCalls(turn.blocks)[|outcomes|];
    var outcome := ToolOutcome(ToolResult(call.callId, call.name, r.content, r.isError), r.details, r.terminate);
    EmitShown(run, ToolEnd(outcome));
    assert Messages(run.events) + [] == Messages(run.events);
    NextToolShown(Emit(run, ToolEnd(outcome)), turn, outcomes + [outcome]);
  }

  lemma OtherAnswers(run: Run, r: Response)
    requires Enabled(run, r) && !r.ToolDone?
    ensures Executed(Resume(run, r).events) == Executed(run.events)
    ensures Messages(Resume(run, r).events) == Messages(run.events) + MessageOf(r)
  {
    hide Executed, Messages, ToolCalls;
    assert Messages(run.events) + [] == Messages(run.events);
    match r
    case Go => EmitOther(run, AgentStart);
    case Next(event) => StreamShown(run, event);
    case StreamClosed =>
      if run.frame.point.then_.Conclude? && !ShouldContinue(run.frame.point.then_.outcomes) {
        var turn, outcomes := run.frame.point.then_.turn, run.frame.point.then_.outcomes;
        var frame := run.frame.(runHistory := run.frame.runHistory + TurnItems(turn, outcomes),
                                executions := run.frame.executions + outcomes);
        EndShown(run.(frame := frame), turn);
      }
    case _ =>
  }

  /** Where the next step stands, as far as causes go. */
  lemma ResumeCause(run: Run, answers: seq<Response>, r: Response)
    requires Enabled(run, r) && CauseInv(run.frame.point, Cause(answers))
    ensures CauseInv(Resume(run, r).frame.point, Cause(answers + [r]))
  {
    hide ToolCalls, ResultOutcome, JoinTexts, Texts, Observed;
    assert (answers + [r])[..|answers|] == answers;
  }

  // ----- All steps -----

  lemma {:induction false} AnswersAreRecorded(first: Run, answers: seq<Response>)
    requires Drives(first, answers) && Executed(first.events) == [] && Messages(first.events) == []
    ensures RecordsAll(Executed(After(first, answers).events), ToolAnswers(answers))
    ensures Messages(After(first, answers).events) == MessageAnswers(answers)
  {
    if answers != [] {
      var front, r := answers[..|answers| - 1], answers[|answers| - 1];
      AnswersAreRecorded(first, front);
      if r.ToolDone? {
        ToolAnswerIsRecorded(After(first, front), r);
        assert MessageAnswers(front) + [] == MessageAnswers(front);
      } else {
        OtherAnswers(After(first, front), r);
      }
    }
  }

  lemma {:induction false} CausesAreKept(first: Run, answers: seq<Response>)
    requires Drives(first, answers) && first.frame.point == AtAttempt
    ensures CauseInv(After(first, answers).frame.point, Cause(answers))
  {
    if answers != [] {
      var front, r := answers[..|answers| - 1], answers[|answers| - 1];
      CausesAreKept(first, front);
      ResumeCause(After(first, front), front, r);
      assert front + [r] == answers;
    }
  }

  /** An accepted run under any answers: its log shows exactly what its providers
      sent and its tools returned, in order. When it is done, it was cancelled, failed, or returned
      exactly as the last answer (closing the stream aside) says: a cancellation
      gives "aborted", an error or a failed turn gives that failure, and only
      otherwise does it return. */
  lemma RunFollowsItsAnswers(committed: seq<Item>, prompt: string, typed: bool, answers: seq<Response>)
    requires Drives(Accepted(committed, prompt, typed), answers)
    ensures var run := After(Accepted(committed, prompt, typed), answers);
            && Messages(run.events) == MessageAnswers(answers)
            && RecordsAll(Executed(run.events), ToolAnswers(answers))
            && (run.frame.point.Done?
                ==> var exit := run.frame.point.exit;
                    && (exit.Returned? <==> Cause(answers) == None)
                    && (exit == Cancelled <==> Cause(answers) == Some(Aborted))
                    && (Cause(answers).Some? ==> TerminalOutcome(exit) == Cause(answers).value))
  {
    var first := Accepted(committed, prompt, typed);
    assert first.events == [RunStart] && Executed([RunStart]) == Executed([]) + [];
    assert Messages([RunStart]) == Messages([]) + [];
    AnswersAreRecorded(first, answers);
    CausesAreKept(first, answers);
  }
}
