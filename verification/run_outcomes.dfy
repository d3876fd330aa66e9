/** What a run returns is decided by its log. */
module RunOutcomes {
  import opened Prelude
  import opened Conversation
  import opened RunEvents
  import opened Runs
  import opened RunProperties

  // ----- Reading a log -----

  /** The tool executions since the last attempt started. */
  function LastExecutions(events: seq<Event>): seq<ToolOutcome> {
    if events == [] then []
    else
      match events[|events| - 1]
      case AgentStart => []
      case ToolEnd(execution) => LastExecutions(events[..|events| - 1]) + [execution]
      case _ => LastExecutions(events[..|events| - 1])
  }

  /** The last assistant message that ended. */
  function LastMessage(events: seq<Event>): Option<AssistantTurn> {
    if events == [] then None
    else if events[|events| - 1].MessageEnd? then Some(events[|events| - 1].turn)
    else LastMessage(events[..|events| - 1])
  }

  /** Does this execution end a typed run, and how? */
  predicate Decides(execution: ToolOutcome) {
    execution.terminate && !execution.details.NoDetails?
  }

  function Decision(execution: ToolOutcome): RunOutcome
    requires Decides(execution)
  {
    match execution.details
    case CompleteDetails(value) => Completed(value)
    case FailDetails(reason) => Failed(AgentFailure(reason))
  }

  predicate FirstDecision(executions: seq<ToolOutcome>, k: int) {
    && 0 <= k < |executions| && Decides(executions[k])
    && forall j :: 0 <= j < k ==> !Decides(executions[j])
  }

  /** The outcome is that of the first deciding execution, and there is none
      exactly when no execution decides. */
  lemma {:induction false} ResultIsFirstDecision(executions: seq<ToolOutcome>)
    ensures var r := ResultOutcome(executions);
            if r.Some? then exists k :: FirstDecision(executions, k) && r.value == Decision(executions[k])
            else forall k :: 0 <= k < |executions| ==> !Decides(executions[k])
  {
    if executions != [] {
      var rest := executions[1..];
      ResultIsFirstDecision(rest);
      if Decides(executions[0]) {
        assert FirstDecision(executions, 0);
      } else {
        assert forall k :: 0 < k < |executions| ==> executions[k] == rest[k - 1];
        if ResultOutcome(rest).Some? {
          var k :| FirstDecision(rest, k) && ResultOutcome(rest).value == Decision(rest[k]);
          assert FirstDecision(executions, k + 1);
        }
      }
    }
  }

  /** The text of a message: its text blocks in order, two newlines between them. */
  function MessageText(blocks: seq<Block>): string {
    JoinTexts(Texts(blocks))
  }

  lemma {:induction false} TextsConcat(a: seq<Block>, b: seq<Block>)
    ensures Texts(a + b) == Texts(a) + Texts(b)
  {
    if a == [] {
      assert a + b == b;
    } else {
      assert (a + b)[1..] == a[1..] + b;
      TextsConcat(a[1..], b);
    }
  }

  lemma {:induction false} JoinTextsConcat(a: seq<string>, b: seq<string>)
    requires a != [] && b != []
    ensures JoinTexts(a + b) == JoinTexts(a) + "\n\n" + JoinTexts(b)
  {
    if |a| == 1 {
      assert (a + b)[1..] == b;
    } else {
      assert (a + b)[1..] == a[1..] + b;
      JoinTextsConcat(a[1..], b);
    }
  }

  /** Putting a text block at the end of a message adds exactly its text, and
      putting any other block there adds nothing. */
  lemma MessageTextAppend(blocks: seq<Block>, block: Block)
    ensures Texts([]) == [] && MessageText([]) == ""
    ensures MessageText(blocks + [block])
         == if !block.TextBlock? then MessageText(blocks)
            else if Texts(blocks) == [] then block.text
            else MessageText(blocks) + "\n\n" + block.text
  {
    hide Texts, JoinTexts;
    TextsConcat(blocks, [block]);
    TextsOfOne(block);
    if block.TextBlock? {
      assert [] + [block.text] == [block.text];
      if Texts(blocks) != [] {
        JoinTextsConcat(Texts(blocks), [block.text]);
      }
    } else {
      assert Texts(blocks) + [] == Texts(blocks);
    }
  }

  lemma TextsOfOne(block: Block)
    ensures Texts([]) == [] && JoinTexts([]) == ""
    ensures Texts([block]) == if block.TextBlock? then [block.text] else []
    ensures block.TextBlock? ==> JoinTexts([block.text]) == block.text
  {
    assert Texts([block]) == (if block.TextBlock? then [block.text] else []) + Texts([]);
  }

  // ----- The invariant -----

  /** The log of an attempt in progress. */
  predicate AttemptLog(run: Run, executions: seq<ToolOutcome>) {
    && run.frame.attempt <= MAX_RESULT_FOLLOW_UPS
    && CountStarts(run.events) == run.frame.attempt + 1
    && LastExecutions(run.events) == executions
  }

  /** A plain run returns the text of its last message. A typed run returns the
      first decision of its last attempt, or gives up after nine attempts. */
  predicate Justified(run: Run, outcome: RunOutcome) {
    if !run.typed then
      var message := LastMessage(run.events);
      message.Some? && outcome == Completed(MessageText(message.value.blocks))
    else
      var decided := ResultOutcome(LastExecutions(run.events));
      if decided.Some? then outcome == decided.value
      else outcome == Failed(AgentFailure(NO_RESULT_REASON)) && CountStarts(run.events) == 9
  }

  /** A run is only tried again if it needs a result and its last attempt decided none. */
  predicate Undecided(run: Run) {
    run.typed && ResultOutcome(LastExecutions(run.events)) == None
  }

  predicate OutcomeInv(run: Run) {
    match run.frame.point
    case AtAttempt =>
      && run.frame.attempt <= MAX_RESULT_FOLLOW_UPS && CountStarts(run.events) == run.frame.attempt
      && (run.frame.attempt > 0 ==> Undecided(run))
    case AtOpen => AttemptLog(run, run.frame.executions)
    case AtNext => AttemptLog(run, run.frame.executions)
    case AtTool(turn, outcomes) =>
      AttemptLog(run, run.frame.executions + outcomes) && LastMessage(run.events) == Some(turn)
    case AtClose(Conclude(turn, outcomes)) =>
      AttemptLog(run, run.frame.executions + outcomes) && LastMessage(run.events) == Some(turn)
    case AtClose(_) => true
    case Done(Returned(outcome)) => Justified(run, outcome)
    case Done(_) => true
  }

  lemma EmitOutcome(run: Run, event: Event)
    ensures var before, after := run.events, Emit(run, event).events;
            && CountStarts(after) == CountStarts(before) + (if event == AgentStart then 1 else 0)
            && LastMessage(after) == (if event.MessageEnd? then Some(event.turn) else LastMessage(before))
            && LastExecutions(after)
               == (if event == AgentStart then []
                   else if event.ToolEnd? then LastExecutions(before) + [event.execution]
                   else LastExecutions(before))
            && Emit(run, event).frame == run.frame && Emit(run, event).typed == run.typed
  {
    assert (run.events + [event])[..|run.events|] == run.events;
  }

  lemma AcceptedOutcome(committed: seq<Item>, prompt: string, typed: bool)
    ensures OutcomeInv(Accepted(committed, prompt, typed))
  {
    assert [] + [RunStart] == [RunStart];
    CountAppend([], RunStart);
  }

  lemma NextToolOutcome(run: Run, turn: AssistantTurn, outcomes: seq<ToolOutcome>)
    requires AttemptLog(run, run.frame.executions + outcomes) && LastMessage(run.events) == Some(turn)
    ensures OutcomeInv(NextTool(run, turn, outcomes))
  {
    hide CountStarts, LastExecutions, LastMessage, ToolCalls;
    var calls := ToolCalls(turn.blocks);
    if |outcomes| < |calls| {
      EmitOutcome(run, ToolStart(calls[|outcomes|]));
    } else {
      EmitOutcome(run, TurnEnd(turn, outcomes));
    }
  }

  lemma StreamOutcome(run: Run, event: StreamEvent)
    requires OutcomeInv(run) && run.frame.point == AtNext
    ensures OutcomeInv(HandleStreamEvent(run, event))
  {
    hide CountStarts, LastExecutions, LastMessage, ToolCalls;
    match event
    case StreamStart(responseId) =>
      EmitOutcome(run, TurnStart);
      EmitOutcome(Emit(run, TurnStart), MessageStart(responseId));
    case StreamUpdate(update) =>
      EmitOutcome(run, MessageUpdate(update));
    case StreamDone(blocks) =>
      var turn := AssistantTurn(blocks, TurnCompleted);
      EmitOutcome(run, MessageEnd(turn));
      assert run.frame.executions + [] == run.frame.executions;
      NextToolOutcome(Emit(run, MessageEnd(turn)), turn, []);
    case StreamError(blocks, status, message) =>
  }

  lemma ToolOutcomeRecorded(run: Run, r: Response)
    requires OutcomeInv(run) && Enabled(run, r) && r.ToolDone?
    ensures OutcomeInv(Resume(run, r))
  {
    hide CountStarts, LastExecutions, LastMessage;
    var turn, outcomes := run.frame.point.turn, run.frame.point.outcomes;
    var call := ToolCalls(turn.blocks)[|outcomes|];
    var outcome := ToolOutcome(ToolResult(call.callId, call.name, r.content, r.isError), r.details, r.terminate);
    EmitOutcome(run, ToolEnd(outcome));
    Associate(run.frame.executions, outcomes, [outcome]);
    NextToolOutcome(Emit(run, ToolEnd(outcome)), turn, outcomes + [outcome]);
  }

  lemma AttemptEndOutcome(run: Run, turn: AssistantTurn)
    requires AttemptLog(run, run.frame.executions) && LastMessage(run.events) == Some(turn)
    ensures OutcomeInv(EndAttempt(run, turn))
  {
    hide CountStarts, LastExecutions, LastMessage, ResultOutcome, JoinTexts, Texts;
    EmitOutcome(run, AgentEnd);
    EmitOutcome(Emit(run, AgentEnd), ResultFollowUp(RESULT_FOLLOW_UP));
  }

  /** Whatever the environment answers, what the run returns in the end is what
      its log says. */
  lemma ResumeOutcome(run: Run, r: Response)
    requires OutcomeInv(run) && Enabled(run, r)
    ensures OutcomeInv(Resume(run, r))
  {
    hide CountStarts, LastExecutions, LastMessage, ToolCalls;
    match r
    case Go => EmitOutcome(run, AgentStart);
    case Next(event) => StreamOutcome(run, event);
    case ToolDone(_, _, _, _) => ToolOutcomeRecorded(run, r);
    case StreamClosed =>
      if run.frame.point.then_.Conclude? && !ShouldContinue(run.frame.point.then_.outcomes) {
        var turn, outcomes := run.frame.point.then_.turn, run.frame.point.then_.outcomes;
        var frame := run.frame.(runHistory := run.frame.runHistory + TurnItems(turn, outcomes),
                                executions := run.frame.executions + outcomes);
        AttemptEndOutcome(run.(frame := frame), turn);
      }
    case _ =>
  }

  /** A run is recorded as aborted exactly when its task was cancelled. */
  lemma AbortedMeansCancelled(run: Run)
    requires OutcomeInv(run) && run.frame.point.Done?
    ensures TerminalOutcome(run.frame.point.exit) == Aborted <==> run.frame.point.exit == Cancelled
  {
    ResultIsFirstDecision(LastExecutions(run.events));
  }
}
