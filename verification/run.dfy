/** One run as a step system: its task is suspended at an await, the environment
    answers, and the code up to the next await runs without interruption. */
module Runs {
  import opened Prelude
  import opened Conversation
  import opened RunEvents

  const MAX_RESULT_FOLLOW_UPS: nat := 8
  const RESULT_FOLLOW_UP := "You ended your turn without a result call."
  const NO_RESULT_REASON := "The model ended the run without a result call."

  // ----- State -----

  /** What a provider stream yields. */
  datatype StreamEvent =
    | StreamStart(responseId: string)
    | StreamUpdate(update: string)
    | StreamDone(blocks: seq<Block>)
    | StreamError(blocks: seq<Block>, status: TurnStatus, message: string)

  datatype RunError = TurnFailed(message: string) | OtherError(message: string)

  /** How the task ends. */
  datatype Exit = Returned(outcome: RunOutcome) | Raised(error: RunError) | Cancelled

  /** What happens once the provider stream is closed. */
  datatype Continuation =
    | Conclude(turn: AssistantTurn, outcomes: seq<ToolOutcome>)
    | Reraise(error: RunError)
    | Unwind

  /** Where the task is suspended. */
  datatype Point =
    | AtAttempt
    | AtOpen
    | AtNext
    | AtTool(turn: AssistantTurn, outcomes: seq<ToolOutcome>)
    | AtClose(then_: Continuation)
    | Done(exit: Exit)

  /** The locals of the suspended calls: the attempt number, and the agent's own
      history and tool executions of this attempt. */
  datatype Frame = Frame(point: Point, attempt: nat, runHistory: seq<Item>, executions: seq<ToolOutcome>)

  /** One consumer of the event stream, with what it was given so far. */
  datatype Subscriber =
    | Ready(yielded: seq<Event>)
    | AtYield(yielded: seq<Event>)
    | Blocked(yielded: seq<Event>)
    | Finished(yielded: seq<Event>)

  datatype Run = Run(
    typed: bool,
    committed: seq<Item>,
    events: seq<Event>,
    history: History,
    changed: bool,
    finalized: bool,
    result: Option<RunResult>,
    subscribers: seq<Subscriber>,
    frame: Frame)

  // ----- Emitting -----

  /** Setting the shared event resumes everyone who waits for it. */
  function Wake(subscribers: seq<Subscriber>): (r: seq<Subscriber>)
    ensures |r| == |subscribers|
  {
    seq(|subscribers|, i requires 0 <= i < |subscribers| =>
      if subscribers[i].Blocked? then Ready(subscribers[i].yielded) else subscribers[i])
  }

  function SetChanged(run: Run): Run {
    if run.changed then run else run.(changed := true, subscribers := Wake(run.subscribers))
  }

  function Emit(run: Run, event: Event): Run {
    SetChanged(run.(history := Observed(run.history, event), events := run.events + [event]))
  }

  function Accepted(committed: seq<Item>, prompt: string, typed: bool): Run {
    Emit(Run(typed, committed, [], StartHistory(committed, prompt), false, false, None, [],
             Frame(AtAttempt, 0, [], [])),
         RunStart)
  }

  // ----- The task -----

  /** What the environment answers at an await; Cancel is a cancellation there. */
  datatype Response =
    | Go
    | Opened
    | Next(event: StreamEvent)
    | StreamEnd
    | ToolDone(content: string, isError: bool, details: Details, terminate: bool)
    | StreamClosed
    | Raise(error: RunError)
    | Cancel

  /** Between attempts there is no await, so only a task that has not started
      can be cancelled there. */
  predicate Enabled(run: Run, r: Response) {
    var point := run.frame.point;
    match r
    case Go => point == AtAttempt
    case Opened => point == AtOpen
    case Next(_) => point == AtNext
    case StreamEnd => point == AtNext
    case ToolDone(_, _, _, _) => point.AtTool? && |point.outcomes| < |ToolCalls(point.turn.blocks)|
    case StreamClosed => point.AtClose?
    case Raise(_) => !point.Done?
    case Cancel => !point.Done? && (point == AtAttempt ==> run.frame.attempt == 0)
  }

  function MoveTo(run: Run, point: Point): Run {
    run.(frame := run.frame.(point := point))
  }

  /** Starts an attempt on a copy of the working history, and calls the provider. */
  function BeginAttempt(run: Run): Run {
    var started := Emit(run, AgentStart);
    started.(frame := Frame(AtOpen, run.frame.attempt, run.history.working, []))
  }

  /** Starts the next tool call of the turn, or ends the turn. */
  function NextTool(run: Run, turn: AssistantTurn, outcomes: seq<ToolOutcome>): Run {
    var calls := ToolCalls(turn.blocks);
    if |outcomes| < |calls|
    then MoveTo(Emit(run, ToolStart(calls[|outcomes|])), AtTool(turn, outcomes))
    else MoveTo(Emit(run, TurnEnd(turn, outcomes)), AtClose(Conclude(turn, outcomes)))
  }

  function HandleStreamEvent(run: Run, event: StreamEvent): Run {
    match event
    case StreamStart(responseId) => Emit(Emit(run, TurnStart), MessageStart(responseId))
    case StreamUpdate(update) => Emit(run, MessageUpdate(update))
    case StreamDone(blocks) =>
      var turn := AssistantTurn(blocks, TurnCompleted);
      NextTool(Emit(run, MessageEnd(turn)), turn, [])
    case StreamError(blocks, status, message) =>
      var turn := AssistantTurn(blocks, if status == TurnAborted then TurnAborted else TurnError);
      MoveTo(Emit(run, MessageEnd(turn)), AtClose(Reraise(TurnFailed(message))))
  }

  function ToolReturned(run: Run, turn: AssistantTurn, outcomes: seq<ToolOutcome>, r: Response): Run
    requires r.ToolDone? && |outcomes| < |ToolCalls(turn.blocks)|
  {
    var call := ToolCalls(turn.blocks)[|outcomes|];
    var outcome := ToolOutcome(ToolResult(call.callId, call.name, r.content, r.isError), r.details, r.terminate);
    NextTool(Emit(run, ToolEnd(outcome)), turn, outcomes + [outcome])
  }

  function Results(outcomes: seq<ToolOutcome>): (r: seq<Item>)
    ensures |r| == |outcomes|
  {
    seq(|outcomes|, i requires 0 <= i < |outcomes| => ToolResultTurn(outcomes[i].result))
  }

  /** The turn followed by its results, as the agent appends them to its history. */
  function TurnItems(turn: AssistantTurn, outcomes: seq<ToolOutcome>): seq<Item> {
    [Assistant(turn)] + Results(outcomes)
  }

  predicate ShouldContinue(outcomes: seq<ToolOutcome>) {
    outcomes != [] && forall i :: 0 <= i < |outcomes| ==> !outcomes[i].terminate
  }

  /** The outcome of the first terminating execution that carries one. */
  function ResultOutcome(executions: seq<ToolOutcome>): Option<RunOutcome> {
    if executions == [] then None
    else if executions[0].terminate && executions[0].details.CompleteDetails?
    then Some(Completed(executions[0].details.value))
    else if executions[0].terminate && executions[0].details.FailDetails?
    then Some(Failed(AgentFailure(executions[0].details.reason)))
    else ResultOutcome(executions[1..])
  }

  function Texts(blocks: seq<Block>): seq<string> {
    if blocks == [] then []
    else (if blocks[0].TextBlock? then [blocks[0].text] else []) + Texts(blocks[1..])
  }

  function JoinTexts(texts: seq<string>): string {
    if |texts| == 0 then "" else if |texts| == 1 then texts[0] else texts[0] + "\n\n" + JoinTexts(texts[1..])
  }

  function EndAttempt(run: Run, turn: AssistantTurn): Run {
    var ended := Emit(run, AgentEnd);
    var outcome := ResultOutcome(run.frame.executions);
    if !run.typed then MoveTo(ended, Done(Returned(Completed(JoinTexts(Texts(turn.blocks))))))
    else if outcome.Some? then MoveTo(ended, Done(Returned(outcome.value)))
    else if run.frame.attempt < MAX_RESULT_FOLLOW_UPS then
      var reminded := Emit(ended, ResultFollowUp(RESULT_FOLLOW_UP));
      reminded.(frame := Frame(AtAttempt, run.frame.attempt + 1, [], []))
    else MoveTo(ended, Done(Returned(Failed(AgentFailure(NO_RESULT_REASON)))))
  }

  /** After a finished turn: call the provider again, or end the attempt. */
  function Concluded(run: Run, turn: AssistantTurn, outcomes: seq<ToolOutcome>): Run {
    var frame := run.frame.(runHistory := run.frame.runHistory + TurnItems(turn, outcomes),
                            executions := run.frame.executions + outcomes);
    var extended := run.(frame := frame);
    if ShouldContinue(outcomes) then MoveTo(extended, AtOpen) else EndAttempt(extended, turn)
  }

  /** The stream is closed on every way out of a turn. */
  function AfterClose(run: Run, then_: Continuation): Run {
    match then_
    case Conclude(turn, outcomes) => Concluded(run, turn, outcomes)
    case Reraise(error) => MoveTo(run, Done(Raised(error)))
    case Unwind => MoveTo(run, Done(Cancelled))
  }

  /** Does the task hold an open provider stream here? */
  predicate InStream(point: Point) {
    point.AtNext? || point.AtTool?
  }

  function Resume(run: Run, r: Response): Run
    requires Enabled(run, r)
  {
    var point := run.frame.point;
    match r
    case Go => BeginAttempt(run)
    case Opened => MoveTo(run, AtNext)
    case Next(event) => HandleStreamEvent(run, event)
    case StreamEnd => MoveTo(run, AtClose(Reraise(OtherError("Provider stream ended without a terminal event."))))
    case ToolDone(_, _, _, _) => ToolReturned(run, point.turn, point.outcomes, r)
    case StreamClosed => AfterClose(run, point.then_)
    case Raise(error) => MoveTo(run, if InStream(point) then AtClose(Reraise(error)) else Done(Raised(error)))
    case Cancel => MoveTo(run, if InStream(point) then AtClose(Unwind) else Done(Cancelled))
  }

  // ----- Ending -----

  function TerminalOutcome(exit: Exit): RunOutcome {
    match exit
    case Returned(outcome) => outcome
    case Raised(TurnFailed(message)) => Failed(TurnFailure(message))
    case Raised(OtherError(message)) => Failed(ExecutionFailure(message))
    case Cancelled => Aborted
  }

  /** The finalizer: heal, and once the store has answered, close the log. */
  function HealRun(run: Run): Run {
    run.(history := HealedHistory(run.history))
  }

  function TerminalEvent(result: RunResult): Event {
    match result
    case Ended(outcome) => RunEnd(outcome)
    case Faulted(error) => RunFault(error)
  }

  function CloseRun(run: Run, result: RunResult): Run {
    Emit(run.(result := Some(result)), TerminalEvent(result)).(finalized := true)
  }

  // ----- Subscribers -----

  function Subscribe(run: Run): Run {
    run.(subscribers := run.subscribers + [Ready([])])
  }

  predicate CanAdvance(run: Run, i: nat) {
    i < |run.subscribers| && !run.subscribers[i].Blocked? && !run.subscribers[i].Finished?
  }

  function SetSubscriber(run: Run, i: nat, s: Subscriber): Run
    requires i < |run.subscribers|
  {
    run.(subscribers := run.subscribers[i := s])
  }

  /** The inner loop and what follows it, up to the next suspension. A set event
      makes `wait` return at once; the flag is then cleared at the loop's top. */
  function Deliver(run: Run, i: nat, yielded: seq<Event>): Run
    requires i < |run.subscribers|
  {
    if |yielded| < |run.events| then SetSubscriber(run, i, AtYield(yielded + [run.events[|yielded|]]))
    else if run.finalized then SetSubscriber(run, i, Finished(yielded))
    else SetSubscriber(run.(changed := false), i, Blocked(yielded))
  }

  /** Lets subscriber i run until it yields, waits, or returns. */
  function Advance(run: Run, i: nat): Run
    requires CanAdvance(run, i)
  {
    var s := run.subscribers[i];
    if s.Ready? then Deliver(run.(changed := false), i, s.yielded) else Deliver(run, i, s.yielded)
  }
}
