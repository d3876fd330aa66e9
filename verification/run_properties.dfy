/** What every step of a run keeps: its two histories, its log, its subscribers. */
module RunProperties {
  import opened Prelude
  import opened Conversation
  import opened RunEvents
  import opened Runs

  // ----- The histories -----

  /** The agent's own history beyond the committed snapshot. */
  predicate ExtendsCommitted(run: Run) {
    && |run.committed| <= |run.frame.runHistory|
    && run.frame.runHistory[..|run.committed|] == run.committed
  }

  function Own(run: Run): seq<Item>
    requires ExtendsCommitted(run)
  {
    run.frame.runHistory[|run.committed|..]
  }

  /** At each suspension: how the delta relates to the agent's own history. In
      particular, at every provider call (AtOpen) the history given to the
      provider is the committed snapshot followed by the delta. */
  ghost predicate PointInv(run: Run) {
    var delta := run.history.delta;
    match run.frame.point
    case AtAttempt => WellFormed(delta)
    case AtOpen => ExtendsCommitted(run) && Own(run) == delta && WellFormed(delta)
    case AtNext => ExtendsCommitted(run) && Own(run) == delta && WellFormed(delta)
    case AtTool(turn, outcomes) =>
      && ExtendsCommitted(run) && WellFormed(Own(run))
      && OpenTurn(turn, Results(outcomes)).Valid()
      && delta == Own(run) + TurnItems(turn, outcomes)
    case AtClose(Conclude(turn, outcomes)) =>
      && ExtendsCommitted(run) && WellFormed(delta)
      && delta == Own(run) + TurnItems(turn, outcomes)
    case AtClose(_) => IsCut(delta)
    case Done(_) => IsCut(delta)
  }

  ghost predicate HistoryInv(run: Run) {
    && run.history.working == run.committed + run.history.delta
    && run.history.delta != [] && run.history.delta[0].UserMessage?
    && PointInv(run)
  }

  /** Every cut point leaves a transcript in which only the last turn is open. */
  lemma PointInvIsCut(run: Run)
    requires HistoryInv(run)
    ensures IsCut(run.history.delta)
  {
    if run.frame.point.AtTool? {
      var last := OpenTurn(run.frame.point.turn, Results(run.frame.point.outcomes));
      assert IsCutAt(run.history.delta, Own(run), last);
    }
  }

  lemma AcceptedHistory(committed: seq<Item>, prompt: string, typed: bool)
    ensures HistoryInv(Accepted(committed, prompt, typed))
  {
  }

  /** Emitting an event appends its item to both histories. */
  lemma EmitHistory(run: Run, event: Event)
    ensures var emitted := Emit(run, event);
            && emitted.history == Observed(run.history, event)
            && emitted.committed == run.committed && emitted.frame == run.frame && emitted.typed == run.typed
            && emitted.events == run.events + [event]
            && emitted.finalized == run.finalized && emitted.result == run.result
  {
  }

  lemma ResultsAppend(outcomes: seq<ToolOutcome>, outcome: ToolOutcome)
    ensures Results(outcomes + [outcome]) == Results(outcomes) + [ToolResultTurn(outcome.result)]
  {
  }

  /** One more answered call. */
  lemma AnswerNext(turn: AssistantTurn, outcomes: seq<ToolOutcome>, outcome: ToolOutcome)
    requires OpenTurn(turn, Results(outcomes)).Valid()
    requires Answers(ToolResultTurn(outcome.result), ToolCalls(turn.blocks)[|outcomes|])
    ensures var calls, more := ToolCalls(turn.blocks), outcomes + [outcome];
            AnswersAll(Results(more), calls[..|more|])
  {
    var calls, more := ToolCalls(turn.blocks), outcomes + [outcome];
    ResultsAppend(outcomes, outcome);
    forall i | 0 <= i < |more|
      ensures Answers(Results(more)[i], calls[..|more|][i])
    {
      if i < |outcomes| {
        assert Answers(Results(outcomes)[i], calls[..|outcomes|][i]);
      }
    }
  }

  /** A run in the middle of its tool calls, about to start one or to end the turn. */
  ghost predicate BetweenTools(run: Run, turn: AssistantTurn, outcomes: seq<ToolOutcome>) {
    && run.history.working == run.committed + run.history.delta
    && run.history.delta != [] && run.history.delta[0].UserMessage?
    && ExtendsCommitted(run) && WellFormed(Own(run))
    && turn.status == TurnCompleted
    && |outcomes| <= |ToolCalls(turn.blocks)|
    && AnswersAll(Results(outcomes), ToolCalls(turn.blocks)[..|outcomes|])
    && run.history.delta == Own(run) + TurnItems(turn, outcomes)
  }

  lemma NextToolHistory(run: Run, turn: AssistantTurn, outcomes: seq<ToolOutcome>)
    requires BetweenTools(run, turn, outcomes)
    ensures HistoryInv(NextTool(run, turn, outcomes))
    ensures NextTool(run, turn, outcomes).committed == run.committed
  {
    var calls := ToolCalls(turn.blocks);
    if |outcomes| == |calls| {
      assert calls[..|calls|] == calls && Results(outcomes)[..|calls|] == Results(outcomes);
      WellFormedTurn(turn, Results(outcomes));
      WellFormedConcat(Own(run), TurnItems(turn, outcomes));
      EmitHistory(run, TurnEnd(turn, outcomes));
    } else {
      EmitHistory(run, ToolStart(calls[|outcomes|]));
    }
  }

  lemma StreamHistory(run: Run, event: StreamEvent)
    requires HistoryInv(run) && run.frame.point == AtNext
    ensures HistoryInv(HandleStreamEvent(run, event))
    ensures HandleStreamEvent(run, event).committed == run.committed
  {
    match event
    case StreamStart(responseId) =>
      EmitHistory(run, TurnStart);
      EmitHistory(Emit(run, TurnStart), MessageStart(responseId));
    case StreamUpdate(update) =>
      EmitHistory(run, MessageUpdate(update));
    case StreamDone(blocks) =>
      var turn := AssistantTurn(blocks, TurnCompleted);
      EmitHistory(run, MessageEnd(turn));
      NextToolHistory(Emit(run, MessageEnd(turn)), turn, []);
    case StreamError(blocks, status, message) =>
      EmitHistory(run, MessageEnd(AssistantTurn(blocks, if status == TurnAborted then TurnAborted else TurnError)));
  }

  lemma ToolHistory(run: Run, r: Response)
    requires HistoryInv(run) && Enabled(run, r) && r.ToolDone?
    ensures HistoryInv(Resume(run, r)) && Resume(run, r).committed == run.committed
  {
    var turn, outcomes := run.frame.point.turn, run.frame.point.outcomes;
    var call := ToolCalls(turn.blocks)[|outcomes|];
    var outcome := ToolOutcome(ToolResult(call.callId, call.name, r.content, r.isError), r.details, r.terminate);
    EmitHistory(run, ToolEnd(outcome));
    AnswerNext(turn, outcomes, outcome);
    ResultsAppend(outcomes, outcome);
    NextToolHistory(Emit(run, ToolEnd(outcome)), turn, outcomes + [outcome]);
  }

  lemma CloseHistory(run: Run, then_: Continuation)
    requires HistoryInv(run) && run.frame.point == AtClose(then_)
    ensures HistoryInv(AfterClose(run, then_)) && AfterClose(run, then_).committed == run.committed
  {
    if then_.Conclude? {
      var items := TurnItems(then_.turn, then_.outcomes);
      var frame := run.frame.(runHistory := run.frame.runHistory + items,
                              executions := run.frame.executions + then_.outcomes);
      var extended := run.(frame := frame);
      assert ExtendsCommitted(extended) && Own(extended) == run.history.delta;
      if !ShouldContinue(then_.outcomes) {
        AttemptEndHistory(extended, then_.turn);
      }
    }
  }

  lemma AttemptEndHistory(run: Run, turn: AssistantTurn)
    requires run.history.working == run.committed + run.history.delta
    requires run.history.delta != [] && run.history.delta[0].UserMessage? && WellFormed(run.history.delta)
    ensures HistoryInv(EndAttempt(run, turn)) && EndAttempt(run, turn).committed == run.committed
  {
    var ended := Emit(run, AgentEnd);
    EmitHistory(run, AgentEnd);
    EmitHistory(ended, ResultFollowUp(RESULT_FOLLOW_UP));
    assert [UserMessage(RESULT_FOLLOW_UP)][1..] == [];
    WellFormedConcat(run.history.delta, [UserMessage(RESULT_FOLLOW_UP)]);
  }

  /** Whatever the environment answers, the two histories stay in agreement. */
  lemma ResumeHistory(run: Run, r: Response)
    requires HistoryInv(run) && Enabled(run, r)
    ensures HistoryInv(Resume(run, r)) && Resume(run, r).committed == run.committed
  {
    PointInvIsCut(run);
    match r
    case Go => EmitHistory(run, AgentStart);
    case Next(event) => StreamHistory(run, event);
    case ToolDone(_, _, _, _) => ToolHistory(run, r);
    case StreamClosed => CloseHistory(run, run.frame.point.then_);
    case _ =>
  }

  /** The provider is only ever given the snapshot followed by the delta. */
  lemma ProviderSeesCommittedPlusDelta(run: Run)
    requires HistoryInv(run) && run.frame.point == AtOpen
    ensures run.frame.runHistory == run.committed + run.history.delta == run.history.working
  {
  }

  /** After the finalizer, wherever the run was cut: the delta is a cut
      transcript with its healing results, and the histories still agree. */
  lemma HealRunHistory(run: Run)
    requires HistoryInv(run)
    ensures IsCut(run.history.delta)
    ensures HealRun(run).history.delta == Healed(run.history.delta)
    ensures HealRun(run).history.working == run.committed + Healed(run.history.delta)
    ensures DistinctIds(AllCalls(run.history.delta)) ==> WellFormed(Healed(run.history.delta))
  {
    hide WellFormed, AllCalls, UnansweredCalls;
    PointInvIsCut(run);
    Associate(run.committed, run.history.delta, HealingResults(run.history.delta));
    HealedIfDistinct(run.history.delta);
  }

  lemma HealedIfDistinct(delta: seq<Item>)
    requires IsCut(delta)
    ensures DistinctIds(AllCalls(delta)) ==> WellFormed(Healed(delta))
  {
    if DistinctIds(AllCalls(delta)) {
      HealingWithDistinctIds(delta);
    }
  }

  // ----- Nothing is taken back -----

  /** The conversation that a log carries: completed messages, tool results and
      reminders, in order. */
  function Replay(events: seq<Event>): seq<Item> {
    if events == [] then []
    else
      var items := Replay(events[..|events| - 1]);
      match events[|events| - 1]
      case MessageEnd(AssistantTurn(blocks, TurnCompleted)) => items + [Assistant(AssistantTurn(blocks, TurnCompleted))]
      case ToolEnd(ToolOutcome(result, _, _)) => items + [ToolResultTurn(result)]
      case ResultFollowUp(message) => items + [UserMessage(message)]
      case _ => items
  }

  lemma {:induction false} ReplayConcat(a: seq<Event>, b: seq<Event>)
    ensures Replay(a + b) == Replay(a) + Replay(b)
    decreases |b|
  {
    if b == [] {
      assert a + b == a;
    } else {
      var front := b[..|b| - 1];
      assert (a + b)[..|a + b| - 1] == a + front;
      ReplayConcat(a, front);
    }
  }

  /** The log only grows, and both histories grow by exactly what it carries. */
  predicate Extended(before: Run, after: Run) {
    && before.events <= after.events
    && after.history == Append(before.history, Replay(after.events[|before.events|..]))
  }

  lemma SameExtends(before: Run, after: Run)
    requires after.events == before.events && after.history == before.history
    ensures Extended(before, after)
  {
    assert after.events[|before.events|..] == [];
  }

  lemma EmitExtends(run: Run, event: Event)
    ensures Extended(run, Emit(run, event))
  {
    assert Emit(run, event).events[|run.events|..] == [event];
    assert [event][..0] == [];
    assert Append(run.history, []) == run.history;
  }

  lemma ExtendedTrans(a: Run, b: Run, c: Run)
    requires Extended(a, b) && Extended(b, c)
    ensures Extended(a, c)
  {
    hide Replay;
    var first, second := b.events[|a.events|..], c.events[|b.events|..];
    assert c.events[|a.events|..] == first + second;
    ReplayConcat(first, second);
    Associate(a.history.delta, Replay(first), Replay(second));
    Associate(a.history.working, Replay(first), Replay(second));
  }

  lemma EmitTwiceExtends(run: Run, first: Event, second: Event)
    ensures Extended(run, Emit(Emit(run, first), second))
  {
    EmitExtends(run, first);
    EmitExtends(Emit(run, first), second);
    ExtendedTrans(run, Emit(run, first), Emit(Emit(run, first), second));
  }

  lemma NextToolExtends(run: Run, event: Event, turn: AssistantTurn, outcomes: seq<ToolOutcome>)
    ensures Extended(run, NextTool(Emit(run, event), turn, outcomes))
  {
    hide ToolCalls, Observed, Extended;
    var calls, after := ToolCalls(turn.blocks), NextTool(Emit(run, event), turn, outcomes);
    var next := if |outcomes| < |calls| then ToolStart(calls[|outcomes|]) else TurnEnd(turn, outcomes);
    EmitTwiceExtends(run, event, next);
    SameExtends(Emit(Emit(run, event), next), after);
    ExtendedTrans(run, Emit(Emit(run, event), next), after);
  }

  /** No step takes back an event, and none adds an item that the log does not show. */
  lemma ResumeExtends(run: Run, r: Response)
    requires Enabled(run, r)
    ensures Extended(run, Resume(run, r))
  {
    hide ToolCalls, Observed, Extended;
    match r
    case Go =>
      EmitExtends(run, AgentStart);
      SameExtends(Emit(run, AgentStart), BeginAttempt(run));
      ExtendedTrans(run, Emit(run, AgentStart), BeginAttempt(run));
    case Next(event) => StreamExtends(run, event);
    case ToolDone(_, _, _, _) =>
      var turn, outcomes := run.frame.point.turn, run.frame.point.outcomes;
      var call := ToolCalls(turn.blocks)[|outcomes|];
      var outcome := ToolOutcome(ToolResult(call.callId, call.name, r.content, r.isError), r.details, r.terminate);
      NextToolExtends(run, ToolEnd(outcome), turn, outcomes + [outcome]);
    case StreamClosed => CloseExtends(run, run.frame.point.then_);
    case _ => SameExtends(run, Resume(run, r));
  }

  lemma CloseExtends(run: Run, then_: Continuation)
    ensures Extended(run, AfterClose(run, then_))
  {
    hide ToolCalls, Observed, Extended, ResultOutcome, JoinTexts, Texts;
    if then_.Conclude? && !ShouldContinue(then_.outcomes) {
      var frame := run.frame.(runHistory := run.frame.runHistory + TurnItems(then_.turn, then_.outcomes),
                              executions := run.frame.executions + then_.outcomes);
      EndExtends(run.(frame := frame), then_.turn);
      SameExtends(run, run.(frame := frame));
      ExtendedTrans(run, run.(frame := frame), AfterClose(run, then_));
    } else {
      SameExtends(run, AfterClose(run, then_));
    }
  }

  lemma EndExtends(run: Run, turn: AssistantTurn)
    ensures Extended(run, EndAttempt(run, turn))
  {
    hide Observed, Extended, ResultOutcome, JoinTexts, Texts;
    var ended := Emit(run, AgentEnd);
    var reminded := Emit(ended, ResultFollowUp(RESULT_FOLLOW_UP));
    EmitExtends(run, AgentEnd);
    EmitTwiceExtends(run, AgentEnd, ResultFollowUp(RESULT_FOLLOW_UP));
    var last := EndAttempt(run, turn);
    if last.events == reminded.events {
      SameExtends(reminded, last);
      ExtendedTrans(run, reminded, last);
    } else {
      SameExtends(ended, last);
      ExtendedTrans(run, ended, last);
    }
  }

  lemma StreamExtends(run: Run, event: StreamEvent)
    ensures Extended(run, HandleStreamEvent(run, event))
  {
    match event
    case StreamStart(responseId) => EmitTwiceExtends(run, TurnStart, MessageStart(responseId));
    case StreamUpdate(update) => EmitExtends(run, MessageUpdate(update));
    case StreamDone(blocks) =>
      var turn := AssistantTurn(blocks, TurnCompleted);
      NextToolExtends(run, MessageEnd(turn), turn, []);
    case StreamError(blocks, status, message) =>
      EmitExtends(run, MessageEnd(AssistantTurn(blocks, if status == TurnAborted then TurnAborted else TurnError)));
  }

  /** What a run will commit is its prompt followed by what its log carries. */
  predicate IsReplay(run: Run, prompt: string) {
    run.history.delta == [UserMessage(prompt)] + Replay(run.events)
  }

  lemma AcceptedReplay(committed: seq<Item>, prompt: string, typed: bool)
    ensures IsReplay(Accepted(committed, prompt, typed), prompt)
  {
    assert [RunStart][..0] == [];
  }

  lemma ResumeReplay(run: Run, r: Response, prompt: string)
    requires IsReplay(run, prompt) && Enabled(run, r)
    ensures IsReplay(Resume(run, r), prompt)
  {
    hide Replay, Resume;
    ResumeExtends(run, r);
    var added := Resume(run, r).events[|run.events|..];
    assert Resume(run, r).events == run.events + added;
    ReplayConcat(run.events, added);
    Associate([UserMessage(prompt)], Replay(run.events), Replay(added));
  }

  // ----- The log -----

  function CountStarts(events: seq<Event>): nat {
    if events == [] then 0
    else CountStarts(events[..|events| - 1]) + if events[|events| - 1] == AgentStart then 1 else 0
  }

  lemma CountAppend(events: seq<Event>, event: Event)
    ensures CountStarts(events + [event]) == CountStarts(events) + if event == AgentStart then 1 else 0
  {
  }

  /** The provider's stream is a start, then updates, then a terminal event. */
  predicate Shaped(run: Run, r: Response) {
    r.Next? ==> (r.event.StreamStart? <==> PhaseOf(run.events).InAttempt?)
  }

  /** Where the log stands at each suspension. */
  predicate PhaseFits(phase: Phase, point: Point) {
    match point
    case AtAttempt => phase == BetweenAttempts
    case AtOpen => phase.InAttempt?
    case AtNext => phase.InAttempt? || phase == InMessage
    case AtTool(turn, outcomes) => phase == InTool(turn, |outcomes|) && |outcomes| < |ToolCalls(turn.blocks)|
    case AtClose(Conclude(_, _)) => phase == InAttempt(true)
    case AtClose(_) => Begun(phase)
    case Done(_) => Begun(phase)
  }

  predicate LogInv(run: Run) {
    && run.events != []
    && (if run.finalized then PhaseOf(run.events) == Closed && run.frame.point.Done?
        else PhaseFits(PhaseOf(run.events), run.frame.point))
    && run.frame.attempt <= (if run.typed then MAX_RESULT_FOLLOW_UPS else 0)
    && CountStarts(run.events) <= run.frame.attempt + (if run.frame.point == AtAttempt then 0 else 1)
  }

  lemma AcceptedLog(committed: seq<Item>, prompt: string, typed: bool)
    ensures LogInv(Accepted(committed, prompt, typed))
  {
  }

  lemma EmitLog(run: Run, event: Event)
    ensures var emitted := Emit(run, event);
            && PhaseOf(emitted.events) == NextPhase(PhaseOf(run.events), event)
            && CountStarts(emitted.events) == CountStarts(run.events) + (if event == AgentStart then 1 else 0)
            && emitted.frame == run.frame && emitted.typed == run.typed && emitted.finalized == run.finalized
            && emitted.events != []
  {
  }

  predicate AttemptsInv(run: Run) {
    && !run.finalized && run.events != []
    && run.frame.attempt <= (if run.typed then MAX_RESULT_FOLLOW_UPS else 0)
    && CountStarts(run.events) <= run.frame.attempt + 1
  }

  lemma NextToolLog(run: Run, turn: AssistantTurn, outcomes: seq<ToolOutcome>)
    requires AttemptsInv(run) && PhaseOf(run.events) == AfterMessage(turn, |outcomes|)
    requires |outcomes| <= |ToolCalls(turn.blocks)|
    ensures LogInv(NextTool(run, turn, outcomes))
  {
    hide PhaseOf, CountStarts, ToolCalls;
    if |outcomes| < |ToolCalls(turn.blocks)| {
      EmitLog(run, ToolStart(ToolCalls(turn.blocks)[|outcomes|]));
    } else {
      EmitLog(run, TurnEnd(turn, outcomes));
    }
  }

  lemma StreamLog(run: Run, event: StreamEvent)
    requires LogInv(run) && Enabled(run, Next(event)) && Shaped(run, Next(event)) && !run.finalized
    ensures LogInv(HandleStreamEvent(run, event))
  {
    hide PhaseOf, CountStarts, ToolCalls;
    match event
    case StreamStart(responseId) =>
      EmitLog(run, TurnStart);
      EmitLog(Emit(run, TurnStart), MessageStart(responseId));
    case StreamUpdate(update) =>
      EmitLog(run, MessageUpdate(update));
    case StreamDone(blocks) =>
      var turn := AssistantTurn(blocks, TurnCompleted);
      EmitLog(run, MessageEnd(turn));
      NextToolLog(Emit(run, MessageEnd(turn)), turn, []);
    case StreamError(blocks, status, message) =>
      EmitLog(run, MessageEnd(AssistantTurn(blocks, if status == TurnAborted then TurnAborted else TurnError)));
  }

  lemma ToolLog(run: Run, r: Response)
    requires LogInv(run) && Enabled(run, r) && r.ToolDone? && !run.finalized
    ensures LogInv(Resume(run, r))
  {
    hide PhaseOf, CountStarts, ToolCalls;
    var turn, outcomes := run.frame.point.turn, run.frame.point.outcomes;
    var call := ToolCalls(turn.blocks)[|outcomes|];
    var outcome := ToolOutcome(ToolResult(call.callId, call.name, r.content, r.isError), r.details, r.terminate);
    EmitLog(run, ToolEnd(outcome));
    NextToolLog(Emit(run, ToolEnd(outcome)), turn, outcomes + [outcome]);
  }

  lemma AttemptEndLog(run: Run, turn: AssistantTurn)
    requires AttemptsInv(run) && PhaseOf(run.events) == InAttempt(true)
    ensures LogInv(EndAttempt(run, turn))
  {
    hide PhaseOf, CountStarts, ToolCalls;
    var ended := Emit(run, AgentEnd);
    EmitLog(run, AgentEnd);
    EmitLog(ended, ResultFollowUp(RESULT_FOLLOW_UP));
  }

  /** Every step keeps the log a prefix of the grammar, and at most nine attempts
      are ever made (one for a run without a result type). */
  lemma ResumeLog(run: Run, r: Response)
    requires LogInv(run) && Enabled(run, r) && Shaped(run, r)
    ensures LogInv(Resume(run, r)) && Resume(run, r).finalized == run.finalized == false
  {
    hide PhaseOf, CountStarts, ToolCalls;
    match r
    case Go => EmitLog(run, AgentStart);
    case Next(event) => StreamLog(run, event);
    case ToolDone(_, _, _, _) => ToolLog(run, r);
    case StreamClosed =>
      if run.frame.point.then_.Conclude? {
        var turn, outcomes := run.frame.point.then_.turn, run.frame.point.then_.outcomes;
        if !ShouldContinue(outcomes) {
          var frame := run.frame.(runHistory := run.frame.runHistory + TurnItems(turn, outcomes),
                                  executions := run.frame.executions + outcomes);
          AttemptEndLog(run.(frame := frame), turn);
        }
      }
    case _ =>
  }

  /** Closing adds the one terminal event, and it agrees with `wait`. */
  lemma CloseLog(run: Run, result: RunResult)
    requires LogInv(run) && !run.finalized && run.frame.point.Done?
    ensures var closed := CloseRun(run, result);
            && LogInv(closed) && closed.finalized && closed.result == Some(result)
            && closed.events == run.events + [TerminalEvent(result)]
  {
  }

  /** A finished log: run start, a prefix of the grammar, one terminal event. */
  lemma FinishedLog(run: Run)
    requires LogInv(run) && run.finalized
    ensures run.events[0] == RunStart && IsTerminal(run.events[|run.events| - 1])
    ensures forall i :: 0 <= i < |run.events| - 1 ==> !IsTerminal(run.events[i])
    ensures CountStarts(run.events) <= 9
  {
    ClosedLog(run.events);
  }

  // ----- The subscribers -----

  predicate SubscriberInv(run: Run, s: Subscriber) {
    && s.yielded <= run.events
    && (s.Blocked? ==> s.yielded == run.events && !run.finalized && !run.changed)
    && (s.Finished? ==> s.yielded == run.events && run.finalized)
  }

  /** Nobody waits for the shared event who has not been given the whole log, or
      who could already return: no wake-up is lost, although every subscriber
      clears the event. What each one was given is always a prefix of the log. */
  predicate FeedInv(run: Run) {
    && (forall i :: 0 <= i < |run.subscribers| ==> SubscriberInv(run, run.subscribers[i]))
    && (run.finalized ==> run.result.Some?)
  }

  lemma EmitFeed(run: Run, event: Event)
    requires FeedInv(run) && !run.finalized
    ensures FeedInv(Emit(run, event))
  {
    var emitted := Emit(run, event);
    forall i | 0 <= i < |emitted.subscribers|
      ensures SubscriberInv(emitted, emitted.subscribers[i])
    {
      assert SubscriberInv(run, run.subscribers[i]);
    }
  }

  lemma NextToolFeed(run: Run, turn: AssistantTurn, outcomes: seq<ToolOutcome>)
    requires FeedInv(run) && !run.finalized
    ensures FeedInv(NextTool(run, turn, outcomes)) && !NextTool(run, turn, outcomes).finalized
  {
    if |outcomes| < |ToolCalls(turn.blocks)| {
      EmitFeed(run, ToolStart(ToolCalls(turn.blocks)[|outcomes|]));
    } else {
      EmitFeed(run, TurnEnd(turn, outcomes));
    }
  }

  lemma StreamFeed(run: Run, event: StreamEvent)
    requires FeedInv(run) && !run.finalized
    ensures FeedInv(HandleStreamEvent(run, event)) && !HandleStreamEvent(run, event).finalized
  {
    match event
    case StreamStart(responseId) =>
      EmitFeed(run, TurnStart);
      EmitFeed(Emit(run, TurnStart), MessageStart(responseId));
    case StreamUpdate(update) =>
      EmitFeed(run, MessageUpdate(update));
    case StreamDone(blocks) =>
      var turn := AssistantTurn(blocks, TurnCompleted);
      EmitFeed(run, MessageEnd(turn));
      NextToolFeed(Emit(run, MessageEnd(turn)), turn, []);
    case StreamError(blocks, status, message) =>
      EmitFeed(run, MessageEnd(AssistantTurn(blocks, if status == TurnAborted then TurnAborted else TurnError)));
  }

  lemma AttemptEndFeed(run: Run, turn: AssistantTurn)
    requires FeedInv(run) && !run.finalized
    ensures FeedInv(EndAttempt(run, turn)) && !EndAttempt(run, turn).finalized
  {
  }

  lemma ResumeFeed(run: Run, r: Response)
    requires FeedInv(run) && Enabled(run, r) && !run.finalized
    ensures FeedInv(Resume(run, r)) && !Resume(run, r).finalized
  {
    match r
    case Go => EmitFeed(run, AgentStart);
    case Next(event) => StreamFeed(run, event);
    case ToolDone(_, _, _, _) =>
      var turn, outcomes := run.frame.point.turn, run.frame.point.outcomes;
      var call := ToolCalls(turn.blocks)[|outcomes|];
      var outcome := ToolOutcome(ToolResult(call.callId, call.name, r.content, r.isError), r.details, r.terminate);
      EmitFeed(run, ToolEnd(outcome));
      NextToolFeed(Emit(run, ToolEnd(outcome)), turn, outcomes + [outcome]);
    case StreamClosed =>
      if run.frame.point.then_.Conclude? && !ShouldContinue(run.frame.point.then_.outcomes) {
        var turn, outcomes := run.frame.point.then_.turn, run.frame.point.then_.outcomes;
        var frame := run.frame.(runHistory := run.frame.runHistory + TurnItems(turn, outcomes),
                                executions := run.frame.executions + outcomes);
        assert FeedInv(run.(frame := frame));
        AttemptEndFeed(run.(frame := frame), turn);
      }
    case _ =>
  }

  lemma CloseFeed(run: Run, result: RunResult)
    requires FeedInv(run) && !run.finalized
    ensures FeedInv(CloseRun(run, result))
  {
    var noted := run.(result := Some(result));
    assert FeedInv(noted);
    EmitFeed(noted, TerminalEvent(result));
    var emitted, closed := Emit(noted, TerminalEvent(result)), CloseRun(run, result);
    forall i | 0 <= i < |closed.subscribers|
      ensures SubscriberInv(closed, closed.subscribers[i])
    {
      assert SubscriberInv(emitted, emitted.subscribers[i]);
    }
  }

  lemma SubscribeFeed(run: Run)
    requires FeedInv(run)
    ensures FeedInv(Subscribe(run))
    ensures Subscribe(run).subscribers == run.subscribers + [Ready([])]
  {
    var more := Subscribe(run);
    forall i | 0 <= i < |more.subscribers|
      ensures SubscriberInv(more, more.subscribers[i])
    {
      assert i < |run.subscribers| ==> SubscriberInv(run, run.subscribers[i]);
    }
  }

  /** How far a subscriber still is from returning once the run is finalized. */
  function Remaining(run: Run, i: nat): int
    requires i < |run.subscribers|
  {
    if run.subscribers[i].Finished? then 0 else |run.events| - |run.subscribers[i].yielded| + 1
  }

  /** A step of one subscriber changes no other, and adds at most the next event. */
  lemma AdvanceFeed(run: Run, i: nat)
    requires FeedInv(run) && CanAdvance(run, i)
    ensures var next := Advance(run, i);
            && FeedInv(next)
            && next.events == run.events && next.finalized == run.finalized && next.result == run.result
            && |next.subscribers| == |run.subscribers|
            && (forall j :: 0 <= j < |run.subscribers| && j != i ==> next.subscribers[j] == run.subscribers[j])
            && run.subscribers[i].yielded <= next.subscribers[i].yielded
            && (run.finalized ==> !next.subscribers[i].Blocked? && 0 <= Remaining(next, i) < Remaining(run, i))
  {
    var next := Advance(run, i);
    assert SubscriberInv(run, run.subscribers[i]);
    forall j | 0 <= j < |next.subscribers|
      ensures SubscriberInv(next, next.subscribers[j])
    {
      assert SubscriberInv(run, run.subscribers[j]);
    }
  }

  /** What a step gives its subscriber: behind the log, exactly the next event;
      at its end, the return if the run is finalized, and a wait if it is not. */
  lemma AdvanceDelivers(run: Run, i: nat)
    requires FeedInv(run) && CanAdvance(run, i)
    ensures var given, next := run.subscribers[i].yielded, Advance(run, i).subscribers[i];
            && (|given| < |run.events| ==> next.AtYield? && next.yielded == run.events[..|given| + 1])
            && (|given| == |run.events| ==> next.yielded == run.events)
            && (next.Finished? <==> |given| == |run.events| && run.finalized)
            && (next.Blocked? <==> |given| == |run.events| && !run.finalized)
  {
    assert SubscriberInv(run, run.subscribers[i]);
  }

  /** Lets subscriber i run on its own. */
  function AdvanceToEnd(run: Run, i: nat, steps: nat): Run
    decreases steps
  {
    if steps == 0 || !CanAdvance(run, i) then run else AdvanceToEnd(Advance(run, i), i, steps - 1)
  }

  /** Once the run is finalized every subscriber can go on by itself until it
      returns, and it has then been given exactly the log. */
  lemma {:induction false} SubscriberFinishes(run: Run, i: nat, steps: nat)
    requires FeedInv(run) && run.finalized && i < |run.subscribers| && steps >= Remaining(run, i)
    ensures AdvanceToEnd(run, i, steps).subscribers != []
    ensures var last := AdvanceToEnd(run, i, steps);
            i < |last.subscribers| && last.subscribers[i] == Finished(run.events)
    decreases steps
  {
    assert SubscriberInv(run, run.subscribers[i]);
    if !run.subscribers[i].Finished? {
      AdvanceFeed(run, i);
      SubscriberFinishes(Advance(run, i), i, steps - 1);
    }
  }
}
