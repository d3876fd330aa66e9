/** The object that owns one run: its log, histories and task, updated in place. */
module RunExecutions {
  import opened Prelude
  import opened Conversation
  import opened RunEvents
  import opened Runs
  import opened Store
  import opened StoreRuns
  import opened Systems

  class RunExecution {
    const typed: bool
    const committed: seq<Item>
    const history: RunHistory
    var log: seq<Event>
    var changed: bool
    var finalized: bool
    var result: Option<RunResult>
    var subscribers: seq<Subscriber>
    // The suspended task.
    var point: Point
    var attempt: nat
    var runHistory: seq<Item>
    var executions: seq<ToolOutcome>

    ghost function View(): Run
      reads this, history
    {
      Run(typed, committed, log, history.View(), changed, finalized, result, subscribers,
          Frame(point, attempt, runHistory, executions))
    }

    constructor (typed: bool, committed: seq<Item>, prompt: string)
      ensures View() == Accepted(committed, prompt, typed) && fresh(history)
    {
      this.typed, this.committed := typed, committed;
      history := new RunHistory.Start(committed, prompt);
      log, changed, finalized, result, subscribers := [], false, false, None, [];
      point, attempt, runHistory, executions := AtAttempt, 0, [], [];
      new;
      Emit(RunStart);
    }

    /** Publishes an event: the histories first, then the log, then the wake-up. */
    method Emit(event: Event)
      modifies this, history
      ensures View() == Runs.Emit(old(View()), event)
    {
      history.Observe(event);
      log := log + [event];
      if !changed {
        changed := true;
        subscribers := Wake(subscribers);
      }
    }

    // ----- The task, from one await to the next -----

    method BeginAttempt()
      modifies this, history
      ensures View() == Runs.BeginAttempt(old(View()))
    {
      Emit(AgentStart);
      runHistory := history.working;
      executions := [];
      point := AtOpen;
    }

    method HandleStreamEvent(event: StreamEvent)
      modifies this, history
      ensures View() == Runs.HandleStreamEvent(old(View()), event)
    {
      match event
      case StreamStart(responseId) =>
        Emit(TurnStart);
        Emit(MessageStart(responseId));
      case StreamUpdate(update) =>
        Emit(MessageUpdate(update));
      case StreamDone(blocks) =>
        var turn := AssistantTurn(blocks, TurnCompleted);
        Emit(MessageEnd(turn));
        ExecuteTools(turn, []);
      case StreamError(blocks, status, message) =>
        Emit(MessageEnd(AssistantTurn(blocks, if status == TurnAborted then TurnAborted else TurnError)));
        point := AtClose(Reraise(TurnFailed(message)));
    }

    /** Goes on with the turn's tool calls, of which some have their outcome. */
    method ExecuteTools(turn: AssistantTurn, outcomes: seq<ToolOutcome>)
      modifies this, history
      ensures View() == NextTool(old(View()), turn, outcomes)
    {
      var calls := ToolCalls(turn.blocks);
      if |outcomes| < |calls| {
        Emit(ToolStart(calls[|outcomes|]));
        point := AtTool(turn, outcomes);
      } else {
        Emit(TurnEnd(turn, outcomes));
        point := AtClose(Conclude(turn, outcomes));
      }
    }

    method ToolReturned(turn: AssistantTurn, outcomes: seq<ToolOutcome>, r: Response)
      requires r.ToolDone? && |outcomes| < |ToolCalls(turn.blocks)|
      modifies this, history
      ensures View() == Runs.ToolReturned(old(View()), turn, outcomes, r)
    {
      var call := ToolCalls(turn.blocks)[|outcomes|];
      var outcome := ToolOutcome(ToolResult(call.callId, call.name, r.content, r.isError), r.details, r.terminate);
      Emit(ToolEnd(outcome));
      ExecuteTools(turn, outcomes + [outcome]);
    }

    /** One round of the agent's loop is over. */
    method ConcludeTurn(turn: AssistantTurn, outcomes: seq<ToolOutcome>)
      modifies this, history
      ensures View() == Concluded(old(View()), turn, outcomes)
    {
      runHistory := runHistory + TurnItems(turn, outcomes);
      executions := executions + outcomes;
      if ShouldContinue(outcomes) {
        point := AtOpen;
      } else {
        EndAttempt(turn);
      }
    }

    /** One round of the typed-result loop is over. */
    method EndAttempt(turn: AssistantTurn)
      modifies this, history
      ensures View() == Runs.EndAttempt(old(View()), turn)
    {
      Emit(AgentEnd);
      if !typed {
        point := Done(Returned(Completed(JoinTexts(Texts(turn.blocks)))));
        return;
      }
      var outcome := ResultOutcome(executions);
      if outcome.Some? {
        point := Done(Returned(outcome.value));
      } else if attempt < MAX_RESULT_FOLLOW_UPS {
        Emit(ResultFollowUp(RESULT_FOLLOW_UP));
        point, attempt, runHistory, executions := AtAttempt, attempt + 1, [], [];
      } else {
        point := Done(Returned(Failed(AgentFailure(NO_RESULT_REASON))));
      }
    }

    method LeaveStream(then_: Continuation)
      modifies this, history
      ensures View() == AfterClose(old(View()), then_)
    {
      match then_
      case Conclude(turn, outcomes) => ConcludeTurn(turn, outcomes);
      case Reraise(error) => point := Done(Raised(error));
      case Unwind => point := Done(Cancelled);
    }

    /** Whatever the await answers, the code up to the next one. */
    method Resume(r: Response)
      requires Enabled(View(), r)
      modifies this, history
      ensures View() == Runs.Resume(old(View()), r)
    {
      match r
      case Go => BeginAttempt();
      case Opened => point := AtNext;
      case Next(event) => HandleStreamEvent(event);
      case StreamEnd =>
        point := AtClose(Reraise(OtherError("Provider stream ended without a terminal event.")));
      case ToolDone(_, _, _, _) => ToolReturned(point.turn, point.outcomes, r);
      case StreamClosed => LeaveStream(point.then_);
      case Raise(error) => point := if InStream(point) then AtClose(Reraise(error)) else Done(Raised(error));
      case Cancel => point := if InStream(point) then AtClose(Unwind) else Done(Cancelled);
    }

    // ----- Finalizing -----

    /** Heals and commits, or takes the outcome of whoever ended the run before. */
    method Finish(store: SQLiteStore, sessionId: string, runId: string, now: Time, commits: bool, readable: bool)
      returns (outcome: RunResult)
      requires point.Done?
      modifies history, store
      ensures var live := Live(sessionId, runId, old(View()), true);
              && View() == HealRun(old(View()))
              && store.Tables() == Applied(old(store.Tables()), FinishStep(live, now, commits))
              && outcome == FinishResult(old(store.Tables()), live, now, commits, readable)
    {
      history.Heal();
      var answer := store.FinishRun(sessionId, runId, TerminalOutcome(point.exit), history.delta, now, commits);
      if answer == Err(RunAlreadyEnded) {
        var record := if readable then GetRun(store.Tables(), sessionId, runId) else Err(PersistenceError);
        return OutcomeOf(record);
      }
      return OutcomeOf(answer);
    }

    method Finalize(store: SQLiteStore, sessionId: string, runId: string, now: Time, commits: bool, readable: bool)
      requires point.Done?
      modifies this, history, store
      ensures var live := Live(sessionId, runId, old(View()), true);
              var answer := FinishResult(old(store.Tables()), live, now, commits, readable);
              && View() == CloseRun(HealRun(old(View())), answer)
              && store.Tables() == Applied(old(store.Tables()), FinishStep(live, now, commits))
    {
      var outcome := Finish(store, sessionId, runId, now, commits, readable);
      result := Some(outcome);
      Emit(TerminalEvent(outcome));
      finalized := true;
    }

    // ----- Subscribers -----

    method Subscribe()
      modifies this
      ensures View() == Runs.Subscribe(old(View()))
    {
      subscribers := subscribers + [Ready([])];
    }

    /** Lets one consumer of `events` run until it yields, waits or returns. */
    method Advance(i: nat)
      requires CanAdvance(View(), i)
      modifies this
      ensures View() == Runs.Advance(old(View()), i)
    {
      var yielded := subscribers[i].yielded;
      if subscribers[i].Ready? {
        changed := false;
      }
      if |yielded| < |log| {
        subscribers := subscribers[i := AtYield(yielded + [log[|yielded|]])];
      } else if finalized {
        subscribers := subscribers[i := Finished(yielded)];
      } else {
        changed := false;
        subscribers := subscribers[i := Blocked(yielded)];
      }
    }
  }
}
