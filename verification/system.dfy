/** The whole system: one store, any number of runs and writers. */
module Systems {
  import opened Prelude
  import opened Conversation
  import opened RunEvents
  import opened Runs
  import opened RunProperties
  import opened RunLoop
  import opened RunOutcomes
  import opened Store
  import opened StoreProperties
  import opened StoreRuns

  // ----- State and steps -----

  /** A run in the memory of its owner. `shaped` says that its provider streams
      have so far been a start, then updates, then a terminal event. */
  datatype Live = Live(sessionId: string, runId: string, run: Run, shaped: bool)

  datatype System = System(db: Db, live: seq<Live>)

  /** What may happen next, in any order. `now` is what the clock says; `commits`
      and `readable` say whether the store's commit and read succeed. */
  datatype SystemStep =
    | Transact(op: Operation, now: Time, commits: bool)
    | Accept(sessionId: string, runId: string, prompt: string, typed: bool, now: Time, commits: bool)
    | Answer(k: nat, response: Response)
    | Finalize(k: nat, now: Time, commits: bool, readable: bool)
    | Join(k: nat)
    | Hand(k: nat, subscriber: nat)

  predicate Possible(sys: System, step: SystemStep) {
    match step
    case Transact(op, _, _) => op.Create? || op.Abort? || op.Fork?
    case Accept(_, _, _, _, _, _) => true
    case Answer(k, response) => k < |sys.live| && Enabled(sys.live[k].run, response)
    case Finalize(k, _, _, _) => k < |sys.live| && sys.live[k].run.frame.point.Done? && !sys.live[k].run.finalized
    case Join(k) => k < |sys.live|
    case Hand(k, i) => k < |sys.live| && CanAdvance(sys.live[k].run, i)
  }

  /** What `finish_run` is called with once the task is done. */
  function FinishStep(live: Live, now: Time, commits: bool): Step
    requires live.run.frame.point.Done?
  {
    var outcome := TerminalOutcome(live.run.frame.point.exit);
    Step(Finish(live.sessionId, live.runId, outcome, HealRun(live.run).history.delta), now, commits)
  }

  /** A terminal record's outcome; anything else is a fault. */
  function OutcomeOf(answer: Answer<RunRow>): RunResult {
    match answer
    case Ok(RunRow(_, _, _, _, Terminal(_, outcome))) => Ended(outcome)
    case Ok(_) => Faulted("ended without a terminal record")
    case Err(_) => Faulted("store error")
  }

  /** The result of finalizing: the store's word is authoritative. */
  function FinishResult(db: Db, live: Live, now: Time, commits: bool, readable: bool): RunResult
    requires live.run.frame.point.Done?
  {
    var op := FinishStep(live, now, commits).op;
    var answer := Commit(db, RunFinished(db, op.sessionId, op.runId, op.outcome, op.delta, now), commits).1;
    if answer == Err(RunAlreadyEnded)
    then OutcomeOf(if readable then GetRun(db, live.sessionId, live.runId) else Err(PersistenceError))
    else OutcomeOf(answer)
  }

  function SetRun(sys: System, k: nat, run: Run): System
    requires k < |sys.live|
  {
    sys.(live := sys.live[k := sys.live[k].(run := run)])
  }

  function Next(sys: System, step: SystemStep): System
    requires Possible(sys, step)
  {
    match step
    case Transact(op, now, commits) => sys.(db := Applied(sys.db, Step(op, now, commits)))
    case Accept(sessionId, runId, prompt, typed, now, commits) =>
      var (db, answer) := Commit(sys.db, RunStarted(sys.db, sessionId, runId, prompt, now), commits);
      if answer.Err? then sys
      else
        var run := Accepted(Items(answer.value.committedHistory), prompt, typed);
        System(db, sys.live + [Live(sessionId, runId, run, true)])
    case Answer(k, response) =>
      var live := sys.live[k];
      var shaped := live.shaped && Shaped(live.run, response);
      sys.(live := sys.live[k := live.(run := Resume(live.run, response), shaped := shaped)])
    case Finalize(k, now, commits, readable) =>
      var live := sys.live[k];
      var closed := CloseRun(HealRun(live.run), FinishResult(sys.db, live, now, commits, readable));
      SetRun(sys.(db := Applied(sys.db, FinishStep(live, now, commits))), k, closed)
    case Join(k) => SetRun(sys, k, Subscribe(sys.live[k].run))
    case Hand(k, i) => SetRun(sys, k, Advance(sys.live[k].run, i))
  }

  const INITIAL := System(EMPTY, [])

  /** A run of the system: possible steps from the empty store. */
  predicate Reaches(sys: System, steps: seq<SystemStep>, last: System)
    decreases |steps|
  {
    if steps == [] then sys == last
    else Possible(sys, steps[0]) && Reaches(Next(sys, steps[0]), steps[1..], last)
  }

  // ----- The invariant -----

  /** What a run keeps by itself. */
  ghost predicate RunInv(live: Live) {
    && FeedInv(live.run)
    && (live.shaped ==> LogInv(live.run))
    && (if live.run.finalized
        then live.run.events != [] && live.run.frame.point.Done? && LoopLog(live.run.events)
             && live.run.events[|live.run.events| - 1] == TerminalEvent(live.run.result.value)
        else HistoryInv(live.run) && OutcomeInv(live.run) && LoopInv(live.run))
  }

  /** How a run and its row agree. What the run will commit is the row's prompt
      followed by what its log carries. While the row is active the session's history
      is the run's snapshot. Once the run has a durable result, the row has it too. */
  predicate RowInv(db: Db, live: Live, i: nat) {
    && i < |db.runs| && db.runs[i].id == live.runId && db.runs[i].sessionId == live.sessionId
    && (!live.run.finalized ==> IsReplay(live.run, db.runs[i].prompt))
    && (!live.run.finalized && db.runs[i].status.Active? ==> HistoryItems(db, live.sessionId) == live.run.committed)
    && (live.run.finalized && live.run.result.Some? && live.run.result.value.Ended?
        ==> db.runs[i].status.Terminal? && db.runs[i].status.outcome == live.run.result.value.outcome)
  }

  ghost predicate LiveInv(db: Db, live: Live) {
    RunInv(live) && exists i :: RowInv(db, live, i)
  }

  /** What is left of a run that was cut at some await. */
  ghost predicate CutRun(items: seq<Item>) {
    IsCut(items) && items != [] && items[0].UserMessage?
  }

  ghost predicate RunDelta(delta: seq<Item>) {
    exists cut :: CutRun(cut) && delta == Healed(cut)
  }

  function Flatten(deltas: seq<seq<Item>>): seq<Item> {
    if deltas == [] then [] else Flatten(deltas[..|deltas| - 1]) + deltas[|deltas| - 1]
  }

  ghost predicate AreRuns(items: seq<Item>, deltas: seq<seq<Item>>) {
    items == Flatten(deltas) && forall k :: 0 <= k < |deltas| ==> RunDelta(deltas[k])
  }

  /** A concatenation of whole healed run deltas. */
  ghost predicate MadeOfRuns(items: seq<Item>) {
    exists deltas :: AreRuns(items, deltas)
  }

  ghost predicate HistoriesMade(db: Db) {
    forall sessionId: string :: MadeOfRuns(HistoryItems(db, sessionId))
  }

  ghost predicate HistoriesWellFormed(db: Db) {
    forall sessionId: string :: WellFormed(HistoryItems(db, sessionId))
  }

  ghost predicate SystemInv(sys: System) {
    && StoreInv(sys.db)
    && HistoriesMade(sys.db)
    && (forall k :: 0 <= k < |sys.live| ==> LiveInv(sys.db, sys.live[k]))
  }

  // ----- Histories are made of runs -----

  lemma {:induction false} FlattenConcat(a: seq<seq<Item>>, b: seq<seq<Item>>)
    ensures Flatten(a + b) == Flatten(a) + Flatten(b)
    decreases |b|
  {
    if b == [] {
      assert a + b == a;
    } else {
      assert (a + b)[..|a + b| - 1] == a + b[..|b| - 1];
      FlattenConcat(a, b[..|b| - 1]);
    }
  }

  lemma MadeConcat(a: seq<Item>, b: seq<Item>)
    requires MadeOfRuns(a) && MadeOfRuns(b)
    ensures MadeOfRuns(a + b)
  {
    var da :| AreRuns(a, da);
    var db :| AreRuns(b, db);
    FlattenConcat(da, db);
    assert AreRuns(a + b, da + db);
  }

  lemma NothingIsMade()
    ensures MadeOfRuns([])
  {
    assert AreRuns([], []);
  }

  lemma OneRunIsMade(delta: seq<Item>)
    requires RunDelta(delta)
    ensures MadeOfRuns(delta)
  {
    assert Flatten([delta]) == Flatten([]) + delta;
    assert AreRuns(delta, [delta]);
  }

  lemma HistoriesExtend(before: Db, after: Db, sessionId: string, added: seq<Item>)
    requires HistoriesMade(before) && MadeOfRuns(added) && Appended(before, after, sessionId, added)
    ensures HistoriesMade(after)
  {
    forall other: string
      ensures MadeOfRuns(HistoryItems(after, other))
    {
      assert MadeOfRuns(HistoryItems(before, other));
      if other == sessionId {
        MadeConcat(HistoryItems(before, sessionId), added);
      }
    }
  }

  lemma StepMade(db: Db, step: Step)
    requires StoreInv(db) && HistoriesMade(db) && (step.op.Finish? ==> RunDelta(step.op.delta))
    ensures HistoriesMade(Applied(db, step))
  {
    StepKeeps(db, step);
    NothingIsMade();
    if step.op.Finish? {
      OneRunIsMade(step.op.delta);
    }
    HistoriesExtend(db, Applied(db, step), Touched(step.op), if Extends(db, step) then Gain(db, step.op) else []);
  }

  /** Healing asks for nothing. */
  lemma HealedCalls(cut: seq<Item>)
    ensures AllCalls(Healed(cut)) == AllCalls(cut)
  {
    var results := HealingResults(cut);
    AllCallsConcat(cut, results);
    ResultsAreNoCalls(results);
    assert AllCalls(cut) + [] == AllCalls(cut);
  }

  /** A healed delta whose calls have distinct ids is well-formed. */
  lemma DistinctRunWellFormed(delta: seq<Item>)
    requires RunDelta(delta) && DistinctIds(AllCalls(delta))
    ensures WellFormed(delta)
  {
    var cut :| CutRun(cut) && delta == Healed(cut);
    HealedCalls(cut);
    HealingWithDistinctIds(cut);
  }

  /** A history whose runs each have distinct call ids is well-formed. */
  lemma {:induction false} DistinctRunsWellFormed(items: seq<Item>, deltas: seq<seq<Item>>)
    requires AreRuns(items, deltas)
    requires forall k :: 0 <= k < |deltas| ==> DistinctIds(AllCalls(deltas[k]))
    ensures WellFormed(items)
    decreases |deltas|
  {
    if deltas != [] {
      var front, last := deltas[..|deltas| - 1], deltas[|deltas| - 1];
      DistinctRunsWellFormed(Flatten(front), front);
      DistinctRunWellFormed(last);
      WellFormedConcat(Flatten(front), last);
    }
  }

  lemma StepWellFormed(db: Db, step: Step)
    requires StoreInv(db) && HistoriesWellFormed(db) && (step.op.Finish? ==> WellFormed(step.op.delta))
    ensures HistoriesWellFormed(Applied(db, step))
  {
    StepKeeps(db, step);
    var added := if Extends(db, step) then Gain(db, step.op) else [];
    forall other: string
      ensures WellFormed(HistoryItems(Applied(db, step), other))
    {
      assert WellFormed(HistoryItems(db, other));
      WellFormedConcat(HistoryItems(db, other), added);
    }
  }

  // ----- Runs and their rows -----

  /** A transaction leaves every run in agreement with its row. */
  lemma RowKept(db: Db, step: Step, live: Live, i: nat)
    requires StoreInv(db) && RowInv(db, live, i)
    ensures RowInv(Applied(db, step), live, i)
  {
    StepLater(db, step);
    assert RunLater(db.runs[i], Applied(db, step).runs[i]);
    if Applied(db, step).runs[i].status.Active? {
      StepFreezes(db, step, i);
    }
  }

  lemma LivesKept(sys: System, step: Step)
    requires SystemInv(sys)
    ensures forall k :: 0 <= k < |sys.live| ==> LiveInv(Applied(sys.db, step), sys.live[k])
  {
    forall k | 0 <= k < |sys.live|
      ensures LiveInv(Applied(sys.db, step), sys.live[k])
    {
      assert LiveInv(sys.db, sys.live[k]);
      var i: nat :| RowInv(sys.db, sys.live[k], i);
      RowKept(sys.db, step, sys.live[k], i);
    }
  }

  lemma TransactKeeps(sys: System, step: Step)
    requires SystemInv(sys) && (step.op.Finish? ==> RunDelta(step.op.delta))
    ensures SystemInv(sys.(db := Applied(sys.db, step)))
  {
    StepKeeps(sys.db, step);
    StepMade(sys.db, step);
    LivesKept(sys, step);
  }

  /** Replaces one run. */
  lemma SetKeeps(sys: System, k: nat, live: Live)
    requires SystemInv(sys) && k < |sys.live| && LiveInv(sys.db, live)
    ensures SystemInv(sys.(live := sys.live[k := live]))
  {
  }

  /** A run that was just accepted. */
  lemma AcceptedRun(sessionId: string, runId: string, committed: seq<Item>, prompt: string, typed: bool)
    ensures RunInv(Live(sessionId, runId, Accepted(committed, prompt, typed), true))
    ensures !Accepted(committed, prompt, typed).finalized && Accepted(committed, prompt, typed).committed == committed
  {
    AcceptedHistory(committed, prompt, typed);
    AcceptedLog(committed, prompt, typed);
    AcceptedOutcome(committed, prompt, typed);
    AcceptedLoop(committed, prompt, typed);
  }

  lemma AddKeeps(sys: System, live: Live)
    requires SystemInv(sys) && LiveInv(sys.db, live)
    ensures SystemInv(sys.(live := sys.live + [live]))
  {
  }

  lemma AcceptKeeps(sys: System, step: SystemStep)
    requires SystemInv(sys) && step.Accept?
    ensures SystemInv(Next(sys, step))
  {
    var db := sys.db;
    var started := RunStarted(db, step.sessionId, step.runId, step.prompt, step.now);
    if started.1.Ok? && step.commits {
      var start := Step(Start(step.sessionId, step.runId, step.prompt), step.now, true);
      TransactKeeps(sys, start);
      var committed := Items(started.1.value.committedHistory);
      var live := Live(step.sessionId, step.runId, Accepted(committed, step.prompt, step.typed), true);
      AcceptedReplay(committed, step.prompt, step.typed);
      AcceptedRun(step.sessionId, step.runId, committed, step.prompt, step.typed);
      assert RowInv(started.0, live, |db.runs|);
      AddKeeps(sys.(db := started.0), live);
    }
  }

  lemma AnswerKeeps(sys: System, k: nat, response: Response)
    requires SystemInv(sys) && Possible(sys, Answer(k, response))
    ensures SystemInv(Next(sys, Answer(k, response)))
  {
    var live := sys.live[k];
    assert LiveInv(sys.db, live);
    var i: nat :| RowInv(sys.db, live, i);
    var next := Next(sys, Answer(k, response)).live[k];
    AnsweredRun(live, response);
    ResumeReplay(live.run, response, sys.db.runs[i].prompt);
    assert RowInv(sys.db, next, i);
    SetKeeps(sys, k, next);
  }

  lemma AnsweredRun(live: Live, response: Response)
    requires RunInv(live) && Enabled(live.run, response)
    ensures var next := Resume(live.run, response);
            && RunInv(live.(run := next, shaped := live.shaped && Shaped(live.run, response)))
            && next.committed == live.run.committed && !next.finalized && !live.run.finalized
  {
    assert !live.run.finalized;
    ResumeHistory(live.run, response);
    ResumeFeed(live.run, response);
    ResumeOutcome(live.run, response);
    ResumeLoop(live.run, response);
    if live.shaped && Shaped(live.run, response) {
      ResumeLog(live.run, response);
    }
  }

  /** Closing a run adds its terminal event. */
  lemma ClosedRun(live: Live, result: RunResult)
    requires RunInv(live) && !live.run.finalized && live.run.frame.point.Done?
    ensures RunInv(live.(run := CloseRun(HealRun(live.run), result)))
    ensures RunDelta(HealRun(live.run).history.delta)
  {
    HealRunHistory(live.run);
    assert CutRun(live.run.history.delta);
    var healed := HealRun(live.run);
    assert FeedInv(healed) by {
      forall i | 0 <= i < |healed.subscribers|
        ensures SubscriberInv(healed, healed.subscribers[i])
      {
        assert SubscriberInv(live.run, live.run.subscribers[i]);
      }
    }
    CloseFeed(healed, result);
    CloseLoop(healed, result);
    if live.shaped {
      CloseLog(healed, result);
    }
  }

  /** Once finalized, a run that did not fault has the store's own outcome. */
  lemma ResultIsRecorded(db: Db, live: Live, i: nat, now: Time, commits: bool, readable: bool)
    requires StoreInv(db) && RowInv(db, live, i) && live.run.frame.point.Done? && !live.run.finalized
    ensures var result := FinishResult(db, live, now, commits, readable);
            RowInv(Applied(db, FinishStep(live, now, commits)),
                   live.(run := CloseRun(HealRun(live.run), result)), i)
  {
    hide FindSession, FindRun, RowsOf, OrderByPosition, HistoryItems;
    var step := FinishStep(live, now, commits);
    assert FindRun(db.runs, live.sessionId, live.runId) == Some(i);
    if db.runs[i].status.Active? {
      EndKeeps(db, i, step.op.outcome, step.op.delta, now);
    }
  }

  lemma FinalizeKeeps(sys: System, k: nat, now: Time, commits: bool, readable: bool)
    requires SystemInv(sys) && Possible(sys, Finalize(k, now, commits, readable))
    ensures SystemInv(Next(sys, Finalize(k, now, commits, readable)))
  {
    var live, result := sys.live[k], FinishResult(sys.db, sys.live[k], now, commits, readable);
    var step := FinishStep(live, now, commits);
    assert LiveInv(sys.db, live);
    var i: nat :| RowInv(sys.db, live, i);
    ClosedRun(live, result);
    TransactKeeps(sys, step);
    ResultIsRecorded(sys.db, live, i, now, commits, readable);
    var closed := live.(run := CloseRun(HealRun(live.run), result));
    assert LiveInv(Applied(sys.db, step), closed);
    SetKeeps(sys.(db := Applied(sys.db, step)), k, closed);
  }

  lemma SameHistoryInv(a: Run, b: Run)
    requires HistoryInv(a) && a.committed == b.committed && a.history == b.history && a.frame == b.frame
    requires OutcomeInv(a) && a.events == b.events && a.typed == b.typed
    ensures HistoryInv(b) && OutcomeInv(b)
    ensures LoopInv(a) ==> LoopInv(b)
  {
  }

  /** A subscriber's step touches nothing but the feed. */
  lemma FeedRun(live: Live, run: Run)
    requires RunInv(live) && FeedInv(run)
    requires run == live.run.(subscribers := run.subscribers, changed := run.changed)
    ensures RunInv(live.(run := run))
  {
    if !run.finalized {
      SameHistoryInv(live.run, run);
    }
  }

  lemma FeedKeeps(sys: System, k: nat, run: Run)
    requires SystemInv(sys) && k < |sys.live| && FeedInv(run)
    requires run == sys.live[k].run.(subscribers := run.subscribers, changed := run.changed)
    ensures SystemInv(SetRun(sys, k, run))
  {
    var live, next := sys.live[k], sys.live[k].(run := run);
    assert LiveInv(sys.db, live);
    var i: nat :| RowInv(sys.db, live, i);
    FeedRun(live, run);
    assert RowInv(sys.db, next, i);
    SetKeeps(sys, k, next);
  }

  /** Every step of the system keeps the invariant. */
  lemma NextKeeps(sys: System, step: SystemStep)
    requires SystemInv(sys) && Possible(sys, step)
    ensures SystemInv(Next(sys, step))
  {
    match step
    case Transact(op, now, commits) => TransactKeeps(sys, Step(op, now, commits));
    case Accept(_, _, _, _, _, _) => AcceptKeeps(sys, step);
    case Answer(k, response) => AnswerKeeps(sys, k, response);
    case Finalize(k, now, commits, readable) => FinalizeKeeps(sys, k, now, commits, readable);
    case Join(k) =>
      SubscribeFeed(sys.live[k].run);
      FeedKeeps(sys, k, Subscribe(sys.live[k].run));
    case Hand(k, i) =>
      AdvanceFeed(sys.live[k].run, i);
      FeedKeeps(sys, k, Advance(sys.live[k].run, i));
  }

  lemma {:induction false} ReachedKeeps(sys: System, steps: seq<SystemStep>, last: System)
    requires SystemInv(sys) && Reaches(sys, steps, last)
    ensures SystemInv(last)
    decreases |steps|
  {
    if steps != [] {
      NextKeeps(sys, steps[0]);
      ReachedKeeps(Next(sys, steps[0]), steps[1..], last);
    }
  }

  lemma InitialInv()
    ensures SystemInv(INITIAL)
  {
    NothingIsMade();
    forall sessionId: string
      ensures HistoryItems(EMPTY, sessionId) == []
    {
    }
  }

  /** Every reachable system: whatever the interleaving, the clock, the failures
      and the points of cancellation. */
  lemma ReachableSystem(steps: seq<SystemStep>, last: System)
    requires Reaches(INITIAL, steps, last)
    ensures SystemInv(last)
  {
    InitialInv();
    ReachedKeeps(INITIAL, steps, last);
  }

  // ----- Well-formed histories -----

  /** Are the call ids of every run that gets finalized distinct? */
  predicate DistinctCalls(sys: System, steps: seq<SystemStep>)
    decreases |steps|
  {
    steps == [] ||
    (Possible(sys, steps[0])
     && (steps[0].Finalize? ==> DistinctIds(AllCalls(sys.live[steps[0].k].run.history.delta)))
     && DistinctCalls(Next(sys, steps[0]), steps[1..]))
  }

  lemma NextWellFormed(sys: System, step: SystemStep)
    requires SystemInv(sys) && HistoriesWellFormed(sys.db) && Possible(sys, step)
    requires step.Finalize? ==> DistinctIds(AllCalls(sys.live[step.k].run.history.delta))
    ensures HistoriesWellFormed(Next(sys, step).db)
  {
    match step
    case Transact(op, now, commits) => StepWellFormed(sys.db, Step(op, now, commits));
    case Accept(sessionId, runId, prompt, _, now, commits) =>
      StepWellFormed(sys.db, Step(Start(sessionId, runId, prompt), now, commits));
    case Finalize(k, now, commits, _) =>
      assert LiveInv(sys.db, sys.live[k]);
      HealRunHistory(sys.live[k].run);
      StepWellFormed(sys.db, FinishStep(sys.live[k], now, commits));
    case _ =>
  }

  lemma {:induction false} ReachedWellFormed(sys: System, steps: seq<SystemStep>, last: System)
    requires SystemInv(sys) && HistoriesWellFormed(sys.db) && Reaches(sys, steps, last) && DistinctCalls(sys, steps)
    ensures HistoriesWellFormed(last.db)
    decreases |steps|
  {
    if steps != [] {
      NextKeeps(sys, steps[0]);
      NextWellFormed(sys, steps[0]);
      ReachedWellFormed(Next(sys, steps[0]), steps[1..], last);
    }
  }

  /** With distinct call ids within each run, in every session of every reachable
      store each assistant turn is immediately followed by exactly one result per
      tool call, in call order. */
  lemma ReachableHistoriesWellFormed(steps: seq<SystemStep>, last: System)
    requires Reaches(INITIAL, steps, last) && DistinctCalls(INITIAL, steps)
    ensures HistoriesWellFormed(last.db)
  {
    InitialInv();
    forall sessionId: string
      ensures HistoryItems(EMPTY, sessionId) == []
    {
    }
    ReachedWellFormed(INITIAL, steps, last);
  }

  // ----- Finishing -----

  /** Does the store record this finish? */
  predicate Recorded(sys: System, k: nat, now: Time, commits: bool)
    requires k < |sys.live| && sys.live[k].run.frame.point.Done?
  {
    Extends(sys.db, FinishStep(sys.live[k], now, commits))
  }

  /** A recorded finish leaves exactly what the run's provider saw, healed: the
      started snapshot followed by the delta. */
  lemma FinishedHistory(sys: System, k: nat, now: Time, commits: bool, readable: bool)
    requires SystemInv(sys) && Possible(sys, Finalize(k, now, commits, readable)) && Recorded(sys, k, now, commits)
    ensures var live, next := sys.live[k], Next(sys, Finalize(k, now, commits, readable));
            && HistoryItems(next.db, live.sessionId) == live.run.committed + Healed(live.run.history.delta)
            && HistoryItems(next.db, live.sessionId) == next.live[k].run.history.working
            && next.live[k].run.result == Some(Ended(TerminalOutcome(live.run.frame.point.exit)))
            && Appended(sys.db, next.db, live.sessionId, Healed(live.run.history.delta))
  {
    hide FindSession, FindRun, RowsOf, OrderByPosition, HistoryItems, Healed;
    var live, step := sys.live[k], FinishStep(sys.live[k], now, commits);
    assert LiveInv(sys.db, live);
    var i: nat :| RowInv(sys.db, live, i);
    assert FindRun(sys.db.runs, live.sessionId, live.runId) == Some(i);
    HealRunHistory(live.run);
    StepGain(sys.db, step);
  }

  /** A refused or failed finish changes nothing in the store. */
  lemma FencedFinish(sys: System, k: nat, now: Time, commits: bool, readable: bool)
    requires SystemInv(sys) && Possible(sys, Finalize(k, now, commits, readable)) && !Recorded(sys, k, now, commits)
    ensures Next(sys, Finalize(k, now, commits, readable)).db == sys.db
  {
  }

  /** A finish is recorded exactly when the run's row is still active and the
      commit succeeds; a run that was ended meanwhile takes the recorded outcome. */
  lemma RecordedExactly(sys: System, k: nat, now: Time, commits: bool, readable: bool, i: nat)
    requires SystemInv(sys) && Possible(sys, Finalize(k, now, commits, readable)) && RowInv(sys.db, sys.live[k], i)
    ensures Recorded(sys, k, now, commits) <==> commits && sys.db.runs[i].status.Active?
    ensures sys.db.runs[i].status.Terminal? && readable
        ==> FinishResult(sys.db, sys.live[k], now, commits, readable) == Ended(sys.db.runs[i].status.outcome)
  {
    hide FindSession, FindRun, RowsOf, OrderByPosition, HistoryItems, Healed;
    var live, op := sys.live[k], FinishStep(sys.live[k], now, commits).op;
    FoundAt(sys.db.runs, i);
    if sys.db.runs[i].status.Active? {
      EndKeeps(sys.db, i, op.outcome, op.delta, now);
    }
  }

  /** Every call of a provider by a run that still owns its session is given the
      session's stored history followed by what the run will commit. */
  lemma ProviderSeesTheStore(sys: System, k: nat)
    requires SystemInv(sys) && k < |sys.live| && sys.live[k].run.frame.point == AtOpen && !sys.live[k].run.finalized
    requires exists i: nat :: RowInv(sys.db, sys.live[k], i) && sys.db.runs[i].status.Active?
    ensures sys.live[k].run.frame.runHistory
         == HistoryItems(sys.db, sys.live[k].sessionId) + sys.live[k].run.history.delta
  {
  }

  /** What a recorded finish stores: the cancellation, the failure, or the result
      that the run's log justifies. */
  lemma StoredOutcome(sys: System, k: nat, now: Time, commits: bool, readable: bool)
    requires SystemInv(sys) && Possible(sys, Finalize(k, now, commits, readable)) && Recorded(sys, k, now, commits)
    ensures var run, next := sys.live[k].run, Next(sys, Finalize(k, now, commits, readable));
            && next.live[k].run.result.Some? && next.live[k].run.result.value.Ended?
            && (next.live[k].run.result.value.outcome == Aborted <==> run.frame.point.exit == Cancelled)
            && (run.frame.point.exit.Returned? ==> Justified(run, next.live[k].run.result.value.outcome))
  {
    assert LiveInv(sys.db, sys.live[k]);
    FinishedHistory(sys, k, now, commits, readable);
    AbortedMeansCancelled(sys.live[k].run);
  }

  lemma FinalizedStep(sys: System, step: SystemStep, k: nat)
    requires SystemInv(sys) && Possible(sys, step) && k < |sys.live| && sys.live[k].run.finalized
    ensures k < |Next(sys, step).live|
    ensures SameEnd(sys.live[k], Next(sys, step).live[k])
  {
    hide FindSession, FindActive, FindRunId, FindRun, RowsOf, OrderByPosition;
    assert LiveInv(sys.db, sys.live[k]);
    if step.Hand? {
      assert LiveInv(sys.db, sys.live[step.k]);
      AdvanceFeed(sys.live[step.k].run, step.subscriber);
    }
  }

  predicate SameEnd(a: Live, b: Live) {
    && a.runId == b.runId && a.sessionId == b.sessionId
    && a.run.finalized && b.run.finalized && a.run.result == b.run.result && a.run.events == b.run.events
  }

  /** A finalized run keeps its result and its log for ever. */
  lemma {:induction false} FinalizedStays(sys: System, steps: seq<SystemStep>, last: System, k: nat)
    requires SystemInv(sys) && Reaches(sys, steps, last) && k < |sys.live| && sys.live[k].run.finalized
    ensures k < |last.live| && SameEnd(sys.live[k], last.live[k])
    decreases |steps|
  {
    if steps != [] {
      NextKeeps(sys, steps[0]);
      FinalizedStep(sys, steps[0], k);
      FinalizedStays(Next(sys, steps[0]), steps[1..], last, k);
    }
  }

  /** From a run's finalization on: its terminal event is the one `wait` returns,
      and, unless it faulted, the store's terminal record says the same. */
  lemma ResultAgrees(steps: seq<SystemStep>, last: System, k: nat)
    requires Reaches(INITIAL, steps, last) && k < |last.live| && last.live[k].run.finalized
    ensures var run := last.live[k].run;
            && run.result.Some? && run.events != []
            && run.events[|run.events| - 1] == TerminalEvent(run.result.value)
            && (run.result.value.Ended?
                ==> exists i :: 0 <= i < |last.db.runs| && last.db.runs[i].id == last.live[k].runId
                          && last.db.runs[i].status.Terminal?
                          && last.db.runs[i].status.outcome == run.result.value.outcome)
  {
    ReachableSystem(steps, last);
    assert LiveInv(last.db, last.live[k]);
    var i: nat :| RowInv(last.db, last.live[k], i);
    assert last.db.runs[i].id == last.live[k].runId;
  }

  /** The log of every run, finished or not: a provider is asked again exactly
      after turns that ran tools of which none terminates; attempts end, and
      reminders follow, only after other turns. */
  lemma LoopLogs(steps: seq<SystemStep>, last: System, k: nat)
    requires Reaches(INITIAL, steps, last) && k < |last.live|
    ensures LoopLog(last.live[k].run.events)
  {
    ReachableSystem(steps, last);
    assert LiveInv(last.db, last.live[k]);
  }

  /** Every finished log of a run with shaped provider streams: a run start, a
      prefix of the grammar with at most nine attempts, one terminal event. */
  lemma FinishedLogs(steps: seq<SystemStep>, last: System, k: nat)
    requires Reaches(INITIAL, steps, last) && k < |last.live| && last.live[k].run.finalized && last.live[k].shaped
    ensures var events := last.live[k].run.events;
            && events != [] && events[0] == RunStart && PhaseOf(events) == Closed
            && (forall i :: 0 <= i < |events| - 1 ==> !IsTerminal(events[i]))
            && CountStarts(events) <= 9
  {
    ReachableSystem(steps, last);
    assert LiveInv(last.db, last.live[k]);
    FinishedLog(last.live[k].run);
  }
}
