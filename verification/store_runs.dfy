/** Any sequence of transactions by any writers, under any clock. */
module StoreRuns {
  import opened Prelude
  import opened Conversation
  import opened Store
  import opened StoreProperties

  datatype Operation =
    | Create(id: string)
    | Start(sessionId: string, runId: string, prompt: string)
    | Finish(sessionId: string, runId: string, outcome: RunOutcome, delta: seq<Item>)
    | Abort(sessionId: string)
    | Fork(source: string, target: string)

  /** One transaction: what it does, what the clock says, and whether it commits. */
  datatype Step = Step(op: Operation, now: Time, commits: bool)

  function Applied(db: Db, step: Step): Db {
    match step.op
    case Create(id) => Commit(db, SessionCreated(db, id, step.now), step.commits).0
    case Start(sessionId, runId, prompt) =>
      Commit(db, RunStarted(db, sessionId, runId, prompt, step.now), step.commits).0
    case Finish(sessionId, runId, outcome, delta) =>
      Commit(db, RunFinished(db, sessionId, runId, outcome, delta, step.now), step.commits).0
    case Abort(sessionId) => Commit(db, ActiveRunAborted(db, sessionId, step.now), step.commits).0
    case Fork(source, target) => Commit(db, SessionForked(db, source, target, step.now), step.commits).0
  }

  function AppliedAll(db: Db, steps: seq<Step>): Db {
    if steps == [] then db else Applied(AppliedAll(db, steps[..|steps| - 1]), steps[|steps| - 1])
  }

  const EMPTY := Db([], [], [])

  // ----- What one transaction keeps -----

  /** The only session whose history a transaction may extend. */
  function Touched(op: Operation): string {
    match op
    case Create(id) => id
    case Start(sessionId, _, _) => sessionId
    case Finish(sessionId, _, _, _) => sessionId
    case Abort(sessionId) => sessionId
    case Fork(_, target) => target
  }

  /** Does the transaction extend that history? */
  predicate Extends(db: Db, step: Step) {
    step.commits &&
    match step.op
    case Finish(sessionId, runId, outcome, delta) =>
      RunFinished(db, sessionId, runId, outcome, delta, step.now).1.Ok?
    case Fork(source, target) => SessionForked(db, source, target, step.now).1.Ok?
    case _ => false
  }

  function Gain(db: Db, op: Operation): seq<Item> {
    match op
    case Finish(_, _, _, delta) => delta
    case Fork(source, _) => HistoryItems(db, source)
    case _ => []
  }

  lemma CommitInv<T>(db: Db, step: (Db, Answer<T>), commits: bool)
    requires StoreInv(db) && StoreInv(step.0)
    ensures StoreInv(Commit(db, step, commits).0)
  {
  }

  lemma StepInv(db: Db, step: Step)
    requires StoreInv(db)
    ensures StoreInv(Applied(db, step))
  {
    hide StoreInv;
    match step.op
    case Create(id) =>
      CreateKeeps(db, id, step.now);
      CommitInv(db, SessionCreated(db, id, step.now), step.commits);
    case Start(sessionId, runId, prompt) =>
      StartKeeps(db, sessionId, runId, prompt, step.now);
      CommitInv(db, RunStarted(db, sessionId, runId, prompt, step.now), step.commits);
    case Finish(sessionId, runId, outcome, delta) =>
      FinishKeeps(db, sessionId, runId, outcome, delta, step.now);
      CommitInv(db, RunFinished(db, sessionId, runId, outcome, delta, step.now), step.commits);
    case Abort(sessionId) =>
      AbortKeeps(db, sessionId, step.now);
      CommitInv(db, ActiveRunAborted(db, sessionId, step.now), step.commits);
    case Fork(source, target) =>
      ForkKeeps(db, source, target, step.now);
      CommitInv(db, SessionForked(db, source, target, step.now), step.commits);
  }

  lemma SameItems(before: Db, after: Db, sessionId: string)
    requires after.items == before.items
    ensures Appended(before, after, sessionId, [])
  {
  }

  lemma StepGain(db: Db, step: Step)
    requires StoreInv(db) && Extends(db, step)
    ensures Appended(db, Applied(db, step), Touched(step.op), Gain(db, step.op))
  {
    if step.op.Finish? {
      FinishKeeps(db, step.op.sessionId, step.op.runId, step.op.outcome, step.op.delta, step.now);
    } else {
      ForkKeeps(db, step.op.source, step.op.target, step.now);
    }
  }

  lemma StepElse(db: Db, step: Step)
    requires StoreInv(db) && !Extends(db, step)
    ensures Appended(db, Applied(db, step), Touched(step.op), [])
  {
    if step.op.Abort? && step.commits {
      AbortKeeps(db, step.op.sessionId, step.now);
    } else {
      SameItems(db, Applied(db, step), Touched(step.op));
    }
  }

  /** Every transaction keeps the invariant, and changes one history at most, by
      appending the given items to it. */
  lemma StepKeeps(db: Db, step: Step)
    requires StoreInv(db)
    ensures StoreInv(Applied(db, step))
    ensures Appended(db, Applied(db, step), Touched(step.op), if Extends(db, step) then Gain(db, step.op) else [])
  {
    StepInv(db, step);
    if Extends(db, step) {
      StepGain(db, step);
    } else {
      StepElse(db, step);
    }
  }

  /** A run's row only ever goes from active to terminal. */
  predicate RunLater(before: RunRow, after: RunRow) {
    if before.status.Terminal? then after == before else after.(status := Active) == before
  }

  predicate SessionLater(before: SessionRow, after: SessionRow) {
    after.id == before.id && after.createdAt == before.createdAt && before.updatedAt <= after.updatedAt
  }

  /** Nothing is ever deleted or rewritten. */
  predicate Later(before: Db, after: Db) {
    && |before.sessions| <= |after.sessions| && |before.runs| <= |after.runs|
    && (forall i :: 0 <= i < |before.sessions| ==> SessionLater(before.sessions[i], after.sessions[i]))
    && (forall i :: 0 <= i < |before.runs| ==> RunLater(before.runs[i], after.runs[i]))
    && before.items <= after.items
  }

  lemma EndLater(db: Db, i: nat, outcome: RunOutcome, delta: seq<Item>, now: Time)
    requires i < |db.runs| && db.runs[i].status.Active?
    ensures Later(db, RunEndedAt(db, i, outcome, delta, now).0)
  {
  }

  lemma StepLater(db: Db, step: Step)
    ensures Later(db, Applied(db, step))
  {
    hide FindSession, FindActive, FindRunId, FindRun, RowsOf, OrderByPosition;
    match step.op
    case Finish(sessionId, runId, outcome, delta) =>
      var i := FindRun(db.runs, sessionId, runId);
      if i.Some? && db.runs[i.value].status.Active? {
        EndLater(db, i.value, outcome, delta, step.now);
      }
    case Abort(sessionId) =>
      var i := FindActive(db.runs, sessionId);
      if i.Some? {
        EndLater(db, i.value, Aborted, [], step.now);
      }
    case _ =>
  }

  lemma LaterTrans(a: Db, b: Db, c: Db)
    requires Later(a, b) && Later(b, c)
    ensures Later(a, c)
  {
    forall i | 0 <= i < |a.sessions|
      ensures SessionLater(a.sessions[i], c.sessions[i])
    {
      assert SessionLater(b.sessions[i], c.sessions[i]);
    }
    forall i | 0 <= i < |a.runs|
      ensures RunLater(a.runs[i], c.runs[i])
    {
      assert RunLater(b.runs[i], c.runs[i]);
    }
  }

  // ----- What any sequence of transactions keeps -----

  /** Nothing is deleted or rewritten: terminal runs never change. */
  lemma {:induction false} ReachableIsLater(db: Db, steps: seq<Step>)
    ensures Later(db, AppliedAll(db, steps))
  {
    if steps != [] {
      var front := steps[..|steps| - 1];
      ReachableIsLater(db, front);
      StepLater(AppliedAll(db, front), steps[|steps| - 1]);
      LaterTrans(db, AppliedAll(db, front), AppliedAll(db, steps));
    }
  }

  lemma {:induction false} AllKeep(db: Db, steps: seq<Step>)
    requires StoreInv(db)
    ensures StoreInv(AppliedAll(db, steps))
  {
    if steps != [] {
      AllKeep(db, steps[..|steps| - 1]);
      StepKeeps(AppliedAll(db, steps[..|steps| - 1]), steps[|steps| - 1]);
    }
  }

  /** Every reachable store. */
  lemma ReachableStore(steps: seq<Step>)
    ensures StoreInv(AppliedAll(EMPTY, steps))
  {
    AllKeep(EMPTY, steps);
  }

  /** Histories only grow. */
  lemma HistoriesGrow(before: Db, after: Db, sessionId: string)
    requires StoreInv(before) && StoreInv(after) && Later(before, after)
    ensures HistoryItems(before, sessionId) <= HistoryItems(after, sessionId)
  {
    var added := after.items[|before.items|..];
    assert after.items == before.items + added;
    RowsOfConcat(before.items, added, sessionId);
    HistoryIsRows(before, sessionId);
    HistoryIsRows(after, sessionId);
    ItemsConcat(RowsOf(before.items, sessionId), RowsOf(added, sessionId));
  }

  /** A session that no transaction touches keeps its history. */
  lemma {:induction false} UntouchedHistory(db: Db, steps: seq<Step>, sessionId: string)
    requires StoreInv(db) && forall i :: 0 <= i < |steps| ==> Touched(steps[i].op) != sessionId
    ensures HistoryItems(AppliedAll(db, steps), sessionId) == HistoryItems(db, sessionId)
  {
    if steps != [] {
      var front := steps[..|steps| - 1];
      assert forall i :: 0 <= i < |front| ==> Touched(front[i].op) == Touched(steps[i].op);
      UntouchedHistory(db, front, sessionId);
      AllKeep(db, front);
      StepKeeps(AppliedAll(db, front), steps[|steps| - 1]);
    }
  }

  /** A fork has its source's history, and from then on each of the two is
      independent of whatever happens to the other. */
  lemma ForksDiverge(db: Db, source: string, target: string, now: Time, steps: seq<Step>)
    requires StoreInv(db) && SessionForked(db, source, target, now).1.Ok?
    ensures var after := AppliedAll(SessionForked(db, source, target, now).0, steps);
            && ((forall i :: 0 <= i < |steps| ==> Touched(steps[i].op) != target)
                ==> HistoryItems(after, target) == HistoryItems(db, source))
            && ((forall i :: 0 <= i < |steps| ==> Touched(steps[i].op) != source)
                ==> HistoryItems(after, source) == HistoryItems(db, source))
  {
    var forked := SessionForked(db, source, target, now).0;
    ForkKeeps(db, source, target, now);
    if forall i :: 0 <= i < |steps| ==> Touched(steps[i].op) != target {
      UntouchedHistory(forked, steps, target);
    }
    if forall i :: 0 <= i < |steps| ==> Touched(steps[i].op) != source {
      UntouchedHistory(forked, steps, source);
    }
  }

  // ----- A run owns its session while it is active -----

  /** A transaction that leaves a run active leaves its session's history alone. */
  lemma StepFreezes(db: Db, step: Step, i: nat)
    requires StoreInv(db) && i < |db.runs| && i < |Applied(db, step).runs|
    requires db.runs[i].status.Active? && Applied(db, step).runs[i].status.Active?
    ensures HistoryItems(Applied(db, step), db.runs[i].sessionId) == HistoryItems(db, db.runs[i].sessionId)
  {
    StepKeeps(db, step);
    assert KnownSession(db.sessions, db.runs[i].sessionId);
  }

  lemma {:induction false} ActiveFreezes(db: Db, steps: seq<Step>, i: nat)
    requires StoreInv(db) && i < |db.runs| <= |AppliedAll(db, steps).runs|
    requires AppliedAll(db, steps).runs[i].status.Active?
    ensures HistoryItems(AppliedAll(db, steps), db.runs[i].sessionId) == HistoryItems(db, db.runs[i].sessionId)
  {
    if steps != [] {
      var front := steps[..|steps| - 1];
      var middle := AppliedAll(db, front);
      AllKeep(db, front);
      ReachableIsLater(db, front);
      StepLater(middle, steps[|steps| - 1]);
      assert RunLater(db.runs[i], middle.runs[i]);
      assert RunLater(middle.runs[i], AppliedAll(db, steps).runs[i]);
      ActiveFreezes(db, front, i);
      StepFreezes(middle, steps[|steps| - 1], i);
    }
  }

  /** Whatever other transactions come between the start of a run and its end:
      if the run is still active it finishes, and its session's history is then
      the started snapshot followed by the delta. If it was ended meanwhile, the
      finish is refused and nothing is added. */
  lemma StartThenFinish(
    db: Db, sessionId: string, runId: string, prompt: string, started: Time,
    steps: seq<Step>, outcome: RunOutcome, delta: seq<Item>, now: Time)
    requires StoreInv(db) && RunStarted(db, sessionId, runId, prompt, started).1.Ok?
    ensures var begun := RunStarted(db, sessionId, runId, prompt, started);
            var middle := AppliedAll(begun.0, steps);
            var (after, answer) := RunFinished(middle, sessionId, runId, outcome, delta, now);
            && |begun.0.runs| <= |middle.runs|
            && (if middle.runs[|db.runs|].status.Active?
                then answer.Ok? && answer.value.status.outcome == outcome
                     && HistoryItems(after, sessionId) == Items(begun.1.value.committedHistory) + delta
                else answer == Err(RunAlreadyEnded) && after == middle)
  {
    hide FindSession, FindActive, FindRunId, FindRun, RowsOf, OrderByPosition, AppliedAll;
    var begun := RunStarted(db, sessionId, runId, prompt, started).0;
    var middle := AppliedAll(begun, steps);
    StartKeeps(db, sessionId, runId, prompt, started);
    AllKeep(begun, steps);
    ReachableIsLater(begun, steps);
    assert RunLater(begun.runs[|db.runs|], middle.runs[|db.runs|]);
    var i := FindRun(middle.runs, sessionId, runId);
    assert i == Some(|db.runs|);
    if middle.runs[i.value].status.Active? {
      ActiveFreezes(begun, steps, i.value);
      EndKeeps(middle, i.value, outcome, delta, now);
    }
  }
}
