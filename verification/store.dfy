/** The store's tables and the atomic operations on them. */
module Store {
  import opened Prelude
  import opened Conversation

  /** Clock readings; nothing says that later readings are larger. */
  type Time = int

  datatype SessionRow = SessionRow(id: string, createdAt: Time, updatedAt: Time)

  datatype RunStatus = Active | Terminal(endedAt: Time, outcome: RunOutcome)

  datatype RunRow = RunRow(id: string, sessionId: string, prompt: string, startedAt: Time, status: RunStatus)

  datatype HistoryRow = HistoryRow(sessionId: string, runId: string, position: nat, item: Item, createdAt: Time)

  /** The three tables, rows in the order of insertion. */
  datatype Db = Db(sessions: seq<SessionRow>, runs: seq<RunRow>, items: seq<HistoryRow>)

  datatype StoreError =
    | ActiveRunError
    | RunAlreadyEnded
    | SessionAlreadyExists
    | SessionNotFound
    | RunAlreadyExists
    | RunNotFound
    | PersistenceError

  type Answer<+T> = Result<T, StoreError>

  datatype StartedRun = StartedRun(run: RunRow, committedHistory: seq<HistoryRow>)

  function Max(a: int, b: int): int {
    if a < b then b else a
  }

  // ----- Queries -----

  function FindSession(sessions: seq<SessionRow>, id: string): (r: Option<nat>)
    ensures r.Some? ==> r.value < |sessions| && sessions[r.value].id == id
    ensures r.None? ==> forall i :: 0 <= i < |sessions| ==> sessions[i].id != id
  {
    if sessions == [] then None
    else if sessions[|sessions| - 1].id == id then Some(|sessions| - 1)
    else FindSession(sessions[..|sessions| - 1], id)
  }

  predicate HasSession(db: Db, id: string) {
    FindSession(db.sessions, id).Some?
  }

  /** The session's active run. */
  function FindActive(runs: seq<RunRow>, sessionId: string): (r: Option<nat>)
    ensures r.Some? ==> r.value < |runs| && runs[r.value].sessionId == sessionId && runs[r.value].status.Active?
    ensures r.None? ==> forall i :: 0 <= i < |runs| ==> !(runs[i].sessionId == sessionId && runs[i].status.Active?)
  {
    if runs == [] then None
    else if runs[|runs| - 1].sessionId == sessionId && runs[|runs| - 1].status.Active? then Some(|runs| - 1)
    else FindActive(runs[..|runs| - 1], sessionId)
  }

  /** A run by its id, within any session. */
  function FindRunId(runs: seq<RunRow>, runId: string): (r: Option<nat>)
    ensures r.Some? ==> r.value < |runs| && runs[r.value].id == runId
    ensures r.None? ==> forall i :: 0 <= i < |runs| ==> runs[i].id != runId
  {
    if runs == [] then None
    else if runs[|runs| - 1].id == runId then Some(|runs| - 1)
    else FindRunId(runs[..|runs| - 1], runId)
  }

  /** A run by session and id. */
  function FindRun(runs: seq<RunRow>, sessionId: string, runId: string): (r: Option<nat>)
    ensures r.Some? ==> r.value < |runs| && runs[r.value].id == runId && runs[r.value].sessionId == sessionId
    ensures r.None? ==> forall i :: 0 <= i < |runs| ==> !(runs[i].id == runId && runs[i].sessionId == sessionId)
  {
    if runs == [] then None
    else if runs[|runs| - 1].id == runId && runs[|runs| - 1].sessionId == sessionId then Some(|runs| - 1)
    else FindRun(runs[..|runs| - 1], sessionId, runId)
  }

  /** WHERE session_id = ? */
  function RowsOf(items: seq<HistoryRow>, sessionId: string): seq<HistoryRow> {
    if items == [] then []
    else
      var front := RowsOf(items[..|items| - 1], sessionId);
      if items[|items| - 1].sessionId == sessionId then front + [items[|items| - 1]] else front
  }

  function InsertByPosition(row: HistoryRow, sorted: seq<HistoryRow>): seq<HistoryRow> {
    if sorted == [] then [row]
    else if row.position >= sorted[|sorted| - 1].position then sorted + [row]
    else InsertByPosition(row, sorted[..|sorted| - 1]) + [sorted[|sorted| - 1]]
  }

  /** ORDER BY position */
  function OrderByPosition(rows: seq<HistoryRow>): seq<HistoryRow> {
    if rows == [] then []
    else InsertByPosition(rows[|rows| - 1], OrderByPosition(rows[..|rows| - 1]))
  }

  function HistoryOf(items: seq<HistoryRow>, sessionId: string): seq<HistoryRow> {
    OrderByPosition(RowsOf(items, sessionId))
  }

  /** COALESCE(MAX(position), -1) + 1 */
  function NextPosition(rows: seq<HistoryRow>): nat {
    if rows == [] then 0
    else Max(rows[|rows| - 1].position + 1, NextPosition(rows[..|rows| - 1]))
  }

  function Items(rows: seq<HistoryRow>): (r: seq<Item>)
    ensures |r| == |rows| && forall i :: 0 <= i < |r| ==> r[i] == rows[i].item
  {
    seq(|rows|, i requires 0 <= i < |rows| => rows[i].item)
  }

  // ----- Rows to insert -----

  function DeltaRows(
    sessionId: string, runId: string, first: nat, delta: seq<Item>, createdAt: Time): (r: seq<HistoryRow>)
    ensures |r| == |delta|
    ensures forall i :: 0 <= i < |r| ==> r[i] == HistoryRow(sessionId, runId, first + i, delta[i], createdAt)
  {
    seq(|delta|, i requires 0 <= i < |delta| => HistoryRow(sessionId, runId, first + i, delta[i], createdAt))
  }

  /** Copies of rows under another session; positions and run ids are kept. */
  function CopiedRows(rows: seq<HistoryRow>, target: string): (r: seq<HistoryRow>)
    ensures |r| == |rows|
    ensures forall i :: 0 <= i < |r| ==> r[i] == rows[i].(sessionId := target)
  {
    seq(|rows|, i requires 0 <= i < |rows| => rows[i].(sessionId := target))
  }

  // ----- Operations: each is one transaction, committed or rolled back -----

  function SessionCreated(db: Db, id: string, now: Time): (Db, Answer<SessionRow>) {
    if HasSession(db, id) then (db, Err(SessionAlreadyExists))
    else
      var row := SessionRow(id, now, now);
      (db.(sessions := db.sessions + [row]), Ok(row))
  }

  function RunStarted(db: Db, sessionId: string, runId: string, prompt: string, now: Time): (Db, Answer<StartedRun>) {
    if !HasSession(db, sessionId) then (db, Err(SessionNotFound))
    else if FindActive(db.runs, sessionId).Some? then (db, Err(ActiveRunError))
    else if FindRunId(db.runs, runId).Some? then (db, Err(RunAlreadyExists))
    else
      var row := RunRow(runId, sessionId, prompt, now, Active);
      (db.(runs := db.runs + [row]), Ok(StartedRun(row, HistoryOf(db.items, sessionId))))
  }

  /** A terminal record from an active one; its end is not before its start. */
  function EndedRow(run: RunRow, outcome: RunOutcome, now: Time): RunRow {
    run.(status := Terminal(Max(now, run.startedAt), outcome))
  }

  function TouchedSession(row: SessionRow, endedAt: Time): SessionRow {
    row.(updatedAt := Max(row.updatedAt, endedAt))
  }

  /** Ends the run at index i, appends its delta and advances its session. */
  function RunEndedAt(db: Db, i: nat, outcome: RunOutcome, delta: seq<Item>, now: Time): (Db, Answer<RunRow>)
    requires i < |db.runs|
  {
    var row := EndedRow(db.runs[i], outcome, now);
    var session := FindSession(db.sessions, row.sessionId);
    if session.None? then (db, Err(SessionNotFound))
    else
      var first := NextPosition(RowsOf(db.items, row.sessionId));
      var added := DeltaRows(row.sessionId, row.id, first, delta, row.status.endedAt);
      var touched := TouchedSession(db.sessions[session.value], row.status.endedAt);
      (Db(db.sessions[session.value := touched], db.runs[i := row], db.items + added), Ok(row))
  }

  function RunFinished(
    db: Db, sessionId: string, runId: string, outcome: RunOutcome, delta: seq<Item>, now: Time): (Db, Answer<RunRow>)
  {
    match FindRun(db.runs, sessionId, runId)
    case None => (db, Err(RunNotFound))
    case Some(i) =>
      if !db.runs[i].status.Active? then (db, Err(RunAlreadyEnded)) else RunEndedAt(db, i, outcome, delta, now)
  }

  /** Ends the session's active run, if any, without touching its history. */
  function ActiveRunAborted(db: Db, sessionId: string, now: Time): (Db, Answer<Option<RunRow>>) {
    if !HasSession(db, sessionId) then (db, Err(SessionNotFound))
    else match FindActive(db.runs, sessionId)
      case None => (db, Ok(None))
      case Some(i) =>
        var (ended, answer) := RunEndedAt(db, i, Aborted, [], now);
        match answer
        case Err(e) => (db, Err(e))
        case Ok(row) => (ended, Ok(Some(row)))
  }

  function SessionForked(db: Db, source: string, target: string, now: Time): (Db, Answer<SessionRow>) {
    if !HasSession(db, source) then (db, Err(SessionNotFound))
    else if HasSession(db, target) then (db, Err(SessionAlreadyExists))
    else
      var row := SessionRow(target, now, now);
      (db.(sessions := db.sessions + [row], items := db.items + CopiedRows(HistoryOf(db.items, source), target)),
       Ok(row))
  }

  function GetRun(db: Db, sessionId: string, runId: string): Answer<RunRow> {
    match FindRun(db.runs, sessionId, runId)
    case None => Err(RunNotFound)
    case Some(i) => Ok(db.runs[i])
  }

  function GetHistory(db: Db, sessionId: string): Answer<seq<HistoryRow>> {
    if HasSession(db, sessionId) then Ok(HistoryOf(db.items, sessionId)) else Err(SessionNotFound)
  }

  /** A transaction takes effect only if it succeeds and its commit succeeds. */
  function Commit<T>(db: Db, step: (Db, Answer<T>), commits: bool): (Db, Answer<T>) {
    if step.1.Err? then (db, step.1)
    else if !commits then (db, Err(PersistenceError))
    else step
  }

  // ----- The store object -----

  /** The tables behind one connection, updated in place within transactions. */
  class SQLiteStore {
    var sessions: seq<SessionRow>
    var runs: seq<RunRow>
    var items: seq<HistoryRow>

    function Tables(): Db
      reads this
    {
      Db(sessions, runs, items)
    }

    constructor ()
      ensures Tables() == Db([], [], [])
    {
      sessions, runs, items := [], [], [];
    }

    method CreateSession(id: string, now: Time, commits: bool) returns (answer: Answer<SessionRow>)
      modifies this
      ensures (Tables(), answer) == Commit(old(Tables()), SessionCreated(old(Tables()), id, now), commits)
    {
      if FindSession(sessions, id).Some? {
        return Err(SessionAlreadyExists);
      }
      var before := sessions;
      var row := SessionRow(id, now, now);
      sessions := sessions + [row];
      if !commits {
        sessions := before;
        return Err(PersistenceError);
      }
      return Ok(row);
    }

    method StartRun(sessionId: string, runId: string, prompt: string, now: Time, commits: bool)
      returns (answer: Answer<StartedRun>)
      modifies this
      ensures (Tables(), answer)
           == Commit(old(Tables()), RunStarted(old(Tables()), sessionId, runId, prompt, now), commits)
    {
      if FindSession(sessions, sessionId).None? {
        return Err(SessionNotFound);
      }
      if FindActive(runs, sessionId).Some? {
        return Err(ActiveRunError);
      }
      var committedHistory := HistoryOf(items, sessionId);
      var row := RunRow(runId, sessionId, prompt, now, Active);
      if FindRunId(runs, runId).Some? {
        return Err(RunAlreadyExists);
      }
      var before := runs;
      runs := runs + [row];
      if !commits {
        runs := before;
        return Err(PersistenceError);
      }
      return Ok(StartedRun(row, committedHistory));
    }

    method FinishRun(sessionId: string, runId: string, outcome: RunOutcome, delta: seq<Item>, now: Time, commits: bool)
      returns (answer: Answer<RunRow>)
      modifies this
      ensures (Tables(), answer)
           == Commit(old(Tables()), RunFinished(old(Tables()), sessionId, runId, outcome, delta, now), commits)
    {
      var i := FindRun(runs, sessionId, runId);
      if i.None? {
        return Err(RunNotFound);
      }
      if !runs[i.value].status.Active? {
        return Err(RunAlreadyEnded);
      }
      answer := EndRunAt(i.value, outcome, delta, now, commits);
    }

    method AbortActiveRun(sessionId: string, now: Time, commits: bool) returns (answer: Answer<Option<RunRow>>)
      modifies this
      ensures (Tables(), answer)
           == Commit(old(Tables()), ActiveRunAborted(old(Tables()), sessionId, now), commits)
    {
      if FindSession(sessions, sessionId).None? {
        return Err(SessionNotFound);
      }
      var i := FindActive(runs, sessionId);
      if i.None? {
        return if commits then Ok(None) else Err(PersistenceError);
      }
      var ended := EndRunAt(i.value, Aborted, [], now, commits);
      return if ended.Ok? then Ok(Some(ended.value)) else Err(ended.error);
    }

    method ForkSession(source: string, target: string, now: Time, commits: bool) returns (answer: Answer<SessionRow>)
      modifies this
      ensures (Tables(), answer)
           == Commit(old(Tables()), SessionForked(old(Tables()), source, target, now), commits)
    {
      if FindSession(sessions, source).None? {
        return Err(SessionNotFound);
      }
      if FindSession(sessions, target).Some? {
        return Err(SessionAlreadyExists);
      }
      var sessionsBefore, itemsBefore := sessions, items;
      var row := SessionRow(target, now, now);
      sessions := sessions + [row];
      var sourceItems := HistoryOf(items, source);
      CopyHistoryItems(sourceItems, target);
      if !commits {
        sessions, items := sessionsBefore, itemsBefore;
        return Err(PersistenceError);
      }
      return Ok(row);
    }

    /** The write half of finishing and aborting. */
    method EndRunAt(i: nat, outcome: RunOutcome, delta: seq<Item>, now: Time, commits: bool)
      returns (answer: Answer<RunRow>)
      requires i < |runs|
      modifies this
      ensures (Tables(), answer) == Commit(old(Tables()), RunEndedAt(old(Tables()), i, outcome, delta, now), commits)
    {
      var sessionsBefore, runsBefore, itemsBefore := sessions, runs, items;
      var row := EndedRow(runs[i], outcome, now);
      runs := runs[i := row];
      InsertHistoryDelta(row, delta);
      var session := FindSession(sessions, row.sessionId);
      if session.None? || !commits {
        sessions, runs, items := sessionsBefore, runsBefore, itemsBefore;
        return Err(if session.None? then SessionNotFound else PersistenceError);
      }
      sessions := sessions[session.value := TouchedSession(sessions[session.value], row.status.endedAt)];
      return Ok(row);
    }

    method InsertHistoryDelta(run: RunRow, delta: seq<Item>)
      requires run.status.Terminal?
      modifies this`items
      ensures items == old(items) + DeltaRows(run.sessionId, run.id, NextPosition(RowsOf(old(items), run.sessionId)),
                                              delta, run.status.endedAt)
    {
      var first := NextPosition(RowsOf(items, run.sessionId));
      for k := 0 to |delta|
        invariant items == old(items) + DeltaRows(run.sessionId, run.id, first, delta[..k], run.status.endedAt)
      {
        items := items + [HistoryRow(run.sessionId, run.id, first + k, delta[k], run.status.endedAt)];
        assert delta[..k + 1] == delta[..k] + [delta[k]];
        assert DeltaRows(run.sessionId, run.id, first, delta[..k + 1], run.status.endedAt)
            == DeltaRows(run.sessionId, run.id, first, delta[..k], run.status.endedAt)
             + [HistoryRow(run.sessionId, run.id, first + k, delta[k], run.status.endedAt)];
      }
      assert delta[..|delta|] == delta;
    }

    method CopyHistoryItems(rows: seq<HistoryRow>, target: string)
      modifies this`items
      ensures items == old(items) + CopiedRows(rows, target)
    {
      for k := 0 to |rows|
        invariant items == old(items) + CopiedRows(rows[..k], target)
      {
        items := items + [rows[k].(sessionId := target)];
        assert CopiedRows(rows[..k + 1], target) == CopiedRows(rows[..k], target) + [rows[k].(sessionId := target)];
      }
      assert rows[..|rows|] == rows;
    }
  }
}
