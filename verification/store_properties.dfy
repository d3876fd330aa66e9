/** What every transaction keeps, whoever runs it and whatever the clock says. */
module StoreProperties {
  import opened Prelude
  import opened Conversation
  import opened Store

  // ----- The invariant -----

  predicate UniqueSessions(sessions: seq<SessionRow>) {
    forall i, j :: 0 <= i < j < |sessions| ==> sessions[i].id != sessions[j].id
  }

  predicate KnownSession(sessions: seq<SessionRow>, id: string) {
    exists i :: 0 <= i < |sessions| && sessions[i].id == id
  }

  predicate KnownRun(runs: seq<RunRow>, id: string) {
    exists i :: 0 <= i < |runs| && runs[i].id == id
  }

  predicate UniqueRuns(runs: seq<RunRow>) {
    forall i, j :: 0 <= i < j < |runs| ==> runs[i].id != runs[j].id
  }

  predicate OneActive(runs: seq<RunRow>) {
    forall i, j :: 0 <= i < j < |runs| && runs[i].status.Active? && runs[j].status.Active?
      ==> runs[i].sessionId != runs[j].sessionId
  }

  predicate RunsOwned(db: Db) {
    forall i :: 0 <= i < |db.runs| ==> KnownSession(db.sessions, db.runs[i].sessionId)
  }

  /** Rows refer to known sessions and runs. */
  predicate ItemsOwned(db: Db) {
    forall i :: 0 <= i < |db.items|
      ==> KnownSession(db.sessions, db.items[i].sessionId) && KnownRun(db.runs, db.items[i].runId)
  }

  /** The k-th row has position k. */
  predicate Dense(rows: seq<HistoryRow>) {
    forall k :: 0 <= k < |rows| ==> rows[k].position == k
  }

  ghost predicate DensePositions(items: seq<HistoryRow>) {
    forall sessionId: string :: Dense(RowsOf(items, sessionId))
  }

  predicate RunTimes(runs: seq<RunRow>) {
    forall i :: 0 <= i < |runs| && runs[i].status.Terminal? ==> runs[i].startedAt <= runs[i].status.endedAt
  }

  predicate Covers(session: SessionRow, run: RunRow) {
    run.sessionId == session.id && run.status.Terminal? ==> run.status.endedAt <= session.updatedAt
  }

  /** A session is never older than its creation or than the end of any of its runs. */
  predicate SessionTimes(db: Db) {
    && (forall j :: 0 <= j < |db.sessions| ==> db.sessions[j].createdAt <= db.sessions[j].updatedAt)
    && (forall i, j :: 0 <= i < |db.runs| && 0 <= j < |db.sessions| ==> Covers(db.sessions[j], db.runs[i]))
  }

  predicate EndsAt(run: RunRow, session: SessionRow) {
    run.sessionId == session.id && run.status.Terminal? && run.status.endedAt == session.updatedAt
  }

  predicate Attained(session: SessionRow, runs: seq<RunRow>) {
    session.updatedAt == session.createdAt || exists i :: 0 <= i < |runs| && EndsAt(runs[i], session)
  }

  /** Nor is it newer than the latest of them. */
  predicate TimesAttained(db: Db) {
    forall j :: 0 <= j < |db.sessions| ==> Attained(db.sessions[j], db.runs)
  }

  ghost predicate StoreInv(db: Db) {
    && UniqueSessions(db.sessions) && UniqueRuns(db.runs) && OneActive(db.runs)
    && RunsOwned(db) && ItemsOwned(db) && DensePositions(db.items)
    && RunTimes(db.runs) && SessionTimes(db) && TimesAttained(db)
  }

  /** A session's committed conversation. */
  function HistoryItems(db: Db, sessionId: string): seq<Item> {
    Items(HistoryOf(db.items, sessionId))
  }

  // ----- Rows of a session -----

  lemma {:induction false} RowsOfConcat(a: seq<HistoryRow>, b: seq<HistoryRow>, sessionId: string)
    ensures RowsOf(a + b, sessionId) == RowsOf(a, sessionId) + RowsOf(b, sessionId)
    decreases |b|
  {
    if b == [] {
      assert a + b == a;
    } else {
      assert (a + b)[..|a + b| - 1] == a + b[..|b| - 1];
      RowsOfConcat(a, b[..|b| - 1], sessionId);
    }
  }

  /** Rows that all belong to one session. */
  lemma {:induction false} RowsOfOwn(rows: seq<HistoryRow>, owner: string, sessionId: string)
    requires forall i :: 0 <= i < |rows| ==> rows[i].sessionId == owner
    ensures RowsOf(rows, sessionId) == if sessionId == owner then rows else []
  {
    if rows != [] {
      RowsOfOwn(rows[..|rows| - 1], owner, sessionId);
    }
  }

  lemma {:induction false} RowsOfUnknown(items: seq<HistoryRow>, sessionId: string)
    requires forall i :: 0 <= i < |items| ==> items[i].sessionId != sessionId
    ensures RowsOf(items, sessionId) == []
  {
    if items != [] {
      RowsOfUnknown(items[..|items| - 1], sessionId);
    }
  }

  /** Dense rows are already ordered. */
  lemma {:induction false} OrderDense(rows: seq<HistoryRow>)
    requires Dense(rows)
    ensures OrderByPosition(rows) == rows
  {
    if rows != [] {
      OrderDense(rows[..|rows| - 1]);
      assert rows == rows[..|rows| - 1] + [rows[|rows| - 1]];
    }
  }

  /** MAX(position) + 1 is the number of rows. */
  lemma {:induction false} NextDense(rows: seq<HistoryRow>)
    requires Dense(rows)
    ensures NextPosition(rows) == |rows|
  {
    if rows != [] {
      NextDense(rows[..|rows| - 1]);
    }
  }

  /** What a session's history reads as: its rows, in the order of insertion. */
  lemma HistoryIsRows(db: Db, sessionId: string)
    requires DensePositions(db.items)
    ensures HistoryOf(db.items, sessionId) == RowsOf(db.items, sessionId)
    ensures NextPosition(RowsOf(db.items, sessionId)) == |HistoryItems(db, sessionId)|
  {
    OrderDense(RowsOf(db.items, sessionId));
    NextDense(RowsOf(db.items, sessionId));
  }

  lemma ItemsConcat(a: seq<HistoryRow>, b: seq<HistoryRow>)
    ensures Items(a + b) == Items(a) + Items(b)
  {
  }

  lemma {:induction false} PositionBelow(items: seq<HistoryRow>, i: nat)
    requires i < |items| && Dense(RowsOf(items, items[i].sessionId))
    ensures items[i].position < |RowsOf(items, items[i].sessionId)|
  {
    var n := |items| - 1;
    var front := RowsOf(items[..n], items[i].sessionId);
    if i == n {
      assert RowsOf(items, items[i].sessionId)[|front|] == items[n];
    } else {
      assert forall k :: 0 <= k < |front| ==> front[k] == RowsOf(items, items[i].sessionId)[k];
      PositionBelow(items[..n], i);
    }
  }

  /** No two rows share a session and a position: the table's uniqueness
      constraint is never what stops a transaction. */
  lemma {:induction false} KeysUnique(items: seq<HistoryRow>, i: nat, j: nat)
    requires DensePositions(items) && i < j < |items|
    ensures (items[i].sessionId, items[i].position) != (items[j].sessionId, items[j].position)
  {
    if items[i].sessionId == items[j].sessionId {
      var upTo, rest := items[..j], items[j..];
      assert items == upTo + rest;
      RowsOfConcat(upTo, rest, items[j].sessionId);
      var before, own := RowsOf(upTo, items[j].sessionId), RowsOf(rest, items[j].sessionId);
      FirstOwn(rest);
      assert (before + own)[|before|] == items[j];
      assert forall k :: 0 <= k < |before| ==> before[k] == (before + own)[k];
      PositionBelow(upTo, i);
    }
  }

  lemma {:induction false} FirstOwn(rest: seq<HistoryRow>)
    requires rest != []
    ensures RowsOf(rest, rest[0].sessionId) != [] && RowsOf(rest, rest[0].sessionId)[0] == rest[0]
  {
    if |rest| > 1 {
      FirstOwn(rest[..|rest| - 1]);
    } else {
      assert rest[..|rest| - 1] == [];
    }
  }

  // ----- Appending rows -----

  /** Rows of one session, numbered on from its history. */
  predicate Continues(items: seq<HistoryRow>, added: seq<HistoryRow>, owner: string) {
    && (forall k :: 0 <= k < |added| ==> added[k].sessionId == owner)
    && (forall k :: 0 <= k < |added| ==> added[k].position == |RowsOf(items, owner)| + k)
  }

  /** Appending rows of one session, numbered on from its history, keeps every
      session's numbering, and changes the rows of no other session. */
  lemma AppendDense(items: seq<HistoryRow>, added: seq<HistoryRow>, owner: string)
    requires DensePositions(items)
    requires Continues(items, added, owner)
    ensures DensePositions(items + added)
    ensures RowsOf(items + added, owner) == RowsOf(items, owner) + added
    ensures forall other: string :: other != owner ==> RowsOf(items + added, other) == RowsOf(items, other)
  {
    forall sessionId: string
      ensures RowsOf(items + added, sessionId)
           == RowsOf(items, sessionId) + (if sessionId == owner then added else [])
      ensures Dense(RowsOf(items + added, sessionId))
    {
      RowsOfConcat(items, added, sessionId);
      RowsOfOwn(added, owner, sessionId);
    }
  }

  /** What one session gains. */
  ghost predicate Appended(before: Db, after: Db, sessionId: string, added: seq<Item>) {
    && HistoryItems(after, sessionId) == HistoryItems(before, sessionId) + added
    && (forall other: string :: other != sessionId ==> HistoryItems(after, other) == HistoryItems(before, other))
  }

  lemma AppendedRows(before: Db, after: Db, added: seq<HistoryRow>, owner: string)
    requires DensePositions(before.items) && after.items == before.items + added
    requires Continues(before.items, added, owner)
    ensures DensePositions(after.items) && Appended(before, after, owner, Items(added))
  {
    AppendDense(before.items, added, owner);
    forall sessionId: string
      ensures HistoryItems(before, sessionId) == Items(RowsOf(before.items, sessionId))
      ensures HistoryItems(after, sessionId) == Items(RowsOf(after.items, sessionId))
    {
      HistoryIsRows(before, sessionId);
      HistoryIsRows(after, sessionId);
    }
    ItemsConcat(RowsOf(before.items, owner), added);
  }

  // ----- Each operation -----

  lemma CreateKeeps(db: Db, id: string, now: Time)
    requires StoreInv(db)
    ensures StoreInv(SessionCreated(db, id, now).0)
  {
    var after := SessionCreated(db, id, now).0;
    if after != db {
      MoreSessions(db, after);
    }
  }

  /** A new session with an unused id owns nothing yet. */
  lemma MoreSessions(db: Db, after: Db)
    requires RunsOwned(db) && ItemsOwned(db) && UniqueSessions(db.sessions)
    requires SessionTimes(db) && TimesAttained(db)
    requires after.runs == db.runs && after.items == db.items
    requires |after.sessions| == |db.sessions| + 1 && after.sessions[..|db.sessions|] == db.sessions
    requires var row := after.sessions[|db.sessions|];
             !KnownSession(db.sessions, row.id) && row.createdAt == row.updatedAt
    ensures RunsOwned(after) && ItemsOwned(after) && UniqueSessions(after.sessions)
    ensures SessionTimes(after) && TimesAttained(after)
    ensures forall id: string :: KnownSession(db.sessions, id) ==> KnownSession(after.sessions, id)
  {
    var n := |db.sessions|;
    assert forall j :: 0 <= j < n ==> after.sessions[j] == db.sessions[j];
    forall id: string | KnownSession(db.sessions, id)
      ensures KnownSession(after.sessions, id)
    {
      var j :| 0 <= j < n && db.sessions[j].id == id;
      assert after.sessions[j].id == id;
    }
    forall j | 0 <= j < |after.sessions|
      ensures Attained(after.sessions[j], after.runs)
    {
      assert j < n ==> Attained(db.sessions[j], db.runs);
    }
    forall i, j | 0 <= i < |after.runs| && 0 <= j < |after.sessions|
      ensures Covers(after.sessions[j], after.runs[i])
    {
      assert KnownSession(db.sessions, db.runs[i].sessionId);
      assert j < n ==> Covers(db.sessions[j], db.runs[i]);
    }
  }

  lemma StartKeeps(db: Db, sessionId: string, runId: string, prompt: string, now: Time)
    requires StoreInv(db)
    ensures StoreInv(RunStarted(db, sessionId, runId, prompt, now).0)
  {
    hide FindSession, FindActive, FindRunId, RowsOf, OrderByPosition;
    var after := RunStarted(db, sessionId, runId, prompt, now).0;
    if after != db {
      KnownRuns(db.runs, after.runs);
      forall i, j | 0 <= i < |after.runs| && 0 <= j < |after.sessions|
        ensures Covers(after.sessions[j], after.runs[i])
      {
        assert i < |db.runs| ==> Covers(db.sessions[j], db.runs[i]);
      }
      SameEnds(db, after.runs);
    }
  }

  /** Rows that ended keep their ends. */
  lemma SameEnds(db: Db, runs: seq<RunRow>)
    requires TimesAttained(db) && |db.runs| <= |runs|
    requires forall i :: 0 <= i < |db.runs| && db.runs[i].status.Terminal? ==> runs[i] == db.runs[i]
    ensures TimesAttained(db.(runs := runs))
  {
    forall j | 0 <= j < |db.sessions|
      ensures Attained(db.sessions[j], runs)
    {
      assert Attained(db.sessions[j], db.runs);
      if db.sessions[j].updatedAt != db.sessions[j].createdAt {
        var i :| 0 <= i < |db.runs| && EndsAt(db.runs[i], db.sessions[j]);
        assert EndsAt(runs[i], db.sessions[j]);
      }
    }
  }

  lemma KnownRuns(before: seq<RunRow>, after: seq<RunRow>)
    requires |before| <= |after| && forall i :: 0 <= i < |before| ==> after[i].id == before[i].id
    ensures forall id: string :: KnownRun(before, id) ==> KnownRun(after, id)
  {
    forall id: string | KnownRun(before, id)
      ensures KnownRun(after, id)
    {
      var i :| 0 <= i < |before| && before[i].id == id;
      assert after[i].id == id;
    }
  }

  lemma KnownSessions(before: seq<SessionRow>, after: seq<SessionRow>)
    requires |before| <= |after| && forall i :: 0 <= i < |before| ==> after[i].id == before[i].id
    ensures forall id: string :: KnownSession(before, id) ==> KnownSession(after, id)
  {
    forall id: string | KnownSession(before, id)
      ensures KnownSession(after, id)
    {
      var i :| 0 <= i < |before| && before[i].id == id;
      assert after[i].id == id;
    }
  }

  /** Ending an active run never fails, and appends exactly its delta. */
  lemma EndKeeps(db: Db, i: nat, outcome: RunOutcome, delta: seq<Item>, now: Time)
    requires StoreInv(db) && i < |db.runs| && db.runs[i].status.Active?
    ensures RunEndedAt(db, i, outcome, delta, now).1.Ok?
    ensures var after := RunEndedAt(db, i, outcome, delta, now).0;
            && StoreInv(after)
            && Appended(db, after, db.runs[i].sessionId, delta)
            && after.runs == db.runs[i := EndedRow(db.runs[i], outcome, now)]
  {
    hide FindSession, RowsOf, NextPosition, OrderByPosition, HistoryItems;
    var row := db.runs[i];
    assert KnownSession(db.sessions, row.sessionId);
    var after := RunEndedAt(db, i, outcome, delta, now).0;
    var added := after.items[|db.items|..];
    NextDense(RowsOf(db.items, row.sessionId));
    AppendedRows(db, after, added, row.sessionId);
    assert Items(added) == delta;
    KnownRuns(db.runs, after.runs);
    KnownSessions(db.sessions, after.sessions);
    EndOwned(db, after, row);
    EndTimes(db, i, outcome, delta, now);
  }

  lemma EndOwned(db: Db, after: Db, row: RunRow)
    requires RunsOwned(db) && ItemsOwned(db) && row in db.runs
    requires |after.runs| == |db.runs|
    requires forall k :: 0 <= k < |db.runs| ==> after.runs[k].sessionId == db.runs[k].sessionId
    requires forall id: string :: KnownRun(db.runs, id) ==> KnownRun(after.runs, id)
    requires forall id: string :: KnownSession(db.sessions, id) ==> KnownSession(after.sessions, id)
    requires db.items <= after.items
    requires forall k :: |db.items| <= k < |after.items|
               ==> after.items[k].sessionId == row.sessionId && after.items[k].runId == row.id
    ensures RunsOwned(after) && ItemsOwned(after)
  {
    var i :| 0 <= i < |db.runs| && db.runs[i] == row;
    assert KnownRun(db.runs, row.id);
    forall k | 0 <= k < |after.items|
      ensures KnownSession(after.sessions, after.items[k].sessionId) && KnownRun(after.runs, after.items[k].runId)
    {
      assert k < |db.items| ==> after.items[k] == db.items[k];
      assert k < |db.items|
        ==> KnownSession(db.sessions, db.items[k].sessionId) && KnownRun(db.runs, db.items[k].runId);
    }
  }

  lemma EndTimes(db: Db, i: nat, outcome: RunOutcome, delta: seq<Item>, now: Time)
    requires UniqueSessions(db.sessions) && RunTimes(db.runs) && SessionTimes(db) && TimesAttained(db)
    requires i < |db.runs| && db.runs[i].status.Active?
    requires KnownSession(db.sessions, db.runs[i].sessionId)
    ensures var after := RunEndedAt(db, i, outcome, delta, now).0;
            UniqueSessions(after.sessions) && RunTimes(after.runs) && SessionTimes(after) && TimesAttained(after)
  {
    var after := RunEndedAt(db, i, outcome, delta, now).0;
    SameEnds(db, after.runs);
    forall j | 0 <= j < |after.sessions|
      ensures Attained(after.sessions[j], after.runs)
    {
      assert Attained(db.(runs := after.runs).sessions[j], after.runs);
      assert after.sessions[j] == db.sessions[j] || EndsAt(after.runs[i], after.sessions[j]);
    }
    forall k, j | 0 <= k < |after.runs| && 0 <= j < |after.sessions|
      ensures Covers(after.sessions[j], after.runs[k])
    {
      assert Covers(db.sessions[j], db.runs[k]);
    }
  }

  lemma FinishKeeps(db: Db, sessionId: string, runId: string, outcome: RunOutcome, delta: seq<Item>, now: Time)
    requires StoreInv(db)
    ensures StoreInv(RunFinished(db, sessionId, runId, outcome, delta, now).0)
    ensures var after := RunFinished(db, sessionId, runId, outcome, delta, now);
            Appended(db, after.0, sessionId, if after.1.Ok? then delta else [])
  {
    var i := FindRun(db.runs, sessionId, runId);
    if i.Some? && db.runs[i.value].status.Active? {
      EndKeeps(db, i.value, outcome, delta, now);
    }
  }

  lemma AbortKeeps(db: Db, sessionId: string, now: Time)
    requires StoreInv(db)
    ensures StoreInv(ActiveRunAborted(db, sessionId, now).0)
    ensures Appended(db, ActiveRunAborted(db, sessionId, now).0, sessionId, [])
  {
    var i := FindActive(db.runs, sessionId);
    if i.Some? {
      EndKeeps(db, i.value, Aborted, [], now);
    }
  }

  /** Forking copies the source's history into a session that had none. */
  lemma ForkAppends(db: Db, source: string, target: string, now: Time)
    requires StoreInv(db) && SessionForked(db, source, target, now).1.Ok?
    ensures var after := SessionForked(db, source, target, now).0;
            && DensePositions(after.items)
            && HistoryItems(db, target) == []
            && Appended(db, after, target, HistoryItems(db, source))
  {
    var after := SessionForked(db, source, target, now).0;
    ForkedRows(db, source, target);
    AppendedRows(db, after, CopiedRows(RowsOf(db.items, source), target), target);
    assert Items(CopiedRows(RowsOf(db.items, source), target)) == HistoryItems(db, source);
  }

  lemma ForkedRows(db: Db, source: string, target: string)
    requires ItemsOwned(db) && DensePositions(db.items) && !KnownSession(db.sessions, target)
    ensures HistoryOf(db.items, source) == RowsOf(db.items, source)
    ensures Continues(db.items, CopiedRows(RowsOf(db.items, source), target), target)
    ensures HistoryItems(db, target) == []
  {
    RowsOfUnknown(db.items, target);
    HistoryIsRows(db, source);
    HistoryIsRows(db, target);
    assert Dense(RowsOf(db.items, source));
  }

  lemma ForkOwned(db: Db, source: string, target: string, now: Time)
    requires StoreInv(db) && SessionForked(db, source, target, now).1.Ok?
    ensures var after := SessionForked(db, source, target, now).0;
            && RunsOwned(after) && ItemsOwned(after) && UniqueSessions(after.sessions)
            && SessionTimes(after) && TimesAttained(after)
  {
    var after := SessionForked(db, source, target, now).0;
    MoreSessions(db, after.(items := db.items));
    HistoryIsRows(db, source);
    assert after.sessions[|db.sessions|].id == target;
    CopiesOwned(db, after, source, target);
  }

  lemma ForkKeeps(db: Db, source: string, target: string, now: Time)
    requires StoreInv(db)
    ensures StoreInv(SessionForked(db, source, target, now).0)
    ensures var after := SessionForked(db, source, target, now);
            Appended(db, after.0, target, if after.1.Ok? then HistoryItems(db, source) else [])
    ensures SessionForked(db, source, target, now).1.Ok? ==> HistoryItems(db, target) == []
  {
    if SessionForked(db, source, target, now).1.Ok? {
      ForkAppends(db, source, target, now);
      ForkOwned(db, source, target, now);
    }
  }

  lemma CopiesOwned(db: Db, after: Db, source: string, target: string)
    requires ItemsOwned(db) && ItemsOwned(after.(items := db.items)) && after.runs == db.runs
    requires after.items == db.items + CopiedRows(RowsOf(db.items, source), target)
    requires KnownSession(after.sessions, target)
    ensures ItemsOwned(after)
  {
    forall k | 0 <= k < |after.items|
      ensures KnownSession(after.sessions, after.items[k].sessionId) && KnownRun(after.runs, after.items[k].runId)
    {
      if k < |db.items| {
        assert after.items[k] == after.(items := db.items).items[k];
      } else {
        RowsAreItems(db.items, source, k - |db.items|);
      }
    }
  }

  lemma {:induction false} RowsAreItems(items: seq<HistoryRow>, sessionId: string, k: nat)
    requires k < |RowsOf(items, sessionId)|
    ensures RowsOf(items, sessionId)[k] in items
  {
    if k < |RowsOf(items[..|items| - 1], sessionId)| {
      RowsAreItems(items[..|items| - 1], sessionId, k);
    }
  }

  // ----- What each operation answers -----

  /** Has this session a run that is still active? */
  predicate HasActive(db: Db, sessionId: string) {
    exists i :: 0 <= i < |db.runs| && db.runs[i].sessionId == sessionId && db.runs[i].status.Active?
  }

  predicate IsRun(run: RunRow, sessionId: string, runId: string) {
    run.sessionId == sessionId && run.id == runId
  }

  /** Reading finds exactly the row with these ids. */
  lemma GetRunIs(db: Db, sessionId: string, runId: string, run: RunRow)
    requires StoreInv(db)
    ensures GetRun(db, sessionId, runId) == Ok(run) <==> run in db.runs && IsRun(run, sessionId, runId)
    ensures GetRun(db, sessionId, runId) == Err(RunNotFound)
       <==> forall i :: 0 <= i < |db.runs| ==> !IsRun(db.runs[i], sessionId, runId)
  {
    hide RowsOf;
    if run in db.runs && IsRun(run, sessionId, runId) {
      var i :| 0 <= i < |db.runs| && db.runs[i] == run;
      FoundAt(db.runs, i);
    }
  }

  /** A session is created if and only if its id is new. */
  lemma CreateAnswers(db: Db, id: string, now: Time)
    ensures var (after, answer) := SessionCreated(db, id, now);
            if KnownSession(db.sessions, id) then answer == Err(SessionAlreadyExists) && after == db
            else answer == Ok(SessionRow(id, now, now)) && KnownSession(after.sessions, id)
                 && after == db.(sessions := db.sessions + [SessionRow(id, now, now)])
  {
    hide RowsOf;
    if !KnownSession(db.sessions, id) {
      assert (db.sessions + [SessionRow(id, now, now)])[|db.sessions|].id == id;
    }
  }

  /** A run is started if and only if its session is known and idle and its id is
      new; which error it is otherwise. */
  lemma StartAnswers(db: Db, sessionId: string, runId: string, prompt: string, now: Time)
    ensures var (after, answer) := RunStarted(db, sessionId, runId, prompt, now);
            if !KnownSession(db.sessions, sessionId) then answer == Err(SessionNotFound) && after == db
            else if HasActive(db, sessionId) then answer == Err(ActiveRunError) && after == db
            else if KnownRun(db.runs, runId) then answer == Err(RunAlreadyExists) && after == db
            else answer.Ok? && after == db.(runs := db.runs + [RunRow(runId, sessionId, prompt, now, Active)])
  {
    hide RowsOf, OrderByPosition;
  }

  /** A finish is accepted if and only if the run is there and still active. */
  lemma FinishAnswers(db: Db, sessionId: string, runId: string, outcome: RunOutcome, delta: seq<Item>, now: Time)
    requires StoreInv(db)
    ensures var (after, answer) := RunFinished(db, sessionId, runId, outcome, delta, now);
            match GetRun(db, sessionId, runId)
            case Err(_) => answer == Err(RunNotFound) && after == db
            case Ok(run) =>
              if run.status.Terminal? then answer == Err(RunAlreadyEnded) && after == db
              else answer == Ok(run.(status := Terminal(Max(now, run.startedAt), outcome)))
  {
    hide RowsOf, OrderByPosition;
    var i := FindRun(db.runs, sessionId, runId);
    if i.Some? && db.runs[i.value].status.Active? {
      EndKeeps(db, i.value, outcome, delta, now);
    }
  }

  /** A fork is made if and only if its source is known and its target is new. */
  lemma ForkAnswers(db: Db, source: string, target: string, now: Time)
    ensures var (after, answer) := SessionForked(db, source, target, now);
            if !KnownSession(db.sessions, source) then answer == Err(SessionNotFound) && after == db
            else if KnownSession(db.sessions, target) then answer == Err(SessionAlreadyExists) && after == db
            else answer == Ok(SessionRow(target, now, now))
                 && after.sessions == db.sessions + [SessionRow(target, now, now)] && after.runs == db.runs
  {
    hide RowsOf, OrderByPosition;
  }

  // ----- What reads give back -----

  /** A started run is found as it was started, and a finished one as it was
      finished; the end is not before the start. */
  lemma StartIsFound(db: Db, sessionId: string, runId: string, prompt: string, now: Time)
    requires StoreInv(db) && RunStarted(db, sessionId, runId, prompt, now).1.Ok?
    ensures var (after, answer) := RunStarted(db, sessionId, runId, prompt, now);
            && GetRun(after, sessionId, runId) == Ok(RunRow(runId, sessionId, prompt, now, Active))
            && answer.value.run == RunRow(runId, sessionId, prompt, now, Active)
            && Ok(answer.value.committedHistory) == GetHistory(db, sessionId) == GetHistory(after, sessionId)
  {
  }

  lemma FinishIsFound(
    db: Db, sessionId: string, runId: string, outcome: RunOutcome, delta: seq<Item>, now: Time, run: RunRow)
    requires StoreInv(db) && GetRun(db, sessionId, runId) == Ok(run) && run.status.Active?
    ensures var after := RunFinished(db, sessionId, runId, outcome, delta, now).0;
            var ended := run.(status := Terminal(Max(now, run.startedAt), outcome));
            && GetRun(after, sessionId, runId) == Ok(ended)
            && HistoryOf(after.items, sessionId)
               == HistoryOf(db.items, sessionId)
                + DeltaRows(sessionId, runId, |HistoryOf(db.items, sessionId)|, delta, ended.status.endedAt)
  {
    var i := FindRun(db.runs, sessionId, runId).value;
    EndKeeps(db, i, outcome, delta, now);
    var after := RunFinished(db, sessionId, runId, outcome, delta, now).0;
    FoundAt(after.runs, i);
    HistoryIsRows(db, sessionId);
    HistoryIsRows(after, sessionId);
    var added := after.items[|db.items|..];
    RowsOfConcat(db.items, added, sessionId);
    RowsOfOwn(added, sessionId, sessionId);
  }

  lemma FoundAt(runs: seq<RunRow>, i: nat)
    requires UniqueRuns(runs) && i < |runs|
    ensures FindRun(runs, runs[i].sessionId, runs[i].id) == Some(i)
  {
  }

  /** An abort answers nothing exactly when there was nothing to end; otherwise it
      ends the session's active run, and that run alone. An unknown session is an
      error. Afterwards nothing of the session is active. */
  lemma AbortIsFound(db: Db, sessionId: string, now: Time)
    requires StoreInv(db)
    ensures var (after, answer) := ActiveRunAborted(db, sessionId, now);
            && (answer == Err(SessionNotFound) <==> !KnownSession(db.sessions, sessionId))
            && (answer == Ok(None) <==> KnownSession(db.sessions, sessionId) && !HasActive(db, sessionId))
            && (answer.Err? || answer == Ok(None) ==> after == db)
            && !HasActive(after, sessionId)
    ensures forall i :: 0 <= i < |db.runs| && db.runs[i].sessionId == sessionId && db.runs[i].status.Active?
              ==> AbortEnds(db, i, now)
  {
    hide RowsOf, OrderByPosition;
    forall i | 0 <= i < |db.runs| && db.runs[i].sessionId == sessionId && db.runs[i].status.Active?
      ensures AbortEnds(db, i, now) && !HasActive(ActiveRunAborted(db, sessionId, now).0, sessionId)
    {
      AbortOfActive(db, i, now);
    }
  }

  /** What an abort does to the active run in row i. */
  predicate AbortEnds(db: Db, i: nat, now: Time)
    requires i < |db.runs|
  {
    var (after, answer) := ActiveRunAborted(db, db.runs[i].sessionId, now);
    var ended := db.runs[i].(status := Terminal(Max(now, db.runs[i].startedAt), Aborted));
    && answer == Ok(Some(ended))
    && GetRun(after, ended.sessionId, ended.id) == Ok(ended)
    && after.runs == db.runs[i := ended]
  }

  lemma AbortOfActive(db: Db, i: nat, now: Time)
    requires StoreInv(db) && i < |db.runs| && db.runs[i].status.Active?
    ensures AbortEnds(db, i, now)
    ensures !HasActive(ActiveRunAborted(db, db.runs[i].sessionId, now).0, db.runs[i].sessionId)
  {
    hide RowsOf, OrderByPosition;
    assert KnownSession(db.sessions, db.runs[i].sessionId);
    assert FindActive(db.runs, db.runs[i].sessionId) == Some(i);
    EndKeeps(db, i, Aborted, [], now);
    FoundAt(ActiveRunAborted(db, db.runs[i].sessionId, now).0.runs, i);
  }

  /** A fork reads as its source, row by row, with the runs that made the rows. */
  lemma ForkIsFound(db: Db, source: string, target: string, now: Time)
    requires StoreInv(db) && SessionForked(db, source, target, now).1.Ok?
    ensures var after := SessionForked(db, source, target, now).0;
            && HistoryOf(after.items, target) == CopiedRows(HistoryOf(db.items, source), target)
            && HistoryOf(after.items, source) == HistoryOf(db.items, source)
  {
    var after := SessionForked(db, source, target, now).0;
    var copies := CopiedRows(RowsOf(db.items, source), target);
    ForkAppends(db, source, target, now);
    ForkedRows(db, source, target);
    HistoryIsRows(after, target);
    HistoryIsRows(after, source);
    RowsOfUnknown(db.items, target);
    RowsOfConcat(db.items, copies, target);
    RowsOfConcat(db.items, copies, source);
    RowsOfOwn(copies, target, target);
    RowsOfOwn(copies, target, source);
  }
}
