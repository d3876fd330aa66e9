# Tile, modelled and proved in Dafny

This project models the parts of Tile that decide its hardest behaviour and
proves what they promise. `dafny verify dfyconfig.toml` checks all of it.

| Component | Files |
|---|---|
| Text, UTF-8 (section 3 of RFC 3629), lines | `prelude.dfy`, `text.dfy` |
| Truncation, streaming output, read paging | `truncation.dfy`, `accumulator.dfy`, `accumulator_refinement.dfy`, `read_paging.dfy` |
| The edit tool | `search.dfy`, `edit_files.dfy`, `edit_splice.dfy`, `edit_splice_exact.dfy`, `edit_matching.dfy`, `edit_properties.dfy`, `edit_contract.dfy`, `edit_fuzzy.dfy` |
| Runs: conversation, events, task, subscribers | `conversation.dfy`, `run_events.dfy`, `run.dfy`, `run_properties.dfy`, `run_loop.dfy`, `run_outcomes.dfy`, `run_answers.dfy`, `run_execution.dfy` |
| The store | `store.dfy`, `store_properties.dfy`, `store_runs.dfy` |
| Store and runs together | `system.dfy` |
| The OpenAI stream assembler | `assembler.dfy`, `assembler_properties.dfy`, `assembler_inputs.dfy` |
| Image sizing | `images.dfy` |

## How the model is built

Code that updates state in place is a class or a loop, and its contract ties
the new state to a function of the old one; the properties are lemmas about
that function. Expressions and helpers are functions.

- **Text.** A Dafny `char` is a Unicode scalar value, so `string` is what a
  UTF-8 decoder yields. Chunks of a stream are decoded text; octets are
  concrete.
- **Runs.** A run's task is a step system. It is suspended at an await, the
  environment answers (with a result, an error or a cancellation), and the code
  up to the next await runs without interruption, as on one event loop. Each
  section between awaits is a method of `RunExecution`, proved equal to a
  function on `Run`. Subscribers share and clear one changed-flag.
- **Store.** Three tables of rows in insertion order. A transaction is one
  atomic step with an arbitrary clock reading, and its commit may fail.
- **System.** Any number of writers create, fork, abort, start and finalize in
  any order; runs advance in any interleaving; commits and reads may fail.

## Where the code does less than one might expect

Each of these is a lemma, with the exact condition under which the expectation
holds.

- The bounded accumulator agrees with truncating the whole text exactly when the
  byte limit is at least 4 (`RefinesExactlyFromFour`).
- The reason an accumulator gives is not the reason whole-text truncation gives,
  and the total line count differs for empty output
  (`FinishMatchesTruncateTail` says when).
- Reverse-order splicing is right for every choice of replacements exactly when
  no two spans share a start. A fuzzy span can be empty, and then an edit can
  damage another one (`SpliceRightExactlyWhenDistinct`, `BlankLineEditLost`).
- "Unique" for an exact match does not exclude overlapping occurrences
  (`OverlappingOccurrencesPass`).
- A loaded file is written back unchanged exactly when its line endings are
  uniform, and a written text is loaded back exactly under the conditions of
  `WriteThenLoad`.
- Healing completes a transcript exactly when no pending call reuses the id of an
  answered one (`HealingCompletes`).
- `truncated` differs from "the content differs" only for an empty text with a
  line limit below 1 or a byte limit below 0 (`TruncatedMeansDifferent`).
- The arguments of a tool call that did not end are in no stream event before the
  terminal one (`UnfinishedArgumentsAreHidden`).
- A fitted image size is in the limit box exactly when the box holds a pixel
  (`FitLandsInTheBox`).

## Model

| member | source | states |
|---|---|---|
| OutputTruncation.SelectOutputLines | tile/tools/support/truncation.py:246-272 | the loop selects exactly the longest fitting run of edge lines, in text order, and the reason it stopped |
| OutputTruncation.TruncateText | tile/tools/support/truncation.py:56-85 | the three-way result: untouched, edge line too big, or the selected run with its measurements |
| OutputTruncation.KeptIsLongest | tile/tools/support/truncation.py:246-272 | the kept run fits both limits and no longer run does |
| OutputTruncation.TruncationContract | tile/tools/support/truncation.py:56-85 | for every text and all limits: longest complete run or nothing, with the text's measurements; there is a reason if and only if it is truncated; "lines" means exactly max_lines lines kept, "bytes" means the next line overflows |
| OutputTruncation.TruncatedMeansDifferent | tile/tools/support/truncation.py:56-85 | truncated holds exactly when the content is not the text, but for the empty text under an impossible limit |
| OutputTruncation.TruncateToByteLimit | tile/tools/support/truncation.py:88-108 | the leading complete lines within a byte limit, and whether any were dropped |
| OutputTruncation.ByteLimitedIsLongest | tile/tools/support/truncation.py:88-108 | the byte-limited text is the longest such prefix; nothing is dropped exactly when the whole text fits |
| OutputAccumulation.CutIsLongest | tile/tools/support/output_accumulator.py:147-152 | the cut is the start of the longest suffix of whole characters within the limit |
| OutputAccumulation.Utf8BoundaryAtOrAfter | tile/tools/support/output_accumulator.py:155-160 | the scan stops at the first octet at or after the start that continues no character |
| OutputAccumulation.BoundaryIsCut | tile/tools/support/output_accumulator.py:147-160 | the octet scan, started at the limit, ends at the character cut of the text |
| OutputAccumulation.TrimStart | tile/tools/support/output_accumulator.py:147-152 | the trim offset is the encoded size of what lies before the cut |
| OutputAccumulation.AppendIsLocal | tile/tools/support/output_accumulator.py:72-91 | chunking independence: the next buffer and flag are the cut of the whole text, computed from the old buffer and flag alone |
| OutputAccumulation.OutputAccumulator.constructor | tile/tools/support/output_accumulator.py:26-41 | an empty stream with a rolling limit of twice the byte limit |
| OutputAccumulation.OutputAccumulator.Accumulate | tile/tools/support/output_accumulator.py:43-48 | appends to the stream unless it has ended |
| OutputAccumulation.OutputAccumulator.AppendDecodedText | tile/tools/support/output_accumulator.py:72-91 | after any chunk the buffer is the longest whole-character suffix of everything, the flag says whether it starts a line, the totals are exact |
| OutputAccumulation.OutputAccumulator.Finish | tile/tools/support/output_accumulator.py:50-56 | the report on the whole stream, although only a tail was kept |
| OutputAccumulation.OutputAccumulator.Snapshot | tile/tools/support/output_accumulator.py:58-144 | the same report at any time |
| OutputAccumulation.OutputAccumulator.CurrentText | tile/tools/support/output_accumulator.py:93-103 | the tail text without a partial first line, unless that is all there is |
| AccumulationRefinement.FinishMatchesTruncateTail | tile/tools/support/output_accumulator.py:50-144 | for every stream and every byte limit of at least 4: content, lines, bytes, truncated and edge flag are those of truncating the whole text; the reason is too, but for the stated case, in which it is "lines" where truncating the whole text says "bytes" |
| AccumulationRefinement.ReportIsTruncated | tile/tools/support/output_accumulator.py:105-144 | for every stream and all limits: a report has a reason if and only if it says truncated, and says truncated if and only if the whole text is over a limit |
| AccumulationRefinement.FailsBelowFour | tile/tools/support/output_accumulator.py:155-160 | for each limit below 4 a text on which they disagree |
| AccumulationRefinement.RefinesExactlyFromFour | tile/tools/support/output_accumulator.py:50-144 | the refinement holds for all texts if and only if the limit is at least 4 |
| ReadPaging.PageContract | tile/tools/read.py:111-147 | every valid offset and any limit gives the first line too large, the rest of the file, or a run of whole lines with the next offset |
| ReadPaging.ReadContract | tile/tools/read.py:92-132 | one read for any offset and limit: no offset or one below 1 starts at line 1, one past the end is the only error, a limit below 1 counts as 1; a page has at most that many lines and stops short only where one more line is over a limit |
| ReadPaging.PagesAreTheFile | tile/tools/read.py:341-363 | following the offsets shows exactly the lines before the first oversized one; every offset is valid; the walk ends |
| ReadPaging.ReadingReachesTheEnd | tile/tools/read.py:316-363 | from line 1 the walk reaches the end if and only if no line exceeds the byte limit, and its pages then join to the file |
| Search.FindIsFirst | tile/tools/edit.py:354-362 | substring search returns the first occurrence, and none only if there is none |
| EditFiles.NormalizeIsOneLfPerEnding | tile/tools/edit.py:507-510 | the two replacements turn every CRLF, lone CR and LF into one LF, and keep every other character in order |
| EditFiles.NoEndingMeansLf | tile/tools/edit.py:495-504 | a text without line endings counts as LF |
| EditFiles.FirstEndingDecides | tile/tools/edit.py:495-504 | the ending is CRLF if and only if the first LF has a CR before it |
| EditFiles.LoadThenWrite | tile/tools/edit.py:175-184 | a file is restored exactly if and only if its line endings are uniform |
| EditFiles.WriteThenLoad | tile/tools/edit.py:441-518 | what was written is loaded back with its byte-order mark and ending, with the exact condition |
| EditSplice.SpliceTextSpans | tile/tools/edit.py:432-438 | the loop applies the spans from the last start to the first |
| EditSplice.ValidatedIsChain | tile/tools/edit.py:418-429 | the adjacent-pairs check succeeds if and only if the sorted spans form a chain |
| EditSplice.ValidatedMeansDisjoint | tile/tools/edit.py:418-429 | the check on adjacent pairs makes all spans pairwise disjoint |
| EditSplice.SpliceIsSimultaneous | tile/tools/edit.py:432-438 | for distinct starts, replacing backwards in place equals replacing all at once in the original |
| EditSplice.NonEmptyMeansDistinct | tile/tools/edit.py:418-438 | validated non-empty spans have distinct starts |
| EditSplice.OrderDoesNotMatter | tile/tools/edit.py:432-438 | the result does not depend on the order of the edits |
| EditSpliceExact.SpliceRightExactlyWhenDistinct | tile/tools/edit.py:418-438 | splicing is right for every replacement text if and only if no two spans share a start |
| EditMatching.LineStartOffsets | tile/tools/edit.py:321-329 | the running sum is the offset of every line |
| EditMatching.FindTextStarts | tile/tools/edit.py:354-362 | the loop finds the greedy non-overlapping starts |
| EditMatching.MatchExactSpans | tile/tools/edit.py:243-264 | one span per edit or the first error, then the overlap check |
| EditMatching.MatchFuzzySpans | tile/tools/edit.py:267-308 | the same over normalized line windows |
| EditMatching.ApplyReplacementsWithFallback | tile/tools/edit.py:187-240 | fuzzy matching only after an exact match was not found; other errors stand |
| EditProperties.ExactMeansUnique | tile/tools/edit.py:354-415 | an exact match succeeds if and only if it is the first occurrence and none starts at or after its end |
| EditProperties.NotFoundMeansAbsent | tile/tools/edit.py:401-415 | "not found" if and only if the text does not occur |
| EditProperties.OverlappingOccurrencesPass | tile/tools/edit.py:354-362 | a text with two overlapping occurrences passes as unique |
| EditProperties.ExactEditsReplaceAllAtOnce | tile/tools/edit.py:201-210 | exact edits replace their occurrences all at once and keep the rest character for character |
| EditProperties.FlattenLines | tile/tools/edit.py:311-318 | the terminated lines of a text concatenate to it |
| EditProperties.AlignedIsWindow | tile/tools/edit.py:332-351 | a line-aligned occurrence is a window of lines with the same character span |
| EditProperties.AlignedSpansAgree | tile/tools/edit.py:267-308 | one edit: a line-aligned exact span and a fuzzy span are the same |
| EditProperties.FuzzyAgreesWithExact | tile/tools/edit.py:243-308 | any number of edits and any line normalization: same spans, same text |
| EditContract.ExactAnswers | tile/tools/edit.py:354-415 | one exact edit: its span where it appears once, not found if and only if it occurs nowhere, otherwise the number of its non-overlapping occurrences |
| EditContract.OneChain | tile/tools/edit.py:354-362 | that number is determined by the text |
| EditContract.ValidatedExactlyWhenApart | tile/tools/edit.py:418-429 | non-empty spans pass if and only if no two edits touch a common character |
| EditContract.OverlapIsReal | tile/tools/edit.py:418-429 | an overlap error names two different edits of which one reaches into the other |
| EditContract.AllFound | tile/tools/edit.py:187-240 | when every edit appears once: overlapping ones are an error, otherwise all are made at once, and changing nothing is an error |
| EditContract.FirstFailure | tile/tools/edit.py:187-198 | the first edit that does not appear once is a duplicate error if it occurs at all; only if it occurs nowhere are all edits matched fuzzily |
| EditContract.EmptyIsRefused | tile/tools/edit.py:474-484 | the first empty old text is the error, before anything is matched |
| EditContract.SomeCase | tile/tools/edit.py:187-198 | the cases are all there are |
| EditContract.WindowMeans | tile/tools/edit.py:375-398 | a window matches if and only if the lines have its text, give or take a final newline it does not claim |
| EditContract.MatchesLineMeans | tile/tools/edit.py:267-295 | an edit matches at a line if and only if the normalized lines from there have its normalized text |
| EditContract.FuzzyAnswers | tile/tools/edit.py:267-308 | one fuzzy edit: the span of the one matching window, not found, or the number of matching windows |
| EditContract.FallbackAnswers | tile/tools/edit.py:213-227 | the fallback's first failing edit is its error, then overlaps, then the spans stand |
| EditFuzzy.FuzzySpanSound | tile/tools/edit.py:332-398 | a fuzzy span lies in the text, and is empty only for an old text that can match a blank line |
| EditFuzzy.FuzzyEdits | tile/tools/edit.py:213-227 | accepted fuzzy spans are disjoint; they splice rightly for every choice of new texts if and only if no two share a start |
| EditFuzzy.BlankLineEditLost | tile/tools/edit.py:347-351 | two accepted edits at one blank line after which a newline that should go stays |
| EditFuzzy.EditedFileReloads | tile/tools/edit.py:149-184 | an edited file loads back as the edited text with its mark and ending, with the exact condition |
| Conversation.HealingClosed | tile/runtime/history.py:63-76 | healing changes nothing in a well-formed transcript |
| Conversation.HealingAddsErrors | tile/runtime/history.py:63-76 | healing only appends, and all it appends are error results |
| Conversation.HealingCompletes | tile/runtime/history.py:63-105 | for a transcript cut inside a turn: healing gives a well-formed one if and only if no pending call reuses an answered id, and then appends one result per pending call in call order |
| Conversation.HealingWithDistinctIds | tile/runtime/history.py:93-105 | distinct call ids are enough |
| RunEvents.RunHistory.Start | tile/runtime/history.py:33-46 | both buffers begin with the prompt, the working one after the committed items |
| RunEvents.RunHistory.Observe | tile/runtime/history.py:48-56 | an event's item goes to both buffers |
| RunEvents.RunHistory.Heal | tile/runtime/history.py:63-76 | the error results go to both buffers |
| RunEvents.ClosedLog | tile/events.py:45-170 | a log that follows the grammar starts with a run start and is closed if and only if its last event is the one terminal event |
| RunProperties.AcceptedHistory | tile/runtime/run_execution.py:59-82 | an accepted run's histories agree |
| RunProperties.ResumeHistory | tile/agent.py:126-300 | every step, whatever the environment answers, keeps working == committed ++ delta, the agent's own history, and a transcript in which only the last turn is open |
| RunProperties.ProviderSeesCommittedPlusDelta | tile/agent.py:136-168 | at every provider call of every attempt the agent's history is the committed snapshot followed by the delta |
| RunProperties.HealRunHistory | tile/runtime/run_execution.py:163-176 | cut anywhere, the healed delta keeps working == committed ++ delta, and is well-formed for distinct call ids |
| RunProperties.ResumeExtends | tile/runtime/history.py:48-56 | no step takes back an event, and both histories grow by exactly the items that the new events carry |
| RunProperties.ResumeReplay | tile/runtime/history.py:79-90 | what a run will commit is its prompt followed by the conversation in its log: completed messages, tool results and reminders |
| RunProperties.ResumeLog | tile/agent.py:98-300 | every step keeps the log a prefix of the run/attempt/turn/message/tool grammar, with a bounded number of attempts |
| RunProperties.CloseLog | tile/runtime/run_execution.py:196-207 | closing adds the one terminal event, which agrees with the result |
| RunProperties.FinishedLog | tile/runtime/execution.py:92-113 | a finished log starts with run start, has one terminal event, at its end, and at most nine attempts |
| RunProperties.ResumeFeed | tile/runtime/run_execution.py:145-150 | no step of the task loses a wake-up |
| RunProperties.CloseFeed | tile/runtime/run_execution.py:152-161 | nor does finalizing, which wakes every waiting subscriber |
| RunProperties.SubscribeFeed | tile/runtime/run_execution.py:96-107 | a subscriber may join at any time, and starts with nothing |
| RunProperties.AdvanceFeed | tile/runtime/run_execution.py:96-107 | a subscriber's step yields at most the next event in order and disturbs no other; one that waits has been given the whole log of an unfinished run |
| RunProperties.AdvanceDelivers | tile/runtime/run_execution.py:99-107 | a subscriber behind the log is given exactly the next event; at its end it returns if and only if the run is finalized, and otherwise waits |
| RunProperties.SubscriberFinishes | tile/runtime/run_execution.py:96-107 | after the terminal event every subscriber can finish by itself, having yielded exactly the log |
| RunLoop.GoesOnExactly | tile/agent.py:90-95 | after a finished turn the provider is called again, on the history with the turn and its results, if and only if some tool ran and none terminates; otherwise the attempt ends |
| RunLoop.ResumeLoop | tile/agent.py:126-151 | over the whole log: a turn starts only first in its attempt or after such a turn; attempts end, runs return and reminders follow only after other turns |
| RunOutcomes.ResultIsFirstDecision | tile/runtime/execution.py:156-168 | a typed result is that of the first terminating execution with result details, and is missing if and only if there is none |
| RunOutcomes.ResumeOutcome | tile/runtime/execution.py:76-113 | whatever the environment answers: a plain run returns the text of the last message of its log; a typed run the first decision among the tool executions of its last attempt, or gives up after exactly nine attempts; it is reminded only if its last attempt decided nothing |
| RunOutcomes.MessageTextAppend | tile/runtime/execution.py:171-176 | a message's text is its text blocks in order with two newlines between them |
| RunOutcomes.AbortedMeansCancelled | tile/runtime/run_execution.py:178-186 | a run's outcome is "aborted" if and only if its task was cancelled |
| RunAnswers.ToolAnswerIsRecorded | tile/agent.py:279-300 | a tool's content, error flag, details and termination are recorded once, under the pending call, in the log and in both histories |
| RunAnswers.RunFollowsItsAnswers | tile/agent.py:154-300 | for every sequence of answers: the log shows exactly the messages the providers sent and the results the tools returned; the run is cancelled, fails or returns exactly as its last answer says, with that error |
| RunExecutions.RunExecution.constructor | tile/runtime/run_execution.py:59-82 | acceptance: fresh histories and a run start |
| RunExecutions.RunExecution.Emit | tile/runtime/run_execution.py:145-150 | histories, log and wake-up in one step |
| RunExecutions.RunExecution.BeginAttempt | tile/agent.py:98-136 | an attempt starts on a copy of the working history |
| RunExecutions.RunExecution.HandleStreamEvent | tile/agent.py:187-257 | how each provider event changes the run |
| RunExecutions.RunExecution.ExecuteTools | tile/agent.py:260-300 | the next tool call starts, or the turn ends |
| RunExecutions.RunExecution.ToolReturned | tile/agent.py:279-300 | an outcome is recorded under its call |
| RunExecutions.RunExecution.ConcludeTurn | tile/agent.py:136-151 | a turn extends the agent's history and executions, and the loop goes on or the attempt ends |
| RunExecutions.RunExecution.EndAttempt | tile/runtime/execution.py:76-113 | plain text outcome, typed result, follow-up, or exhaustion after nine attempts |
| RunExecutions.RunExecution.Resume | tile/agent.py:154-211 | the code from one await to the next, including errors and cancellation |
| RunExecutions.RunExecution.Finish | tile/runtime/run_execution.py:163-194 | heals, commits to the store, and takes the store's outcome when the run had already ended |
| RunExecutions.RunExecution.Finalize | tile/runtime/run_execution.py:152-161 | result, terminal event and finalized flag together |
| RunExecutions.RunExecution.Subscribe | tile/runtime/run_execution.py:96-99 | a new subscriber has been given nothing |
| RunExecutions.RunExecution.Advance | tile/runtime/run_execution.py:99-107 | clear, yield, return or wait, as the loop does |
| Store.SQLiteStore.CreateSession | tile/store/sqlite.py:75-91 | the transaction's whole effect, or none and an error |
| Store.SQLiteStore.StartRun | tile/store/sqlite.py:113-143 | the same for starting, with the committed snapshot |
| Store.SQLiteStore.FinishRun | tile/store/sqlite.py:145-166 | the same for finishing; refused unless the run is active |
| Store.SQLiteStore.AbortActiveRun | tile/store/sqlite.py:168-182 | the same for a durable abort |
| Store.SQLiteStore.ForkSession | tile/store/sqlite.py:209-227 | the same for forking |
| Store.SQLiteStore.EndRunAt | tile/store/sqlite.py:330-371 | run, history and session rows change together or not at all |
| Store.SQLiteStore.InsertHistoryDelta | tile/store/sqlite.py:340-361 | the delta is appended in order from the next position |
| Store.SQLiteStore.CopyHistoryItems | tile/store/sqlite.py:402-419 | copies keep position and run id |
| StoreProperties.HistoryIsRows | tile/store/sqlite.py:373-400 | ordering by position is the order of insertion, and the next position is the length of the history |
| StoreProperties.KeysUnique | tile/store/schema.py:183-190 | no two rows share session and position |
| StoreProperties.AppendDense | tile/store/sqlite.py:340-384 | rows numbered on from a history keep every session's positions 0..n-1 and touch no other session |
| StoreProperties.CreateKeeps | tile/store/sqlite.py:75-91 | creating keeps the store invariant |
| StoreProperties.StartKeeps | tile/store/sqlite.py:113-143 | so does starting: at most one active run per session, unique ids |
| StoreProperties.EndKeeps | tile/store/sqlite.py:330-371 | ending an active run always succeeds, appends exactly its delta, and keeps the invariant under any clock |
| StoreProperties.FinishKeeps | tile/store/sqlite.py:145-166 | finishing keeps the invariant; a refused finish adds nothing |
| StoreProperties.AbortKeeps | tile/store/sqlite.py:168-182 | aborting keeps the invariant and every history |
| StoreProperties.ForkKeeps | tile/store/sqlite.py:209-227 | a fork starts from nothing and gets exactly its source's history; no other history changes |
| StoreProperties.CreateAnswers | tile/store/sqlite.py:75-91 | a session is created if and only if its id is new |
| StoreProperties.StartAnswers | tile/store/sqlite.py:113-143 | a run is started if and only if its session is known and idle and its id is new; which error it is otherwise |
| StoreProperties.FinishAnswers | tile/store/sqlite.py:145-166 | a finish is accepted if and only if the run is there and active; which error it is otherwise |
| StoreProperties.ForkAnswers | tile/store/sqlite.py:209-227 | a fork is made if and only if its source is known and its target is new |
| StoreProperties.AbortIsFound | tile/store/sqlite.py:168-182 | an abort answers nothing if and only if no run of the known session is active; otherwise it ends that run as aborted, and no other row; nothing of the session is active afterwards |
| StoreProperties.GetRunIs | tile/store/sqlite.py:319-328 | reading a run finds exactly the row with both ids |
| StoreProperties.StartIsFound | tile/store/sqlite.py:113-143 | a started run reads back as it was started, with the history of before |
| StoreProperties.FinishIsFound | tile/store/sqlite.py:145-166 | a finished run reads back with its outcome and an end not before its start; the new rows are numbered on, and carry the run's id and end |
| StoreProperties.ForkIsFound | tile/store/sqlite.py:402-419 | a fork reads as its source, row by row, positions and run ids included |
| StoreRuns.StepKeeps | tile/_sqlite.py:27-37 | every transaction, committed or not, keeps the invariant and extends at most one history |
| StoreRuns.ReachableStore | tile/store/sqlite.py:113-227 | after any transactions by any writers under any clock: unique ids, at most one active run per session, positions 0..n-1, no run ends before it starts, updated_at is the latest of created_at and the ends of the session's runs |
| StoreRuns.ReachableIsLater | tile/store/models.py:180-202 | nothing is deleted or rewritten; terminal runs never change; updated_at never goes back |
| StoreRuns.HistoriesGrow | tile/store/sqlite.py:340-361 | every history is a prefix of its later self |
| StoreRuns.ForksDiverge | tile/store/sqlite.py:209-227 | after a fork each of the two sessions is unaffected by anything done to the other |
| StoreRuns.ActiveFreezes | tile/store/sqlite.py:280-296 | while a run stays active no sequence of transactions changes its session's history |
| StoreRuns.StartThenFinish | tile/store/sqlite.py:124-166 | whatever happens in between: if the run is still active the history becomes snapshot ++ delta; otherwise the finish is refused and adds nothing |
| Systems.ReachableSystem | tile/runtime/run_execution.py:122-207 | every reachable system: store invariant, every history a concatenation of whole healed run deltas, every run's histories, log, result, feed and row in agreement; what it will commit is the stored prompt followed by what its log carries |
| Systems.DistinctRunsWellFormed | tile/runtime/history.py:63-105 | a concatenation of healed run deltas, each with distinct call ids, is well-formed |
| Systems.ReachableHistoriesWellFormed | tile/runtime/history.py:63-105 | with distinct call ids per run, every stored assistant turn is followed by exactly one result per call, in call order |
| Systems.FinishedHistory | tile/runtime/run_execution.py:163-176 | a recorded finish leaves the snapshot followed by the healed delta, which is the run's working history; other sessions are untouched |
| Systems.StoredOutcome | tile/runtime/run_execution.py:163-186 | a recorded outcome is "aborted" if and only if the task was cancelled, and a returned one is what the log justifies |
| Systems.FencedFinish | tile/store/sqlite.py:330-338 | a refused or failed finish changes nothing in the store |
| Systems.RecordedExactly | tile/runtime/run_execution.py:163-194 | a finish is recorded if and only if the row is still active and the commit succeeds; an ended run takes the recorded outcome |
| Systems.ProviderSeesTheStore | tile/agent.py:136-168 | a run that still owns its session shows the provider the stored history followed by what it will commit |
| Systems.FinalizedStays | tile/runtime/run_execution.py:109-115 | a finalized run keeps its result and its log |
| Systems.ResultAgrees | tile/runtime/run_execution.py:152-207 | from finalization on, the terminal event is what `wait` returns and, unless faulted, what the store's terminal record says |
| Systems.LoopLogs | tile/agent.py:126-151 | the log of every run of a reachable system, finished or not, is a log of the agent's loop |
| Systems.FinishedLogs | tile/runtime/execution.py:92-113 | every finished log of a reachable system with shaped streams follows the grammar |
| Assembler.StreamAssemblyState.AppendActiveBlock | tile/providers/openai/stream_assembler.py:335-345 | the new block is the last and the active one, by identity |
| Assembler.StreamAssemblyState.AppendDelta | tile/providers/openai/stream_assembler.py:134-193 | mutating the aliased active block changes exactly that block of the list |
| Assembler.StreamAssemblyState.FinalizeReasoning | tile/providers/openai/stream_assembler.py:149-167 | an empty summary keeps the accumulated one |
| Assembler.StreamAssemblyState.FinalizeText | tile/providers/openai/stream_assembler.py:196-214 | the final text replaces the accumulated one |
| Assembler.StreamAssemblyState.FinalizeToolCall | tile/providers/openai/stream_assembler.py:259-278 | all fields are replaced |
| Assembler.StreamAssemblyState.ReplaceToolCallArguments | tile/providers/openai/stream_assembler.py:249-256 | only an active tool call is changed |
| Assembler.StreamAssemblyState.YieldStreamEvent | tile/providers/openai/stream_assembler.py:77-113 | routing of every normalized event |
| Assembler.AssembleStream | tile/providers/openai/stream_assembler.py:55-74 | the loop yields what the specification yields and returns at the terminal event |
| AssemblerProperties.AssembledInv | tile/providers/openai/stream_assembler.py:323-352 | after any events the active block is the last or none, starts are numbered 0, 1, 2, ..., nothing follows a terminal event |
| AssemblerProperties.EventsRebuildTheBlocks | tile/providers/openai/stream_assembler.py:295-320 | folding the events rebuilds the terminal blocks: all text and reasoning, finished or not, and every ended tool call |
| AssemblerInputs.MessageIsItsInput | tile/providers/openai/stream_assembler.py:77-320 | over the input: every block has the fields of the first "done" event of its part, or the concatenation of its deltas; exactly the parts done have an end event; ids and deltas are passed on in order; the terminal event has the input's reason or message, the last response id and the blocks |
| AssemblerInputs.DoneIsFirst | tile/providers/openai/stream_assembler.py:323-352 | no earlier event of the part closes it |
| AssemblerProperties.ReturnsExactly | tile/providers/openai/stream_assembler.py:70-74 | the assembler returns if and only if its input has a terminal event |
| AssemblerProperties.UnfinishedArgumentsAreHidden | tile/providers/openai/stream_assembler.py:249-256 | two streams whose events differ only in the terminal blocks |
| Images.FitLandsInTheBox | tile/tools/support/image_processing.py:268-285 | the fitted size is in the box if and only if the box holds a pixel; it is unchanged if it fits and otherwise touches the box |
| Images.ProportionsKept | tile/tools/support/image_processing.py:268-285 | scaling to the width, to the height or to both in turn keeps the proportions up to half a pixel, and no side is 0 |
| Images.ResizedIsEncoded | tile/tools/support/image_processing.py:148-226 | a resized image is an encoding of what it was, at exactly the recorded sides, in PNG or a listed JPEG quality |
| Images.Base64SizeIs | tile/tools/support/image_processing.py:312-315 | four characters for every three octets, rounded up |
| Images.NextShrinks | tile/tools/support/image_processing.py:288-295 | the next size is smaller unless it is one pixel, so neither guard against no progress is reachable |
| Images.SideReachesOne | tile/tools/support/image_processing.py:288-295 | 3^n * side < 2 * 4^n makes n shrinks enough |
| Images.TwentyThreeShrinks | tile/tools/support/image_processing.py:14-18 | from the default box 23 shrinks reach one pixel, and from its corner no fewer do |
| Images.ProcessedImage.ShrinkByFactor | tile/tools/support/image_processing.py:135-145 | one shrink makes progress; its guard is dead |
| Images.ProcessedImage.ResizeToFitDimensions | tile/tools/support/image_processing.py:122-132 | resizes once, and only if needed |
| Images.ProcessImage | tile/tools/support/image_processing.py:23-44 | the answer is about the first image of the shrink chain that fits or is a single pixel |
| Images.ShrinkToFit | tile/tools/support/image_processing.py:36-39 | the loop ends at that image |
| Images.AnswerIsSound | tile/tools/support/image_processing.py:23-44 | an accepted image fits the byte limit and the box; a rejected one was shrunk to a pixel; the number of shrinks is bounded |
| Images.BestIs | tile/tools/support/image_processing.py:188-198 | the first fitting candidate, or else the first among the smallest |
| Images.UniqueIs | tile/tools/support/image_processing.py:298-301 | each quality is tried once, the configured one first |

## Left out

- Resume: suspension itself is not code here; it is called once per await, and the order of calls is the environment's. Cancellation is delivered at an await, as asyncio does.
- RunProperties.ResumeLog: requires provider streams shaped as a start, updates and a terminal event, which the code does not check; the histories need no such condition.
- AssemblerProperties.EventsRebuildTheBlocks: says nothing of the arguments of unfinished tool calls, because no event shows them.
- AppendDecodedText: takes decoded chunks; the incremental UTF-8 decoder is not part of this model. `Decode` is only ever applied to the encoding of a text.
- MatchFuzzySpans: the Unicode normalization, the quote, dash and space classes and trailing-space removal are one arbitrary function on newline-free lines.
- FitLandsInTheBox: rounding is on exact rationals, half to even; floating-point error is not modelled.
- ProcessImage: image encoders are arbitrary functions from bytes and a size to bytes, and decoding failures are not modelled.
- Finish: a store failure is one bit (the commit or the read fails); the messages of faults are not compared.
- SQLite itself: locking, PRAGMAs, SQL text, migrations; a transaction is one atomic step and its isolation is taken as given.
- JSON encoding, deep copies, datetime formatting, UUIDs and Pydantic validation: values are abstract, and copies are values.
- Agent liveness: a provider that keeps asking for tools keeps a run going; only typed attempts are bounded.
- The OpenAI SDK adapter, request serialization and HTTP transport: event-by-event mapping with little state.
- `bash.py` process control, `find`, `grep`, `ls`, `write` and path handling: I/O plumbing.
- Tool result messages, notices, prompts and diffs as strings: only their numbers are modelled.
- Animated-image, MIME sniffing and EXIF reading: the transposed image is an input.
