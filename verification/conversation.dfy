/** Conversation items, tool results and run outcomes. */
module Conversation {
  import opened Prelude

  datatype Block =
    | TextBlock(text: string)
    | ReasoningBlock(summary: string)
    | ToolCallBlock(call: ToolCall)

  datatype ToolCall = ToolCall(callId: string, name: string, arguments: string)

  datatype TurnStatus = TurnCompleted | TurnAborted | TurnError

  datatype AssistantTurn = AssistantTurn(blocks: seq<Block>, status: TurnStatus)

  datatype ToolResult = ToolResult(callId: string, toolName: string, content: string, isError: bool)

  datatype Item =
    | UserMessage(content: string)
    | Assistant(turn: AssistantTurn)
    | ToolResultTurn(result: ToolResult)

  /** Structured details of a tool execution that matter for typed results. */
  datatype Details = NoDetails | CompleteDetails(value: string) | FailDetails(reason: string)

  datatype ToolOutcome = ToolOutcome(result: ToolResult, details: Details, terminate: bool)

  datatype Failure =
    | AgentFailure(reason: string)
    | TurnFailure(message: string)
    | ExecutionFailure(message: string)

  datatype RunOutcome = Completed(value: string) | Failed(cause: Failure) | Aborted

  /** What `wait` returns: a durable outcome, or a fault of the harness. */
  datatype RunResult = Ended(outcome: RunOutcome) | Faulted(error: string)

  // ----- Tool calls and their answers -----

  /** The tool calls of a turn's blocks, in order. */
  function ToolCalls(blocks: seq<Block>): seq<ToolCall> {
    if blocks == [] then []
    else (if blocks[0].ToolCallBlock? then [blocks[0].call] else []) + ToolCalls(blocks[1..])
  }

  predicate Answers(item: Item, call: ToolCall) {
    item.ToolResultTurn? && item.result.callId == call.callId && item.result.toolName == call.name
  }

  /** One result per call, in call order. */
  predicate AnswersAll(items: seq<Item>, calls: seq<ToolCall>) {
    |items| == |calls| && forall i :: 0 <= i < |calls| ==> Answers(items[i], calls[i])
  }

  /** The calls that the item asks for. */
  function CallsOf(item: Item): seq<ToolCall> {
    if item.Assistant? then ToolCalls(item.turn.blocks) else []
  }

  /** The first item is a user message, or a completed turn that is immediately
      followed by one result per call. */
  predicate HeadAnswered(items: seq<Item>)
    requires items != []
  {
    var calls := CallsOf(items[0]);
    && !items[0].ToolResultTurn?
    && (items[0].Assistant? ==> items[0].turn.status == TurnCompleted)
    && |calls| < |items|
    && AnswersAll(items[1..|calls| + 1], calls)
  }

  /** A well-formed transcript: user messages and completed assistant turns, and
      each turn is immediately followed by exactly one result per tool call, in
      call order. */
  predicate WellFormed(items: seq<Item>)
    decreases |items|
  {
    items == [] || (HeadAnswered(items) && WellFormed(items[|CallsOf(items[0])| + 1..]))
  }

  /** A turn whose calls are not all answered yet, with the answers so far. */
  datatype OpenTurn = OpenTurn(turn: AssistantTurn, answers: seq<Item>) {
    function Calls(): seq<ToolCall> { ToolCalls(turn.blocks) }

    predicate Valid() {
      && turn.status == TurnCompleted
      && |answers| < |Calls()|
      && AnswersAll(answers, Calls()[..|answers|])
    }

    /** The calls without an answer. */
    function Pending(): seq<ToolCall>
      requires |answers| <= |Calls()|
    {
      Calls()[|answers|..]
    }

    function Items(): seq<Item> { [Assistant(turn)] + answers }
  }

  /** A transcript cut at any point: well-formed, but its last turn may be open. */
  ghost predicate IsCut(items: seq<Item>) {
    WellFormed(items) || exists closed: seq<Item>, last: OpenTurn :: IsCutAt(items, closed, last)
  }

  ghost predicate IsCutAt(items: seq<Item>, closed: seq<Item>, last: OpenTurn) {
    WellFormed(closed) && last.Valid() && items == closed + last.Items()
  }

  // ----- Healing -----

  function AnsweredIds(items: seq<Item>): set<string> {
    set i | 0 <= i < |items| && items[i].ToolResultTurn? :: items[i].result.callId
  }

  function Unanswered(calls: seq<ToolCall>, ids: set<string>): seq<ToolCall> {
    if calls == [] then []
    else (if calls[0].callId !in ids then [calls[0]] else []) + Unanswered(calls[1..], ids)
  }

  /** The calls of all assistant turns whose id has no result. */
  function UnansweredCalls(items: seq<Item>, ids: set<string>): seq<ToolCall> {
    if items == [] then []
    else Unanswered(CallsOf(items[0]), ids) + UnansweredCalls(items[1..], ids)
  }

  function ErrorResult(call: ToolCall): Item {
    ToolResultTurn(ToolResult(call.callId, call.name, "Tool execution did not complete.", true))
  }

  function ErrorResults(calls: seq<ToolCall>): (r: seq<Item>)
    ensures |r| == |calls| && AnswersAll(r, calls)
  {
    seq(|calls|, i requires 0 <= i < |calls| => ErrorResult(calls[i]))
  }

  /** What healing appends. */
  function HealingResults(items: seq<Item>): seq<Item> {
    ErrorResults(UnansweredCalls(items, AnsweredIds(items)))
  }

  function Healed(items: seq<Item>): seq<Item> {
    items + HealingResults(items)
  }

  /** What healing appends are errors, all of them, saying that the tool did not complete. */
  lemma HealingAddsErrors(items: seq<Item>)
    ensures items <= Healed(items)
    ensures forall k :: |items| <= k < |Healed(items)|
              ==> IsInterrupted(Healed(items)[k])
  {
    var results := HealingResults(items);
    assert forall k :: 0 <= k < |results| ==> IsInterrupted(results[k]);
  }

  predicate IsInterrupted(item: Item) {
    item.ToolResultTurn? && item.result.isError && item.result.content == "Tool execution did not complete."
  }

  /** No pending call uses an id that already has a result. */
  predicate PendingAreFresh(closed: seq<Item>, last: OpenTurn)
    requires last.Valid()
  {
    forall call :: call in last.Pending() ==> call.callId !in AnsweredIds(closed + last.Items())
  }

  // ----- Facts about transcripts -----

  lemma {:induction false} ToolCallsConcat(a: seq<Block>, b: seq<Block>)
    ensures ToolCalls(a + b) == ToolCalls(a) + ToolCalls(b)
  {
    if a == [] {
      assert a + b == b;
    } else {
      assert (a + b)[1..] == a[1..] + b;
      ToolCallsConcat(a[1..], b);
    }
  }

  lemma {:induction false} WellFormedConcat(a: seq<Item>, b: seq<Item>)
    requires WellFormed(a)
    ensures WellFormed(a + b) <==> WellFormed(b)
    decreases |a|
  {
    if a == [] {
      assert a + b == b;
    } else {
      var n := |CallsOf(a[0])|;
      assert (a + b)[n + 1..] == a[n + 1..] + b;
      assert (a + b)[1..n + 1] == a[1..n + 1];
      WellFormedConcat(a[n + 1..], b);
    }
  }

  lemma FirstThenRest<T>(s: seq<T>, n: nat)
    requires n < |s|
    ensures s == [s[0]] + s[1..n + 1] + s[n + 1..]
  {
  }

  lemma SplitAfterFirst<T>(x: T, s: seq<T>, n: nat)
    requires n <= |s|
    ensures [x] + s == [x] + s[..n] + s[n..]
  {
  }

  /** A well-formed transcript in parts: an item, its answers, and the rest. */
  lemma Unfolded(items: seq<Item>) returns (answers: seq<Item>, tail: seq<Item>)
    requires WellFormed(items) && items != []
    ensures items == [items[0]] + answers + tail && |tail| < |items|
    ensures AnswersAll(answers, CallsOf(items[0])) && WellFormed(tail)
  {
    var n := |CallsOf(items[0])|;
    FirstThenRest(items, n);
    answers, tail := items[1..n + 1], items[n + 1..];
  }

  lemma WellFormedCons(turn: AssistantTurn, answers: seq<Item>, tail: seq<Item>)
    requires turn.status == TurnCompleted && |answers| == |ToolCalls(turn.blocks)|
    ensures WellFormed([Assistant(turn)] + answers + tail)
       <==> AnswersAll(answers, ToolCalls(turn.blocks)) && WellFormed(tail)
  {
  }

  lemma TooShort(turn: AssistantTurn, answers: seq<Item>)
    requires |answers| < |ToolCalls(turn.blocks)|
    ensures !WellFormed([Assistant(turn)] + answers)
  {
  }

  /** A completed turn with all its answers is a well-formed piece. */
  lemma WellFormedTurn(turn: AssistantTurn, answers: seq<Item>)
    requires turn.status == TurnCompleted
    ensures var calls := ToolCalls(turn.blocks);
            WellFormed([Assistant(turn)] + answers) <==>
              |calls| <= |answers| && AnswersAll(answers[..|calls|], calls) && WellFormed(answers[|calls|..])
  {
    var n := |ToolCalls(turn.blocks)|;
    if n <= |answers| {
      SplitAfterFirst(Assistant(turn), answers, n);
      WellFormedCons(turn, answers[..n], answers[n..]);
    } else {
      TooShort(turn, answers);
    }
  }

  lemma {:induction false} UnansweredCallsConcat(a: seq<Item>, b: seq<Item>, ids: set<string>)
    ensures UnansweredCalls(a + b, ids) == UnansweredCalls(a, ids) + UnansweredCalls(b, ids)
  {
    if a == [] {
      assert a + b == b;
    } else {
      assert (a + b)[1..] == a[1..] + b;
      UnansweredCallsConcat(a[1..], b, ids);
    }
  }

  lemma {:induction false} UnansweredConcat(a: seq<ToolCall>, b: seq<ToolCall>, ids: set<string>)
    ensures Unanswered(a + b, ids) == Unanswered(a, ids) + Unanswered(b, ids)
  {
    if a == [] {
      assert a + b == b;
    } else {
      assert (a + b)[1..] == a[1..] + b;
      UnansweredConcat(a[1..], b, ids);
    }
  }

  lemma {:induction false} NoneUnanswered(calls: seq<ToolCall>, ids: set<string>)
    requires forall call :: call in calls ==> call.callId in ids
    ensures Unanswered(calls, ids) == []
  {
    if calls != [] {
      NoneUnanswered(calls[1..], ids);
    }
  }

  lemma {:induction false} AllUnanswered(calls: seq<ToolCall>, ids: set<string>)
    ensures |Unanswered(calls, ids)| <= |calls|
    ensures Unanswered(calls, ids) == calls <==> forall call :: call in calls ==> call.callId !in ids
    ensures |Unanswered(calls, ids)| == |calls| ==> Unanswered(calls, ids) == calls
  {
    if calls != [] {
      AllUnanswered(calls[1..], ids);
      assert calls == [calls[0]] + calls[1..];
    }
  }

  lemma AnsweredInConcat(a: seq<Item>, b: seq<Item>)
    ensures AnsweredIds(a + b) == AnsweredIds(a) + AnsweredIds(b)
  {
    var c := a + b;
    forall id
      ensures id in AnsweredIds(c) <==> id in AnsweredIds(a) || id in AnsweredIds(b)
    {
      if id in AnsweredIds(a) {
        var i :| 0 <= i < |a| && a[i].ToolResultTurn? && a[i].result.callId == id;
        assert c[i] == a[i];
      }
      if id in AnsweredIds(b) {
        var i :| 0 <= i < |b| && b[i].ToolResultTurn? && b[i].result.callId == id;
        assert c[|a| + i] == b[i];
      }
    }
  }

  lemma AnswersGiveIds(items: seq<Item>, calls: seq<ToolCall>)
    requires AnswersAll(items, calls)
    ensures forall call :: call in calls ==> call.callId in AnsweredIds(items)
  {
    forall call | call in calls
      ensures call.callId in AnsweredIds(items)
    {
      var i :| 0 <= i < |calls| && calls[i] == call;
      assert Answers(items[i], calls[i]);
    }
  }

  lemma UnansweredInOne(item: Item, ids: set<string>)
    ensures UnansweredCalls([item], ids) == Unanswered(CallsOf(item), ids)
  {
  }

  /** Calls followed by their results: nothing is left of the answered ones. */
  lemma AnsweredPrefix(item: Item, answers: seq<Item>, answered: seq<ToolCall>, rest: seq<ToolCall>, ids: set<string>)
    requires CallsOf(item) == answered + rest && AnswersAll(answers, answered)
    requires AnsweredIds(answers) <= ids
    ensures UnansweredCalls([item] + answers, ids) == Unanswered(rest, ids)
  {
    UnansweredCallsConcat([item], answers, ids);
    UnansweredInOne(item, ids);
    assert forall i :: 0 <= i < |answers| ==> Answers(answers[i], answered[i]);
    ResultsHaveNoCalls(answers, ids);
    AnswersGiveIds(answers, answered);
    NoneUnanswered(answered, ids);
    UnansweredConcat(answered, rest, ids);
  }

  /** In a well-formed transcript nothing is unanswered. */
  lemma {:induction false} ClosedIsAnswered(items: seq<Item>, ids: set<string>)
    requires WellFormed(items) && AnsweredIds(items) <= ids
    ensures UnansweredCalls(items, ids) == []
    decreases |items|
  {
    if items != [] {
      var answers, tail := Unfolded(items);
      var head := [items[0]] + answers;
      AnsweredInConcat(head, tail);
      AnsweredInConcat([items[0]], answers);
      ClosedIsAnswered(tail, ids);
      AnsweredPrefix(items[0], answers, CallsOf(items[0]), [], ids);
      UnansweredCallsConcat(head, tail, ids);
    }
  }

  lemma {:induction false} ResultsHaveNoCalls(items: seq<Item>, ids: set<string>)
    requires forall i :: 0 <= i < |items| ==> items[i].ToolResultTurn?
    ensures UnansweredCalls(items, ids) == []
  {
    if items != [] {
      ResultsHaveNoCalls(items[1..], ids);
    }
  }

  /** In an open turn the pending calls are the unanswered ones, by id. */
  lemma UnansweredInOpen(last: OpenTurn, ids: set<string>)
    requires last.Valid() && AnsweredIds(last.answers) <= ids
    ensures UnansweredCalls(last.Items(), ids) == Unanswered(last.Pending(), ids)
  {
    var calls, k := last.Calls(), |last.answers|;
    assert calls == calls[..k] + calls[k..];
    AnsweredPrefix(Assistant(last.turn), last.answers, calls[..k], calls[k..], ids);
  }

  /** What healing finds in a cut transcript: pending calls whose id is unknown. */
  lemma UnansweredInCut(items: seq<Item>, closed: seq<Item>, last: OpenTurn)
    requires IsCutAt(items, closed, last)
    ensures UnansweredCalls(items, AnsweredIds(items)) == Unanswered(last.Pending(), AnsweredIds(items))
  {
    var ids := AnsweredIds(items);
    AnsweredInConcat(closed, last.Items());
    AnsweredInConcat([Assistant(last.turn)], last.answers);
    ClosedIsAnswered(closed, ids);
    UnansweredInOpen(last, ids);
    UnansweredCallsConcat(closed, last.Items(), ids);
  }

  /** Healing a well-formed transcript changes nothing. */
  lemma HealingClosed(items: seq<Item>)
    requires WellFormed(items)
    ensures Healed(items) == items
  {
    ClosedIsAnswered(items, AnsweredIds(items));
  }

  /** Healing a cut transcript makes it well-formed exactly when no pending call
      reuses an id that already has a result. The results it appends are then
      one per pending call, in call order. */
  lemma HealingCompletes(items: seq<Item>, closed: seq<Item>, last: OpenTurn)
    requires IsCutAt(items, closed, last)
    ensures WellFormed(Healed(items)) <==> PendingAreFresh(closed, last)
    ensures PendingAreFresh(closed, last) ==> HealingResults(items) == ErrorResults(last.Pending())
  {
    var left := Unanswered(last.Pending(), AnsweredIds(items));
    UnansweredInCut(items, closed, last);
    AllUnanswered(last.Pending(), AnsweredIds(items));
    AppendToOpen(closed, last, ErrorResults(left));
    ClosedTurn(last, ErrorResults(left));
  }

  lemma AppendToOpen(closed: seq<Item>, last: OpenTurn, added: seq<Item>)
    requires WellFormed(closed)
    ensures WellFormed(closed + last.Items() + added)
       <==> WellFormed([Assistant(last.turn)] + (last.answers + added))
  {
    var tail := [Assistant(last.turn)] + (last.answers + added);
    assert closed + last.Items() + added == closed + tail;
    WellFormedConcat(closed, tail);
  }

  /** An open turn is completed by answers to all of its pending calls. */
  lemma ClosedTurn(last: OpenTurn, added: seq<Item>)
    requires last.Valid() && |added| <= |last.Pending()|
    requires |added| == |last.Pending()| ==> AnswersAll(added, last.Pending())
    ensures WellFormed([Assistant(last.turn)] + (last.answers + added)) <==> |added| == |last.Pending()|
  {
    WellFormedTurn(last.turn, last.answers + added);
    if |added| == |last.Pending()| {
      AnswersJoin(last.answers, added, last.Calls());
    }
  }

  lemma AnswersJoin(answers: seq<Item>, added: seq<Item>, calls: seq<ToolCall>)
    requires |answers| <= |calls| && AnswersAll(answers, calls[..|answers|]) && AnswersAll(added, calls[|answers|..])
    ensures |answers + added| == |calls| && AnswersAll((answers + added)[..|calls|], calls)
    ensures (answers + added)[|calls|..] == []
  {
    var all, k := answers + added, |answers|;
    forall i | 0 <= i < |calls|
      ensures Answers(all[i], calls[i])
    {
      if i < k {
        assert Answers(answers[i], calls[..k][i]);
      } else {
        assert Answers(added[i - k], calls[k..][i - k]);
      }
    }
  }

  // ----- Distinct call ids -----

  /** All calls of all turns, in order. */
  function AllCalls(items: seq<Item>): seq<ToolCall> {
    if items == [] then []
    else CallsOf(items[0]) + AllCalls(items[1..])
  }

  predicate DistinctIds(calls: seq<ToolCall>) {
    forall i, j :: 0 <= i < j < |calls| ==> calls[i].callId != calls[j].callId
  }

  lemma {:induction false} AllCallsConcat(a: seq<Item>, b: seq<Item>)
    ensures AllCalls(a + b) == AllCalls(a) + AllCalls(b)
  {
    if a == [] {
      assert a + b == b;
    } else {
      assert (a + b)[1..] == a[1..] + b;
      AllCallsConcat(a[1..], b);
    }
  }

  lemma {:induction false} ResultsAreNoCalls(items: seq<Item>)
    requires forall i :: 0 <= i < |items| ==> items[i].ToolResultTurn?
    ensures AllCalls(items) == []
  {
    if items != [] {
      ResultsAreNoCalls(items[1..]);
    }
  }

  lemma CallsOfOne(item: Item)
    ensures AllCalls([item]) == CallsOf(item)
  {
  }

  lemma CallsOfHead(item: Item, answers: seq<Item>)
    requires forall i :: 0 <= i < |answers| ==> answers[i].ToolResultTurn?
    ensures AllCalls([item] + answers) == CallsOf(item)
  {
    AllCallsConcat([item], answers);
    CallsOfOne(item);
    ResultsAreNoCalls(answers);
  }

  /** The calls of an item, some results, and what follows. */
  lemma HeadCalls(item: Item, answers: seq<Item>, tail: seq<Item>)
    requires forall i :: 0 <= i < |answers| ==> answers[i].ToolResultTurn?
    ensures AllCalls([item] + answers + tail) == CallsOf(item) + AllCalls(tail)
  {
    CallsOfHead(item, answers);
    AllCallsConcat([item] + answers, tail);
  }

  predicate HasId(calls: seq<ToolCall>, id: string) {
    exists i :: 0 <= i < |calls| && calls[i].callId == id
  }

  lemma HasIdConcat(a: seq<ToolCall>, b: seq<ToolCall>, id: string)
    ensures HasId(a + b, id) <==> HasId(a, id) || HasId(b, id)
  {
    if HasId(a, id) {
      var i :| 0 <= i < |a| && a[i].callId == id;
      assert (a + b)[i].callId == id;
    }
    if HasId(b, id) {
      var i :| 0 <= i < |b| && b[i].callId == id;
      assert (a + b)[|a| + i].callId == id;
    }
  }

  lemma AnswersHaveIds(answers: seq<Item>, calls: seq<ToolCall>, id: string)
    requires |answers| <= |calls| && AnswersAll(answers, calls[..|answers|]) && id in AnsweredIds(answers)
    ensures HasId(calls[..|answers|], id)
  {
  }

  /** In a well-formed transcript only calls are answered. */
  lemma {:induction false} AnsweredAreCalls(items: seq<Item>, id: string)
    requires WellFormed(items) && id in AnsweredIds(items)
    ensures HasId(AllCalls(items), id)
    decreases |items|
  {
    var calls := CallsOf(items[0]);
    var answers, tail := Unfolded(items);
    assert calls[..|calls|] == calls;
    AnsweredInConcat([items[0]] + answers, tail);
    AnsweredInConcat([items[0]], answers);
    assert forall i :: 0 <= i < |answers| ==> Answers(answers[i], calls[i]);
    HeadCalls(items[0], answers, tail);
    HasIdConcat(calls, AllCalls(tail), id);
    if id in AnsweredIds(tail) {
      AnsweredAreCalls(tail, id);
    } else {
      AnswersHaveIds(answers, calls, id);
    }
  }

  lemma DistinctParts(a: seq<ToolCall>, b: seq<ToolCall>, id: string)
    requires DistinctIds(a + b) && HasId(b, id)
    ensures !HasId(a, id)
  {
    var j :| 0 <= j < |b| && b[j].callId == id;
    assert (a + b)[|a| + j] == b[j];
    forall i | 0 <= i < |a|
      ensures a[i].callId != id
    {
      assert (a + b)[i] == a[i];
    }
  }

  /** With distinct call ids within the run, healing always completes it. */
  lemma HealingWithDistinctIds(items: seq<Item>)
    requires IsCut(items) && DistinctIds(AllCalls(items))
    ensures WellFormed(Healed(items))
  {
    if WellFormed(items) {
      HealingClosed(items);
    } else {
      var closed, last: OpenTurn :| IsCutAt(items, closed, last);
      PendingFresh(items, closed, last);
      HealingCompletes(items, closed, last);
    }
  }

  lemma PendingFresh(items: seq<Item>, closed: seq<Item>, last: OpenTurn)
    requires IsCutAt(items, closed, last) && DistinctIds(AllCalls(items))
    ensures PendingAreFresh(closed, last)
  {
    var before, calls, k := AllCalls(closed), last.Calls(), |last.answers|;
    AllCallsConcat(closed, last.Items());
    assert forall i :: 0 <= i < k ==> Answers(last.answers[i], calls[..k][i]);
    assert last.Items() == [Assistant(last.turn)] + last.answers + [];
    HeadCalls(Assistant(last.turn), last.answers, []);
    var answered, pending := before + calls[..k], last.Pending();
    assert AllCalls(items) == answered + pending;
    AnsweredInConcat(closed, last.Items());
    AnsweredInConcat([Assistant(last.turn)], last.answers);
    forall call | call in pending
      ensures call.callId !in AnsweredIds(items)
    {
      DistinctParts(answered, pending, call.callId);
      HasIdConcat(before, calls[..k], call.callId);
      if call.callId in AnsweredIds(closed) {
        AnsweredAreCalls(closed, call.callId);
      }
      if call.callId in AnsweredIds(last.answers) {
        AnswersHaveIds(last.answers, calls, call.callId);
      }
    }
  }
}
