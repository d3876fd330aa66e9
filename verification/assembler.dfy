/** Assembling one assistant message from normalized provider events. */
module Assembler {
  import opened Prelude

  type Metadata = Option<map<string, string>>

  datatype Block =
    | Text(text: string, metadata: Metadata)
    | Reasoning(summary: string, metadata: Metadata)
    | ToolCall(callId: string, name: string, arguments: string, metadata: Metadata)

  datatype StopReason = Stop | Length | ToolUse | ErrorStop | AbortedStop

  /** What the provider adapter yields. */
  datatype Normalized =
    | Created(responseId: string)
    | ReasoningAdded
    | ReasoningDelta(delta: string)
    | ReasoningDone(summary: string, signature: Option<string>)
    | MessageAdded
    | MessageTextDelta(delta: string)
    | MessageDone(itemId: string, text: string, phase: Option<string>)
    | ToolCallAdded(callId: string, name: string, arguments: string)
    | ToolCallArgumentsDelta(delta: string)
    | ToolCallArgumentsDone(arguments: string)
    | ToolCallDone(itemId_: Option<string>, callId: string, name: string, arguments: string)
    | ResponseCompleted(stopReason: StopReason)
    | ResponseIncomplete(stopReason: StopReason, errorMessage: Option<string>)
    | ResponseFailed(message: string)

  /** What the consumer of the stream is given. */
  datatype StreamEvent =
    | StreamStart(id: string)
    | BlockStart(index: nat, empty: Block)
    | BlockDelta(index: nat, delta: string)
    | BlockEnd(index: nat, block: Block)
    | StreamDone(responseId: Option<string>, stopReason: StopReason, blocks: seq<Block>)
    | StreamError(responseId: Option<string>, message: string, blocks: seq<Block>)

  /** Metadata of the values that are present, or none at all. */
  function Present(key: string, value: Option<string>): map<string, string> {
    if value.Some? then map[key := value.value] else map[]
  }

  function FromValues(values: map<string, string>): Metadata {
    if values == map[] then None else Some(values)
  }

  predicate IsTerminalInput(event: Normalized) {
    event.ResponseCompleted? || event.ResponseIncomplete? || event.ResponseFailed?
  }

  predicate IsTerminal(event: StreamEvent) {
    event.StreamDone? || event.StreamError?
  }

  // ----- The state -----

  datatype Assembly = Assembly(responseId: Option<string>, blocks: seq<Block>, active: Option<nat>)

  const START := Assembly(None, [], None)

  /** The active block is the last one, or there is none. */
  predicate Valid(s: Assembly) {
    s.active.Some? ==> s.active.value + 1 == |s.blocks|
  }

  function ActiveBlock(s: Assembly): Block
    requires Valid(s) && s.active.Some?
  {
    s.blocks[s.active.value]
  }

  predicate ActiveText(s: Assembly) {
    Valid(s) && s.active.Some? && ActiveBlock(s).Text?
  }

  predicate ActiveReasoning(s: Assembly) {
    Valid(s) && s.active.Some? && ActiveBlock(s).Reasoning?
  }

  predicate ActiveToolCall(s: Assembly) {
    Valid(s) && s.active.Some? && ActiveBlock(s).ToolCall?
  }

  type Outcome = (Assembly, Option<StreamEvent>)

  /** Appends a block and makes it the active one. */
  function AddBlock(s: Assembly, block: Block): Assembly {
    s.(blocks := s.blocks + [block], active := Some(|s.blocks|))
  }

  function SetActive(s: Assembly, block: Block): Assembly
    requires Valid(s) && s.active.Some?
  {
    s.(blocks := s.blocks[s.active.value := block])
  }

  /** The event for a new block. A tool call's start does not show its arguments. */
  function StartOf(index: nat, block: Block): StreamEvent {
    BlockStart(index, if block.ToolCall? then block.(arguments := "") else block)
  }

  function Added(s: Assembly, block: Block): Outcome {
    (AddBlock(s, block), Some(StartOf(|s.blocks|, block)))
  }

  /** Replaces the active block, and leaves none active. */
  function Ended(s: Assembly, block: Block): Outcome
    requires Valid(s) && s.active.Some?
  {
    (SetActive(s, block).(active := None), Some(BlockEnd(s.active.value, block)))
  }

  function AppendReasoning(s: Assembly, delta: string): Outcome {
    if !ActiveReasoning(s) then (s, None)
    else
      var block := ActiveBlock(s);
      (SetActive(s, block.(summary := block.summary + delta)), Some(BlockDelta(s.active.value, delta)))
  }

  function FinishReasoning(s: Assembly, summary: string, signature: Option<string>): Outcome {
    if !ActiveReasoning(s) then (s, None)
    else
      var metadata := FromValues(Present("reasoning_signature", signature));
      Ended(s, Reasoning(if summary != "" then summary else ActiveBlock(s).summary, metadata))
  }

  function AppendText(s: Assembly, delta: string): Outcome {
    if !ActiveText(s) then (s, None)
    else
      var block := ActiveBlock(s);
      (SetActive(s, block.(text := block.text + delta)), Some(BlockDelta(s.active.value, delta)))
  }

  function MessageMetadata(itemId: string, phase: Option<string>): Metadata {
    FromValues(map["message_id" := itemId] + Present("phase", phase))
  }

  function FinishText(s: Assembly, itemId: string, text: string, phase: Option<string>): Outcome {
    if !ActiveText(s) then (s, None) else Ended(s, Text(text, MessageMetadata(itemId, phase)))
  }

  function ReplaceArguments(s: Assembly, arguments: string): Outcome {
    if !ActiveToolCall(s) then (s, None) else (SetActive(s, ActiveBlock(s).(arguments := arguments)), None)
  }

  function FinishToolCall(s: Assembly, itemId: Option<string>, callId: string, name: string, arguments: string): Outcome
  {
    if !ActiveToolCall(s) then (s, None)
    else Ended(s, ToolCall(callId, name, arguments, FromValues(Present("provider_item_id", itemId))))
  }

  function IncompleteEvent(s: Assembly, stopReason: StopReason, message: Option<string>): StreamEvent {
    if stopReason != ErrorStop then StreamDone(s.responseId, stopReason, s.blocks)
    else
      var shown := if message.Some? && message.value != "" then message.value else "OpenAI response incomplete.";
      StreamError(s.responseId, shown, s.blocks)
  }

  /** Routes one normalized event. */
  function Routed(s: Assembly, event: Normalized): Outcome {
    match event
    case Created(id) => (s.(responseId := Some(id)), Some(StreamStart(id)))
    case ReasoningAdded => Added(s, Reasoning("", None))
    case ReasoningDelta(delta) => AppendReasoning(s, delta)
    case ReasoningDone(summary, signature) => FinishReasoning(s, summary, signature)
    case MessageAdded => Added(s, Text("", None))
    case MessageTextDelta(delta) => AppendText(s, delta)
    case MessageDone(itemId, text, phase) => FinishText(s, itemId, text, phase)
    case ToolCallAdded(callId, name, arguments) => Added(s, ToolCall(callId, name, arguments, None))
    case ToolCallArgumentsDelta(delta) =>
      (s, if ActiveToolCall(s) then Some(BlockDelta(s.active.value, delta)) else None)
    case ToolCallArgumentsDone(arguments) => ReplaceArguments(s, arguments)
    case ToolCallDone(itemId, callId, name, arguments) => FinishToolCall(s, itemId, callId, name, arguments)
    case ResponseCompleted(stopReason) => (s, Some(StreamDone(s.responseId, stopReason, s.blocks)))
    case ResponseIncomplete(stopReason, message) => (s, Some(IncompleteEvent(s, stopReason, message)))
    case ResponseFailed(message) => (s, Some(StreamError(s.responseId, message, s.blocks)))
  }

  // ----- A whole stream -----

  /** Where the assembler stands: its state, what it yielded, and whether it returned. */
  datatype Progress = Progress(state: Assembly, yielded: seq<StreamEvent>, returned: bool)

  function Consumed(p: Progress, event: Normalized): Progress {
    if p.returned then p
    else
      var (state, out) := Routed(p.state, event);
      Progress(state, if out.Some? then p.yielded + [out.value] else p.yielded, IsTerminalInput(event))
  }

  function Assembled(events: seq<Normalized>): Progress {
    if events == [] then Progress(START, [], false)
    else Consumed(Assembled(events[..|events| - 1]), events[|events| - 1])
  }

  // ----- The assembler object -----

  datatype Kind = TextKind | ReasoningKind | ToolCallKind

  /** One accumulated block, mutated in place while it is active. */
  class AssistantBlock {
    const kind: Kind
    var content: string
    var callId: string
    var name: string
    var metadata: Metadata

    function Copy(): Block
      reads this
    {
      match kind
      case TextKind => Text(content, metadata)
      case ReasoningKind => Reasoning(content, metadata)
      case ToolCallKind => ToolCall(callId, name, content, metadata)
    }

    constructor (kind: Kind, content: string, callId: string, name: string)
      ensures this.kind == kind && this.content == content && metadata == None
      ensures this.callId == callId && this.name == name
    {
      this.kind, this.content, this.callId, this.name := kind, content, callId, name;
      metadata := None;
    }
  }

  function CopyBlocks(blocks: seq<AssistantBlock>): (r: seq<Block>)
    reads blocks
    ensures |r| == |blocks| && forall i :: 0 <= i < |r| ==> r[i] == blocks[i].Copy()
  {
    if blocks == [] then [] else CopyBlocks(blocks[..|blocks| - 1]) + [blocks[|blocks| - 1].Copy()]
  }

  class StreamAssemblyState {
    var responseId: Option<string>
    var blocks: seq<AssistantBlock>
    var activeBlock: AssistantBlock?
    var activeBlockIndex: Option<nat>

    /** The active block is the object at the active index, which is the last. */
    ghost predicate Valid()
      reads this
    {
      && (forall i, j :: 0 <= i < j < |blocks| ==> blocks[i] != blocks[j])
      && (activeBlock == null <==> activeBlockIndex.None?)
      && (activeBlock != null
          ==> activeBlockIndex.value + 1 == |blocks| && activeBlock == blocks[activeBlockIndex.value])
    }

    ghost function View(): Assembly
      reads this, blocks
    {
      Assembly(responseId, CopyBlocks(blocks), activeBlockIndex)
    }

    constructor ()
      ensures Valid() && View() == START && fresh(blocks)
    {
      responseId, blocks, activeBlock, activeBlockIndex := None, [], null, None;
    }

    method AppendActiveBlock(block: AssistantBlock) returns (contentIndex: nat)
      requires Valid() && block !in blocks
      modifies this
      ensures Valid() && blocks == old(blocks) + [block]
      ensures contentIndex == |old(blocks)| && View() == AddBlock(old(View()), block.Copy())
    {
      contentIndex := |blocks|;
      blocks := blocks + [block];
      activeBlock, activeBlockIndex := block, Some(contentIndex);
    }

    method ClearActiveBlock()
      requires Valid()
      modifies this
      ensures Valid() && blocks == old(blocks) && View() == old(View()).(active := None)
    {
      activeBlock, activeBlockIndex := null, None;
    }

    predicate HasActive(kind: Kind)
      reads this, activeBlock
    {
      activeBlock != null && activeBlock.kind == kind && activeBlockIndex.Some?
    }

    method Start(kind: Kind, content: string, callId: string, name: string) returns (event: Option<StreamEvent>)
      requires Valid()
      modifies this
      ensures Valid() && forall i :: 0 <= i < |blocks| ==> blocks[i] in old(blocks) || fresh(blocks[i])
      ensures var block := match kind
                case TextKind => Text(content, None)
                case ReasoningKind => Reasoning(content, None)
                case ToolCallKind => ToolCall(callId, name, content, None);
              (View(), event) == Added(old(View()), block)
    {
      var block := new AssistantBlock(kind, content, callId, name);
      var index := AppendActiveBlock(block);
      event := Some(StartOf(index, block.Copy()));
    }

    /** Appends to the active block if it is of the given kind. */
    method AppendDelta(kind: Kind, delta: string) returns (event: Option<StreamEvent>)
      requires Valid() && kind != ToolCallKind
      modifies blocks
      ensures Valid()
      ensures (View(), event)
           == if kind == TextKind then AppendText(old(View()), delta) else AppendReasoning(old(View()), delta)
    {
      hide CopyBlocks;
      if !HasActive(kind) {
        return None;
      }
      activeBlock.content := activeBlock.content + delta;
      assert View().blocks == old(View()).blocks[activeBlockIndex.value := activeBlock.Copy()];
      return Some(BlockDelta(activeBlockIndex.value, delta));
    }

    method FinalizeReasoning(summary: string, signature: Option<string>) returns (event: Option<StreamEvent>)
      requires Valid()
      modifies this, blocks
      ensures Valid() && blocks == old(blocks)
      ensures (View(), event) == FinishReasoning(old(View()), summary, signature)
    {
      hide CopyBlocks;
      if !HasActive(ReasoningKind) {
        return None;
      }
      var block, index := activeBlock, activeBlockIndex.value;
      if summary != "" {
        block.content := summary;
      }
      block.metadata := FromValues(Present("reasoning_signature", signature));
      ClearActiveBlock();
      assert View().blocks == old(View()).blocks[index := block.Copy()];
      return Some(BlockEnd(index, block.Copy()));
    }

    method FinalizeText(itemId: string, text: string, phase: Option<string>) returns (event: Option<StreamEvent>)
      requires Valid()
      modifies this, blocks
      ensures Valid() && blocks == old(blocks)
      ensures (View(), event) == FinishText(old(View()), itemId, text, phase)
    {
      hide CopyBlocks;
      if !HasActive(TextKind) {
        return None;
      }
      var block, index := activeBlock, activeBlockIndex.value;
      block.content := text;
      block.metadata := MessageMetadata(itemId, phase);
      ClearActiveBlock();
      assert View().blocks == old(View()).blocks[index := block.Copy()];
      return Some(BlockEnd(index, block.Copy()));
    }

    method ReplaceToolCallArguments(arguments: string)
      requires Valid()
      modifies blocks
      ensures Valid() && View() == ReplaceArguments(old(View()), arguments).0
    {
      if HasActive(ToolCallKind) {
        activeBlock.content := arguments;
      }
    }

    method FinalizeToolCall(itemId: Option<string>, callId: string, name: string, arguments: string)
      returns (event: Option<StreamEvent>)
      requires Valid()
      modifies this, blocks
      ensures Valid() && blocks == old(blocks)
      ensures (View(), event) == FinishToolCall(old(View()), itemId, callId, name, arguments)
    {
      hide CopyBlocks;
      if !HasActive(ToolCallKind) {
        return None;
      }
      var block, index := activeBlock, activeBlockIndex.value;
      block.callId, block.name, block.content := callId, name, arguments;
      block.metadata := FromValues(Present("provider_item_id", itemId));
      ClearActiveBlock();
      assert View().blocks == old(View()).blocks[index := block.Copy()];
      return Some(BlockEnd(index, block.Copy()));
    }

    /** Routes one normalized event to its handler. */
    method YieldStreamEvent(event: Normalized) returns (out: Option<StreamEvent>)
      requires Valid()
      modifies this, blocks
      ensures Valid() && forall i :: 0 <= i < |blocks| ==> blocks[i] in old(blocks) || fresh(blocks[i])
      ensures (View(), out) == Routed(old(View()), event)
    {
      hide CopyBlocks;
      match event
      case Created(id) =>
        responseId := Some(id);
        out := Some(StreamStart(id));
      case ReasoningAdded => out := Start(ReasoningKind, "", "", "");
      case ReasoningDelta(delta) => out := AppendDelta(ReasoningKind, delta);
      case ReasoningDone(summary, signature) => out := FinalizeReasoning(summary, signature);
      case MessageAdded => out := Start(TextKind, "", "", "");
      case MessageTextDelta(delta) => out := AppendDelta(TextKind, delta);
      case MessageDone(itemId, text, phase) => out := FinalizeText(itemId, text, phase);
      case ToolCallAdded(callId, name, arguments) => out := Start(ToolCallKind, arguments, callId, name);
      case ToolCallArgumentsDelta(delta) =>
        out := if HasActive(ToolCallKind) then Some(BlockDelta(activeBlockIndex.value, delta)) else None;
      case ToolCallArgumentsDone(arguments) =>
        ReplaceToolCallArguments(arguments);
        out := None;
      case ToolCallDone(itemId, callId, name, arguments) => out := FinalizeToolCall(itemId, callId, name, arguments);
      case ResponseCompleted(stopReason) => out := Some(StreamDone(responseId, stopReason, CopyBlocks(blocks)));
      case ResponseIncomplete(stopReason, message) => out := Some(BuildIncomplete(stopReason, message));
      case ResponseFailed(message) => out := Some(StreamError(responseId, message, CopyBlocks(blocks)));
    }

    function BuildIncomplete(stopReason: StopReason, message: Option<string>): StreamEvent
      reads this, blocks
    {
      if stopReason == ErrorStop then
        var text := if message == None || message.value == "" then "OpenAI response incomplete." else message.value;
        StreamError(responseId, text, CopyBlocks(blocks))
      else StreamDone(responseId, stopReason, CopyBlocks(blocks))
    }
  }

  lemma {:induction false} ReturnedStays(events: seq<Normalized>, k: nat)
    requires k <= |events| && Assembled(events[..k]).returned
    ensures Assembled(events) == Assembled(events[..k])
  {
    if k < |events| {
      var front := events[..|events| - 1];
      assert front[..k] == events[..k];
      ReturnedStays(front, k);
    } else {
      assert events[..k] == events;
    }
  }

  /** Consumes a normalized stream up to its terminal event. */
  method AssembleStream(events: seq<Normalized>) returns (yielded: seq<StreamEvent>)
    ensures yielded == Assembled(events).yielded
  {
    hide CopyBlocks, Routed;
    var state := new StreamAssemblyState();
    yielded := [];
    for k := 0 to |events|
      invariant state.Valid() && fresh(state) && fresh(state.blocks)
      invariant Assembled(events[..k]) == Progress(state.View(), yielded, false)
    {
      assert events[..k + 1][..k] == events[..k];
      var out := state.YieldStreamEvent(events[k]);
      if out.Some? {
        yielded := yielded + [out.value];
      }
      if IsTerminalInput(events[k]) {
        ReturnedStays(events, k + 1);
        return;
      }
    }
    assert events[..|events|] == events;
  }
}
