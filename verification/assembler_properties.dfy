/** What a consumer of an assembled stream can rely on. */
module AssemblerProperties {
  import opened Prelude
  import opened Assembler

  // ----- Rebuilding the blocks from the events -----

  /** A block as the consumer knows it, and whether its end was seen. */
  datatype Built = Built(block: Block, ended: bool)

  function Extended(block: Block, delta: string): Block {
    match block
    case Text(text, _) => block.(text := text + delta)
    case Reasoning(summary, _) => block.(summary := summary + delta)
    case ToolCall(_, _, _, _) => block
  }

  /** A consumer that only looks at starts, deltas and ends. */
  function Received(built: seq<Built>, event: StreamEvent): seq<Built> {
    match event
    case BlockStart(index, empty) => if index == |built| then built + [Built(empty, false)] else built
    case BlockDelta(index, delta) =>
      if index < |built| then built[index := Built(Extended(built[index].block, delta), built[index].ended)] else built
    case BlockEnd(index, block) => if index < |built| then built[index := Built(block, true)] else built
    case _ => built
  }

  function Rebuilt(events: seq<StreamEvent>): seq<Built> {
    if events == [] then [] else Received(Rebuilt(events[..|events| - 1]), events[|events| - 1])
  }

  /** Text and reasoning agree always; a tool call whose end was not seen agrees
      in all but its arguments. */
  predicate Same(block: Block, built: Built) {
    if block.ToolCall? && !built.ended
    then built.block.ToolCall? && built.block == block.(arguments := built.block.arguments)
    else built.block == block
  }

  predicate Agree(blocks: seq<Block>, built: seq<Built>) {
    |blocks| == |built| && forall i :: 0 <= i < |blocks| ==> Same(blocks[i], built[i])
  }

  // ----- The invariant -----

  /** The indices of the starts, in order. */
  function Starts(events: seq<StreamEvent>): seq<nat> {
    if events == [] then []
    else
      var last := events[|events| - 1];
      Starts(events[..|events| - 1]) + if last.BlockStart? then [last.index] else []
  }

  predicate Numbered(starts: seq<nat>) {
    forall i :: 0 <= i < |starts| ==> starts[i] == i
  }

  function TerminalBlocks(event: StreamEvent): seq<Block>
    requires IsTerminal(event)
  {
    event.blocks
  }

  /** The terminal event, if any, is the last one, and shows the blocks. */
  predicate TerminalInv(p: Progress) {
    && (forall i :: 0 <= i < |p.yielded| - 1 ==> !IsTerminal(p.yielded[i]))
    && (p.returned <==> p.yielded != [] && IsTerminal(p.yielded[|p.yielded| - 1]))
    && (p.returned ==> TerminalBlocks(p.yielded[|p.yielded| - 1]) == p.state.blocks)
  }

  predicate BlocksInv(p: Progress) {
    && Valid(p.state)
    && Agree(p.state.blocks, Rebuilt(p.yielded))
    && (p.state.active.Some? ==> !Rebuilt(p.yielded)[p.state.active.value].ended)
    && Numbered(Starts(p.yielded)) && |Starts(p.yielded)| == |p.state.blocks|
  }

  lemma YieldOne(yielded: seq<StreamEvent>, event: StreamEvent)
    ensures Rebuilt(yielded + [event]) == Received(Rebuilt(yielded), event)
    ensures Starts(yielded + [event]) == Starts(yielded) + if event.BlockStart? then [event.index] else []
  {
  }

  /** A new block. */
  lemma StartStep(p: Progress, block: Block)
    requires BlocksInv(p)
    ensures BlocksInv(Progress(AddBlock(p.state, block), p.yielded + [StartOf(|p.state.blocks|, block)], false))
  {
  }

  /** The active block's end. */
  lemma EndStep(p: Progress, block: Block)
    requires BlocksInv(p) && p.state.active.Some?
    ensures BlocksInv(Progress(Ended(p.state, block).0, p.yielded + [BlockEnd(p.state.active.value, block)], false))
  {
  }

  /** A delta of the active block. */
  lemma DeltaStep(p: Progress, delta: string)
    requires BlocksInv(p) && p.state.active.Some?
    ensures var state := SetActive(p.state, Extended(ActiveBlock(p.state), delta));
            BlocksInv(Progress(state, p.yielded + [BlockDelta(p.state.active.value, delta)], false))
  {
  }

  /** New arguments, which no event shows. */
  lemma ArgumentsStep(p: Progress, arguments: string)
    requires BlocksInv(p)
    ensures BlocksInv(p.(state := ReplaceArguments(p.state, arguments).0))
  {
    if ActiveToolCall(p.state) {
      assert Same(ActiveBlock(p.state), Rebuilt(p.yielded)[p.state.active.value]);
    }
  }

  /** An event that is about no block. */
  lemma OtherStep(p: Progress, responseId: Option<string>, event: StreamEvent, returned: bool)
    requires BlocksInv(p) && (event.StreamStart? || IsTerminal(event))
    ensures BlocksInv(Progress(p.state.(responseId := responseId), p.yielded + [event], returned))
  {
  }

  /** The inputs that act on the active block only. */
  predicate ActsOnBlock(event: Normalized) {
    || event.ReasoningDelta? || event.ReasoningDone? || event.MessageTextDelta? || event.MessageDone?
    || event.ToolCallArgumentsDelta? || event.ToolCallArgumentsDone? || event.ToolCallDone?
  }

  lemma BlockStep(p: Progress, event: Normalized)
    requires BlocksInv(p) && !p.returned && ActsOnBlock(event)
    ensures BlocksInv(Consumed(p, event))
  {
    var out := Routed(p.state, event).1;
    if out.Some? {
      if out.value.BlockDelta? {
        DeltaStep(p, out.value.delta);
      } else {
        EndStep(p, out.value.block);
      }
    } else if event.ToolCallArgumentsDone? {
      ArgumentsStep(p, event.arguments);
    }
  }

  lemma ConsumeBlocks(p: Progress, event: Normalized)
    requires BlocksInv(p)
    ensures BlocksInv(Consumed(p, event))
  {
    if p.returned {
    } else if ActsOnBlock(event) {
      BlockStep(p, event);
    } else if event.ReasoningAdded? {
      StartStep(p, Reasoning("", None));
    } else if event.MessageAdded? {
      StartStep(p, Text("", None));
    } else if event.ToolCallAdded? {
      StartStep(p, ToolCall(event.callId, event.name, event.arguments, None));
    } else {
      var (state, out) := Routed(p.state, event);
      OtherStep(p, state.responseId, out.value, IsTerminalInput(event));
    }
  }

  lemma ConsumeTerminal(p: Progress, event: Normalized)
    requires TerminalInv(p)
    ensures TerminalInv(Consumed(p, event))
  {
  }

  // ----- For every stream -----

  /** After any events: the active block is the last or none, starts are numbered
      0, 1, 2, ..., a terminal event is the last one yielded, and the blocks are
      those that the yielded events describe. */
  lemma {:induction false} AssembledInv(events: seq<Normalized>)
    ensures BlocksInv(Assembled(events)) && TerminalInv(Assembled(events))
  {
    if events != [] {
      AssembledInv(events[..|events| - 1]);
      ConsumeBlocks(Assembled(events[..|events| - 1]), events[|events| - 1]);
      ConsumeTerminal(Assembled(events[..|events| - 1]), events[|events| - 1]);
    }
  }

  /** Folding the events before the terminal one gives the terminal blocks: all
      text and reasoning, finished or not, and every tool call that ended. */
  lemma EventsRebuildTheBlocks(events: seq<Normalized>)
    requires Assembled(events).returned
    ensures var yielded := Assembled(events).yielded;
            && yielded != [] && IsTerminal(yielded[|yielded| - 1])
            && Agree(TerminalBlocks(yielded[|yielded| - 1]), Rebuilt(yielded[..|yielded| - 1]))
            && |Starts(yielded)| == |TerminalBlocks(yielded[|yielded| - 1])|
  {
    AssembledInv(events);
    var yielded := Assembled(events).yielded;
    var n := |yielded| - 1;
    assert yielded == yielded[..n] + [yielded[n]];
    YieldOne(yielded[..n], yielded[n]);
  }

  /** The assembler returns exactly when its input has a terminal event. */
  lemma {:induction false} ReturnsExactly(events: seq<Normalized>)
    ensures Assembled(events).returned <==> exists i :: 0 <= i < |events| && IsTerminalInput(events[i])
  {
    if events != [] {
      var front := events[..|events| - 1];
      ReturnsExactly(front);
      if exists i :: 0 <= i < |front| && IsTerminalInput(front[i]) {
        var i :| 0 <= i < |front| && IsTerminalInput(front[i]);
        assert IsTerminalInput(events[i]);
      }
      if exists i :: 0 <= i < |events| && IsTerminalInput(events[i]) {
        var i :| 0 <= i < |events| && IsTerminalInput(events[i]);
        assert i < |front| ==> IsTerminalInput(front[i]);
      }
    }
  }

  /** The arguments of an unfinished tool call are in no event before the
      terminal one: two streams may differ in nothing else. */
  lemma UnfinishedArgumentsAreHidden()
    ensures var a := Assembled([ToolCallAdded("c", "f", "{}"), ToolCallArgumentsDone("x"), ResponseFailed("m")]);
            var b := Assembled([ToolCallAdded("c", "f", "{}"), ToolCallArgumentsDone("y"), ResponseFailed("m")]);
            && |a.yielded| == |b.yielded| == 2 && a.yielded[0] == b.yielded[0]
            && a.yielded[1] == StreamError(None, "m", [ToolCall("c", "f", "x", None)])
            && b.yielded[1] == StreamError(None, "m", [ToolCall("c", "f", "y", None)])
  {
    HiddenArguments("x");
    HiddenArguments("y");
  }

  lemma HiddenArguments(arguments: string)
    ensures Assembled([ToolCallAdded("c", "f", "{}"), ToolCallArgumentsDone(arguments), ResponseFailed("m")]).yielded
         == [BlockStart(0, ToolCall("c", "f", "", None)), StreamError(None, "m", [ToolCall("c", "f", arguments, None)])]
  {
    var first, second, third := ToolCallAdded("c", "f", "{}"), ToolCallArgumentsDone(arguments), ResponseFailed("m");
    assert [first][..0] == [] && [first, second][..1] == [first] && [first, second, third][..2] == [first, second];
    var one := Assembled([first]);
    assert one == Consumed(Assembled([]), first);
    var two := Assembled([first, second]);
    assert two == Consumed(one, second);
    assert Assembled([first, second, third]) == Consumed(two, third);
    assert one.state.blocks == [ToolCall("c", "f", "{}", None)];
    assert two.state.blocks == [ToolCall("c", "f", arguments, None)];
  }
}
