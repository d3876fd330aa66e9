/** The assembled message, read off the normalized events that went in. */
module AssemblerInputs {
  import opened Prelude
  import opened Assembler

  // ----- The input in parts -----

  /** The input up to its first terminal event: what follows is never read. */
  function Heard(events: seq<Normalized>): seq<Normalized> {
    if events == [] then []
    else
      var heard := Heard(events[..|events| - 1]);
      if heard != [] && IsTerminalInput(heard[|heard| - 1]) then heard else heard + [events[|events| - 1]]
  }

  predicate Opens(event: Normalized) {
    event.ReasoningAdded? || event.MessageAdded? || event.ToolCallAdded?
  }

  /** An event that opens a block, and the events up to the next one that does. */
  datatype Part = Part(opening: Normalized, rest: seq<Normalized>)

  function Parts(events: seq<Normalized>): seq<Part> {
    if events == [] then []
    else
      var front, last := Parts(events[..|events| - 1]), events[|events| - 1];
      if Opens(last) then front + [Part(last, [])]
      else if front == [] then []
      else
        var n := |front| - 1;
        front[n := Part(front[n].opening, front[n].rest + [last])]
  }

  /** The "done" event that belongs to an opening. */
  predicate Closes(opening: Normalized, event: Normalized) {
    || (opening.ReasoningAdded? && event.ReasoningDone?)
    || (opening.MessageAdded? && event.MessageDone?)
    || (opening.ToolCallAdded? && event.ToolCallDone?)
  }

  /** Where the first such event is; |rest| if there is none. */
  function DoneAt(opening: Normalized, rest: seq<Normalized>): (d: nat)
    ensures d <= |rest|
    ensures d < |rest| ==> Closes(opening, rest[d])
  {
    if rest == [] then 0
    else
      var d := DoneAt(opening, rest[..|rest| - 1]);
      if d < |rest| - 1 || Closes(opening, rest[|rest| - 1]) then d else |rest|
  }

  lemma {:induction false} DoneIsFirst(opening: Normalized, rest: seq<Normalized>)
    ensures forall i :: 0 <= i < DoneAt(opening, rest) ==> !Closes(opening, rest[i])
  {
    if rest != [] {
      DoneIsFirst(opening, rest[..|rest| - 1]);
    }
  }

  predicate Closed(part: Part) {
    DoneAt(part.opening, part.rest) < |part.rest|
  }

  // ----- What each part amounts to -----

  /** The deltas that belong to an opening, put together. */
  function Deltas(opening: Normalized, rest: seq<Normalized>): string {
    if rest == [] then ""
    else
      var last := rest[|rest| - 1];
      Deltas(opening, rest[..|rest| - 1])
      + (if opening.ReasoningAdded? && last.ReasoningDelta? then last.delta
         else if opening.MessageAdded? && last.MessageTextDelta? then last.delta
         else "")
  }

  /** The arguments of a call that is not done: the last complete ones given. */
  function LastArguments(first: string, rest: seq<Normalized>): string {
    if rest == [] then first
    else if rest[|rest| - 1].ToolCallArgumentsDone? then rest[|rest| - 1].arguments
    else LastArguments(first, rest[..|rest| - 1])
  }

  function Single(key: string, value: Option<string>): Metadata {
    match value
    case None => None
    case Some(v) => Some(map[key := v])
  }

  /** The block of a part: the fields of its "done" event, or what has come so far. */
  function BlockOf(part: Part): Block
    requires Opens(part.opening)
  {
    var d := DoneAt(part.opening, part.rest);
    if d < |part.rest| then
      match part.rest[d]
      case MessageDone(itemId, text, phase) =>
        Text(text, Some(if phase == None then map["message_id" := itemId]
                        else map["message_id" := itemId, "phase" := phase.value]))
      case ReasoningDone(summary, signature) =>
        Reasoning(if summary == "" then Deltas(part.opening, part.rest[..d]) else summary,
                  Single("reasoning_signature", signature))
      case ToolCallDone(itemId, callId, name, arguments) =>
        ToolCall(callId, name, arguments, Single("provider_item_id", itemId))
    else
      match part.opening
      case MessageAdded => Text(Deltas(part.opening, part.rest), None)
      case ReasoningAdded => Reasoning(Deltas(part.opening, part.rest), None)
      case ToolCallAdded(callId, name, arguments) => ToolCall(callId, name, LastArguments(arguments, part.rest), None)
  }

  predicate AllOpen(parts: seq<Part>) {
    forall i :: 0 <= i < |parts| ==> Opens(parts[i].opening)
  }

  function BlocksOf(parts: seq<Part>): (blocks: seq<Block>)
    requires AllOpen(parts)
    ensures |blocks| == |parts| && forall i :: 0 <= i < |parts| ==> blocks[i] == BlockOf(parts[i])
  {
    seq(|parts|, i requires 0 <= i < |parts| => BlockOf(parts[i]))
  }

  /** The block ends that a message should show: one for every part that is done,
      with its block, in order. */
  function EndsOf(parts: seq<Part>): seq<StreamEvent>
    requires AllOpen(parts)
  {
    if parts == [] then []
    else
      var n := |parts| - 1;
      EndsOf(parts[..n]) + if Closed(parts[n]) then [BlockEnd(n, BlockOf(parts[n]))] else []
  }

  function Ends(yielded: seq<StreamEvent>): seq<StreamEvent> {
    if yielded == [] then []
    else
      var last := yielded[|yielded| - 1];
      Ends(yielded[..|yielded| - 1]) + if last.BlockEnd? then [last] else []
  }

  /** A delta of the kind that an opening calls for. */
  predicate DeltaFor(opening: Normalized, event: Normalized) {
    || (opening.ReasoningAdded? && event.ReasoningDelta?)
    || (opening.MessageAdded? && event.MessageTextDelta?)
    || (opening.ToolCallAdded? && event.ToolCallArgumentsDelta?)
  }

  /** What one input passes on: a response id, or a delta of the part still open. */
  function PassedOn(parts: seq<Part>, event: Normalized): seq<StreamEvent> {
    var n := |parts| - 1;
    if event.Created? then [StreamStart(event.responseId)]
    else if parts != [] && !Closed(parts[n]) && DeltaFor(parts[n].opening, event) then [BlockDelta(n, event.delta)]
    else []
  }

  function Passed(events: seq<Normalized>): seq<StreamEvent> {
    if events == [] then []
    else
      var front := events[..|events| - 1];
      Passed(front) + PassedOn(Parts(front), events[|events| - 1])
  }

  predicate Passes(event: StreamEvent) {
    event.StreamStart? || event.BlockDelta?
  }

  function Passing(yielded: seq<StreamEvent>): seq<StreamEvent> {
    if yielded == [] then []
    else
      var last := yielded[|yielded| - 1];
      Passing(yielded[..|yielded| - 1]) + if Passes(last) then [last] else []
  }

  /** The id that was last announced. */
  function LastCreated(events: seq<Normalized>): Option<string> {
    if events == [] then None
    else if events[|events| - 1].Created? then Some(events[|events| - 1].responseId)
    else LastCreated(events[..|events| - 1])
  }

  /** The terminal event that an input calls for. */
  function TerminalFor(event: Normalized, id: Option<string>, blocks: seq<Block>): StreamEvent
    requires IsTerminalInput(event)
  {
    match event
    case ResponseCompleted(stopReason) => StreamDone(id, stopReason, blocks)
    case ResponseFailed(message) => StreamError(id, message, blocks)
    case ResponseIncomplete(ErrorStop, None) => StreamError(id, "OpenAI response incomplete.", blocks)
    case ResponseIncomplete(ErrorStop, Some("")) => StreamError(id, "OpenAI response incomplete.", blocks)
    case ResponseIncomplete(ErrorStop, Some(message)) => StreamError(id, message, blocks)
    case ResponseIncomplete(stopReason, _) => StreamDone(id, stopReason, blocks)
  }

  // ----- The invariant -----

  predicate InputInv(p: Progress, events: seq<Normalized>) {
    var parts := Parts(events);
    && AllOpen(parts)
    && p.state.blocks == BlocksOf(parts)
    && p.state.active == (if parts == [] || Closed(parts[|parts| - 1]) then None else Some(|parts| - 1))
    && p.state.responseId == LastCreated(events)
    && Ends(p.yielded) == EndsOf(parts)
    && Passing(p.yielded) == Passed(events)
  }

  lemma PartsAppend(events: seq<Normalized>, event: Normalized)
    ensures var front, parts := Parts(events), Parts(events + [event]);
            if Opens(event) then parts == front + [Part(event, [])]
            else if front == [] then parts == []
            else parts == front[..|front| - 1]
                          + [Part(front[|front| - 1].opening, front[|front| - 1].rest + [event])]
    ensures LastCreated(events + [event])
         == if event.Created? then Some(event.responseId) else LastCreated(events)
    ensures Passed(events + [event]) == Passed(events) + PassedOn(Parts(events), event)
  {
    assert (events + [event])[..|events|] == events;
  }

  function PassedEvent(out: Option<StreamEvent>): seq<StreamEvent> {
    if out.Some? && Passes(out.value) then [out.value] else []
  }

  lemma EndsAppend(yielded: seq<StreamEvent>, out: Option<StreamEvent>)
    ensures Ends(if out.Some? then yielded + [out.value] else yielded)
         == Ends(yielded) + (if out.Some? && out.value.BlockEnd? then [out.value] else [])
    ensures Passing(if out.Some? then yielded + [out.value] else yielded)
         == Passing(yielded) + PassedEvent(out)
  {
    if out.Some? {
      assert (yielded + [out.value])[..|yielded|] == yielded;
    }
  }

  lemma AllOpenAppend(parts: seq<Part>, part: Part)
    requires AllOpen(parts) && Opens(part.opening)
    ensures AllOpen(parts + [part])
    ensures BlocksOf(parts + [part]) == BlocksOf(parts) + [BlockOf(part)]
  {
    hide BlockOf;
  }

  lemma EndsOfAppend(parts: seq<Part>, part: Part)
    requires AllOpen(parts) && Opens(part.opening) && AllOpen(parts + [part])
    ensures EndsOf(parts + [part])
         == EndsOf(parts) + if Closed(part) then [BlockEnd(|parts|, BlockOf(part))] else []
  {
    hide BlockOf, Closed;
    assert (parts + [part])[..|parts|] == parts;
  }

  /** One more event of a part that is already done changes nothing. */
  lemma ClosedStays(part: Part, event: Normalized)
    requires Opens(part.opening) && Closed(part)
    ensures var more := Part(part.opening, part.rest + [event]);
            Closed(more) && BlockOf(more) == BlockOf(part)
  {
    var rest := part.rest + [event];
    var d := DoneAt(part.opening, part.rest);
    assert rest[..|part.rest|] == part.rest;
    assert DoneAt(part.opening, rest) == d;
    assert rest[d] == part.rest[d] && rest[..d] == part.rest[..d];
  }

  /** One more event of a part that is still open. */
  lemma OpenGrows(part: Part, event: Normalized)
    requires Opens(part.opening) && !Closed(part)
    ensures var more := Part(part.opening, part.rest + [event]);
            && (Closed(more) <==> Closes(part.opening, event))
            && BlockOf(more) == Grown(part.opening, BlockOf(part), event)
  {
    var rest := part.rest + [event];
    assert rest[..|part.rest|] == part.rest;
  }

  /** What one event does to the block of an open part. */
  function Grown(opening: Normalized, block: Block, event: Normalized): Block {
    match event
    case MessageDone(itemId, text, phase) =>
      if opening.MessageAdded?
      then Text(text, Some(if phase == None then map["message_id" := itemId]
                           else map["message_id" := itemId, "phase" := phase.value]))
      else block
    case ReasoningDone(summary, signature) =>
      if opening.ReasoningAdded? && block.Reasoning?
      then Reasoning(if summary == "" then block.summary else summary, Single("reasoning_signature", signature))
      else block
    case ToolCallDone(itemId, callId, name, arguments) =>
      if opening.ToolCallAdded? then ToolCall(callId, name, arguments, Single("provider_item_id", itemId)) else block
    case MessageTextDelta(delta) =>
      if opening.MessageAdded? && block.Text? then block.(text := block.text + delta) else block
    case ReasoningDelta(delta) =>
      if opening.ReasoningAdded? && block.Reasoning? then block.(summary := block.summary + delta) else block
    case ToolCallArgumentsDone(arguments) =>
      if opening.ToolCallAdded? && block.ToolCall? then block.(arguments := arguments) else block
    case _ => block
  }

  /** The kind of a block is that of its opening. */
  lemma KindOf(part: Part)
    requires Opens(part.opening)
    ensures BlockOf(part).Text? <==> part.opening.MessageAdded?
    ensures BlockOf(part).Reasoning? <==> part.opening.ReasoningAdded?
    ensures BlockOf(part).ToolCall? <==> part.opening.ToolCallAdded?
  {
  }

  lemma MetadataIs(itemId: string, phase: Option<string>, key: string, value: Option<string>)
    ensures MessageMetadata(itemId, phase)
         == Some(if phase == None then map["message_id" := itemId]
                 else map["message_id" := itemId, "phase" := phase.value])
    ensures FromValues(Present(key, value)) == Single(key, value)
  {
    var values := map["message_id" := itemId] + Present("phase", phase);
    assert "message_id" in values;
    if phase.Some? {
      assert values == map["message_id" := itemId, "phase" := phase.value];
    } else {
      assert values == map["message_id" := itemId];
    }
    if value.Some? {
      assert key in Present(key, value);
    }
  }

  // ----- One step -----

  /** The assembler does to its active block what the event does to its part. */
  lemma ActiveStep(s: Assembly, opening: Normalized, event: Normalized)
    requires Valid(s) && s.active.Some? && !Opens(event) && Opens(opening)
    requires var block := ActiveBlock(s);
             && (block.Text? <==> opening.MessageAdded?) && (block.Reasoning? <==> opening.ReasoningAdded?)
             && (block.ToolCall? <==> opening.ToolCallAdded?)
    ensures var (after, out) := Routed(s, event);
            var block := Grown(opening, ActiveBlock(s), event);
            && after.blocks == s.blocks[s.active.value := block]
            && after.active == (if Closes(opening, event) then None else s.active)
            && after.responseId == (if event.Created? then Some(event.responseId) else s.responseId)
            && (out.Some? && out.value.BlockEnd? <==> Closes(opening, event))
            && (Closes(opening, event) ==> out == Some(BlockEnd(s.active.value, block)))
            && PassedEvent(out) == (if event.Created? then [StreamStart(event.responseId)]
                                    else if DeltaFor(opening, event) then [BlockDelta(s.active.value, event.delta)]
                                    else [])
  {
    match event
    case MessageDone(itemId, _, phase) => MetadataIs(itemId, phase, "", None);
    case ReasoningDone(_, signature) => MetadataIs("", None, "reasoning_signature", signature);
    case ToolCallDone(itemId, _, _, _) => MetadataIs("", None, "provider_item_id", itemId);
    case _ =>
  }

  lemma IdleStep(s: Assembly, event: Normalized)
    requires s.active == None && !Opens(event)
    ensures var (after, out) := Routed(s, event);
            && after.blocks == s.blocks && after.active == None
            && after.responseId == (if event.Created? then Some(event.responseId) else s.responseId)
            && !(out.Some? && out.value.BlockEnd?)
            && PassedEvent(out) == (if event.Created? then [StreamStart(event.responseId)] else [])
  {
  }

  lemma OpeningStep(s: Assembly, event: Normalized)
    requires Opens(event)
    ensures var (after, out) := Routed(s, event);
            && after.blocks == s.blocks + [BlockOf(Part(event, []))] && after.active == Some(|s.blocks|)
            && after.responseId == s.responseId && !(out.Some? && out.value.BlockEnd?)
            && !Closed(Part(event, [])) && PassedEvent(out) == []
  {
  }

  lemma StepOpening(p: Progress, events: seq<Normalized>, event: Normalized)
    requires InputInv(p, events) && !p.returned && Opens(event)
    ensures InputInv(Consumed(p, event), events + [event])
  {
    hide Parts, BlockOf, Closed, EndsOf, Ends, Passing, Passed, LastCreated, Routed;
    PartsAppend(events, event);
    AllOpenAppend(Parts(events), Part(event, []));
    EndsOfAppend(Parts(events), Part(event, []));
    OpeningStep(p.state, event);
    EndsAppend(p.yielded, Routed(p.state, event).1);
  }

  lemma StepIdle(p: Progress, events: seq<Normalized>, event: Normalized)
    requires InputInv(p, events) && !p.returned && !Opens(event) && p.state.active == None
    ensures InputInv(Consumed(p, event), events + [event])
  {
    hide Parts, BlockOf, Closed, EndsOf, Ends, Passing, Passed, LastCreated, Routed;
    PartsAppend(events, event);
    IdleStep(p.state, event);
    EndsAppend(p.yielded, Routed(p.state, event).1);
    var parts := Parts(events);
    if parts != [] {
      var n := |parts| - 1;
      var more := Part(parts[n].opening, parts[n].rest + [event]);
      ClosedStays(parts[n], event);
      assert parts == parts[..n] + [parts[n]];
      AllOpenAppend(parts[..n], parts[n]);
      AllOpenAppend(parts[..n], more);
      EndsOfAppend(parts[..n], parts[n]);
      EndsOfAppend(parts[..n], more);
    }
  }

  lemma StepActive(p: Progress, events: seq<Normalized>, event: Normalized)
    requires InputInv(p, events) && !p.returned && !Opens(event) && p.state.active.Some?
    ensures InputInv(Consumed(p, event), events + [event])
  {
    hide Parts, BlockOf, Closed, EndsOf, Ends, Passing, Passed, LastCreated, Routed, Grown, Closes;
    PartsAppend(events, event);
    var parts := Parts(events);
    var n := |parts| - 1;
    var more := Part(parts[n].opening, parts[n].rest + [event]);
    KindOf(parts[n]);
    ActiveStep(p.state, parts[n].opening, event);
    OpenGrows(parts[n], event);
    EndsAppend(p.yielded, Routed(p.state, event).1);
    assert parts == parts[..n] + [parts[n]];
    AllOpenAppend(parts[..n], parts[n]);
    AllOpenAppend(parts[..n], more);
    EndsOfAppend(parts[..n], parts[n]);
    EndsOfAppend(parts[..n], more);
    assert BlocksOf(parts)[n := BlockOf(more)] == BlocksOf(parts[..n]) + [BlockOf(more)];
  }

  // ----- For every stream -----

  lemma {:induction false} AssemblesHeard(events: seq<Normalized>)
    ensures Assembled(events) == Assembled(Heard(events)) && InputInv(Assembled(events), Heard(events))
    ensures Assembled(events).returned
       <==> Heard(events) != [] && IsTerminalInput(Heard(events)[|Heard(events)| - 1])
  {
    hide InputInv, Routed;
    if events == [] {
      NothingHeard();
    } else {
      var front, last := events[..|events| - 1], events[|events| - 1];
      AssemblesHeard(front);
      if !Assembled(front).returned {
        HeardOne(Assembled(front), Heard(front), last);
      }
    }
  }

  lemma NothingHeard()
    ensures InputInv(Assembled([]), [])
  {
  }

  lemma HeardOne(p: Progress, heard: seq<Normalized>, event: Normalized)
    requires InputInv(p, heard) && !p.returned && p == Assembled(heard)
    ensures InputInv(Consumed(p, event), heard + [event]) && Assembled(heard + [event]) == Consumed(p, event)
  {
    hide Parts, BlockOf, Closed, EndsOf, Ends, Passing, Passed, LastCreated, Routed, BlocksOf;
    assert (heard + [event])[..|heard|] == heard;
    if Opens(event) {
      StepOpening(p, heard, event);
    } else if p.state.active == None {
      StepIdle(p, heard, event);
    } else {
      StepActive(p, heard, event);
    }
  }

  /** Every stream: the blocks are those that the input describes, part by part;
      exactly the parts that were done have an end event, with that block; response
      ids, and the deltas of the part still open, are passed on in order; and the
      terminal event, if there is one, carries the input's reason or message, the
      last announced id and those blocks. */
  lemma MessageIsItsInput(events: seq<Normalized>)
    ensures var p, parts := Assembled(events), Parts(Heard(events));
            && AllOpen(parts)
            && p.state.blocks == BlocksOf(parts)
            && Ends(p.yielded) == EndsOf(parts)
            && Passing(p.yielded) == Passed(Heard(events))
            && (p.returned ==>
                  && Heard(events) != [] && IsTerminalInput(Heard(events)[|Heard(events)| - 1]) && p.yielded != []
                  && p.yielded[|p.yielded| - 1]
                     == TerminalFor(Heard(events)[|Heard(events)| - 1], LastCreated(Heard(events)), BlocksOf(parts)))
  {
    hide Parts, BlockOf, Closed, EndsOf, Ends, Passing, Passed, LastCreated, BlocksOf, Heard;
    AssemblesHeard(events);
    if Assembled(events).returned {
      TerminalIsItsInput(events);
    }
  }

  lemma TerminalIsItsInput(events: seq<Normalized>)
    requires Assembled(events).returned
    ensures var p, heard := Assembled(events), Heard(events);
            && heard != [] && IsTerminalInput(heard[|heard| - 1]) && p.yielded != []
            && p.yielded[|p.yielded| - 1]
               == TerminalFor(heard[|heard| - 1], p.state.responseId, p.state.blocks)
  {
    hide InputInv, Heard;
    AssemblesHeard(events);
    var heard := Heard(events);
    var front, last := heard[..|heard| - 1], heard[|heard| - 1];
    HeardIsHeard(events);
    AssemblesHeard(front);
    assert Assembled(heard) == Consumed(Assembled(front), last);
    TerminalStep(Assembled(front), last);
  }

  lemma TerminalStep(p: Progress, event: Normalized)
    requires !p.returned && IsTerminalInput(event)
    ensures var after := Consumed(p, event);
            && after.state == p.state
            && after.yielded == p.yielded + [TerminalFor(event, p.state.responseId, p.state.blocks)]
  {
  }

  lemma HeardAppend(heard: seq<Normalized>, event: Normalized)
    requires Heard(heard) == heard && (heard != [] ==> !IsTerminalInput(heard[|heard| - 1]))
    ensures Heard(heard + [event]) == heard + [event]
  {
    assert (heard + [event])[..|heard|] == heard;
  }

  /** What was heard is heard as a whole, and nothing before its last event is terminal. */
  lemma {:induction false} HeardIsHeard(events: seq<Normalized>)
    ensures var heard := Heard(events);
            && Heard(heard) == heard
            && (heard != [] ==> var front := heard[..|heard| - 1];
                  Heard(front) == front && (front != [] ==> !IsTerminalInput(front[|front| - 1])))
  {
    if events != [] {
      var front, last := events[..|events| - 1], events[|events| - 1];
      HeardIsHeard(front);
      HeardOn(Heard(front), last, Heard(events));
    }
  }

  lemma HeardOn(before: seq<Normalized>, event: Normalized, heard: seq<Normalized>)
    requires Heard(before) == before
    requires before != [] ==> var front := before[..|before| - 1];
               Heard(front) == front && (front != [] ==> !IsTerminalInput(front[|front| - 1]))
    requires heard == if before != [] && IsTerminalInput(before[|before| - 1]) then before else before + [event]
    ensures Heard(heard) == heard
    ensures heard != [] ==> var front := heard[..|heard| - 1];
              Heard(front) == front && (front != [] ==> !IsTerminalInput(front[|front| - 1]))
  {
    hide Heard;
    if !(before != [] && IsTerminalInput(before[|before| - 1])) {
      HeardAppend(before, event);
      assert (before + [event])[..|before|] == before;
    }
  }
}
