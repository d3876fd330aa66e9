/** Locating the text of each edit, exactly or by normalized whole lines. */
module EditMatching {
  import opened Prelude
  import opened Search
  import opened Text
  import opened EditFiles
  import opened EditSplice

  datatype Edit = Edit(oldText: string, newText: string)

  datatype EditError =
    | EmptyOldText(edit: nat)
    | NotFound(edit: nat)
    | Duplicate(edit: nat, occurrences: nat)
    | Overlap(first: nat, second: nat)
    | NoChange

  type Matched = Result<Span, EditError>

  // ----- Lines with their terminators -----

  /** Text without a newline. */
  type Line = s: string | OneLine(s)

  /** A line of a file; only the last line of a text can be unterminated. */
  datatype FileLine = FileLine(body: Line, terminated: bool) {
    function Text(): (r: string)
      ensures |r| == |body| + if terminated then 1 else 0
    {
      if terminated then body + "\n" else body
    }
  }

  function Terminated(parts: seq<Line>): (lines: seq<FileLine>)
    ensures |lines| == |parts|
  {
    seq(|parts|, i requires 0 <= i < |parts| => FileLine(parts[i], true))
  }

  /** Newline-separated parts as lines; an empty last part is no line. */
  function PartLines(parts: seq<Line>): seq<FileLine>
    requires |parts| >= 1
  {
    var n := |parts| - 1;
    Terminated(parts[..n]) + if parts[n] != "" then [FileLine(parts[n], false)] else []
  }

  /** The lines of a text, each with its own terminator. */
  function TerminatedLines(text: string): seq<FileLine> {
    PartLines(Parts(text))
  }

  function Parts(text: string): (parts: seq<Line>)
    ensures parts == Split(text)
  {
    SplitLines(text);
    Split(text)
  }

  function Flatten(lines: seq<FileLine>): string {
    if lines == [] then "" else lines[0].Text() + Flatten(lines[1..])
  }

  /** Where line i starts, in characters. */
  function Offset(lines: seq<FileLine>, i: nat): nat
    requires i <= |lines|
  {
    |Flatten(lines[..i])|
  }

  function Offsets(lines: seq<FileLine>): (offsets: seq<nat>)
    ensures |offsets| == |lines|
    ensures forall i :: 0 <= i < |lines| ==> offsets[i] == Offset(lines, i)
  {
    seq(|lines|, i requires 0 <= i < |lines| => Offset(lines, i))
  }

  method LineStartOffsets(lines: seq<FileLine>) returns (offsets: seq<nat>)
    ensures offsets == Offsets(lines)
  {
    offsets := [];
    var offset := 0;
    for i := 0 to |lines|
      invariant |offsets| == i && offset == Offset(lines, i)
      invariant forall k :: 0 <= k < i ==> offsets[k] == Offset(lines, k)
    {
      offsets := offsets + [offset];
      offset := offset + |lines[i].Text()|;
      FlattenConcat(lines[..i], [lines[i]]);
      assert lines[..i + 1] == lines[..i] + [lines[i]];
    }
  }

  // ----- Exact matching -----

  /** Occurrences found from left to right, each search starting behind the last hit. */
  function GreedyStarts(content: string, oldText: string, from: nat): seq<nat>
    requires oldText != ""
    decreases |content| - from
  {
    match Find(content, oldText, from)
    case None => []
    case Some(i) => [i] + GreedyStarts(content, oldText, i + |oldText|)
  }

  method FindTextStarts(content: string, oldText: string) returns (starts: seq<nat>)
    requires oldText != ""
    ensures starts == GreedyStarts(content, oldText, 0)
  {
    hide Find, GreedyStarts;
    starts := [];
    var offset := Find(content, oldText, 0);
    ghost var from := 0;
    while offset.Some?
      invariant offset == Find(content, oldText, from)
      invariant GreedyStarts(content, oldText, 0) == starts + GreedyStarts(content, oldText, from)
      decreases |content| - from
    {
      var next := offset.value + |oldText|;
      GreedyStep(content, oldText, from, starts);
      starts := starts + [offset.value];
      from := next;
      offset := Find(content, oldText, next);
    }
    GreedyEnds(content, oldText, from);
  }

  lemma GreedyEnds(content: string, oldText: string, from: nat)
    requires oldText != "" && Find(content, oldText, from) == None
    ensures GreedyStarts(content, oldText, from) == []
  {
  }

  lemma GreedyStep(content: string, oldText: string, from: nat, starts: seq<nat>)
    requires oldText != "" && Find(content, oldText, from).Some?
    ensures var i := Find(content, oldText, from).value;
            starts + GreedyStarts(content, oldText, from)
            == (starts + [i]) + GreedyStarts(content, oldText, i + |oldText|)
  {
  }

  function RequireUnique(starts: seq<nat>, edit: nat): Result<nat, EditError> {
    if starts == [] then Err(NotFound(edit))
    else if |starts| > 1 then Err(Duplicate(edit, |starts|))
    else Ok(starts[0])
  }

  function ExactSpan(content: string, edit: Edit, index: nat): Matched
    requires edit.oldText != ""
  {
    var target := NormalizeToLf(edit.oldText);
    match RequireUnique(GreedyStarts(content, target, 0), index)
    case Err(e) => Err(e)
    case Ok(start) => Ok(Span(index, start, start + |target|, NormalizeToLf(edit.newText)))
  }

  // ----- Fuzzy matching -----

  /** Line normalization: any function on newline-free text. Terminators stay. */
  type Normalizer = Line -> Line

  function NormalizeLines(norm: Normalizer, lines: seq<FileLine>): (r: seq<FileLine>)
    ensures |r| == |lines|
  {
    seq(|lines|, i requires 0 <= i < |lines| => FileLine(norm(lines[i].body), lines[i].terminated))
  }

  /** The last line of a window: a terminator is needed only if the old text has it. */
  predicate LastLineMatches(fileLine: FileLine, oldLine: FileLine) {
    fileLine.body == oldLine.body && (oldLine.terminated ==> fileLine.terminated)
  }

  predicate WindowMatchesAt(lines: seq<FileLine>, window: seq<FileLine>, start: nat)
    requires |window| >= 1 && start + |window| <= |lines|
  {
    var n := |window| - 1;
    lines[start..start + n] == window[..n] && LastLineMatches(lines[start + n], window[n])
  }

  /** All places, from `start` on, where the window matches consecutive lines. */
  function WindowStarts(lines: seq<FileLine>, window: seq<FileLine>, start: nat): seq<nat>
    requires |window| >= 1
    decreases |lines| - start
  {
    if start + |window| > |lines| then []
    else (if WindowMatchesAt(lines, window, start) then [start] else []) + WindowStarts(lines, window, start + 1)
  }

  /** The characters of the matched lines, without a final newline that the old
      text does not claim. */
  function WindowCharSpan(
    lines: seq<FileLine>, lineOffsets: seq<nat>, startLine: nat, lastLine: nat, oldTerminated: bool): (nat, nat)
    requires startLine <= lastLine < |lines| == |lineOffsets|
  {
    var end := lineOffsets[lastLine] + |lines[lastLine].Text()|;
    (lineOffsets[startLine], if !oldTerminated && lines[lastLine].terminated then end - 1 else end)
  }

  function Window(norm: Normalizer, edit: Edit): (window: seq<FileLine>)
    requires edit.oldText != ""
    ensures |window| >= 1
  {
    NormalizeLines(norm, TerminatedLines(NormalizeToLf(edit.oldText)))
  }

  /** The span of the one window that matches, in the original characters. */
  function WindowSpan(
    normalizedLines: seq<FileLine>, lines: seq<FileLine>, lineOffsets: seq<nat>,
    window: seq<FileLine>, edit: Edit, index: nat): Matched
    requires |window| >= 1 && |normalizedLines| == |lines| == |lineOffsets|
  {
    var starts := WindowStarts(normalizedLines, window, 0);
    WindowStartsSound(normalizedLines, window, 0);
    match RequireUnique(starts, index)
    case Err(e) => Err(e)
    case Ok(startLine) =>
      assert startLine in starts;
      var lastLine := startLine + |window| - 1;
      var (start, end) := WindowCharSpan(lines, lineOffsets, startLine, lastLine, window[|window| - 1].terminated);
      Ok(Span(index, start, end, NormalizeToLf(edit.newText)))
  }

  function FuzzySpan(norm: Normalizer, content: string, edit: Edit, index: nat): Matched
    requires edit.oldText != ""
  {
    var lines := TerminatedLines(content);
    WindowSpan(NormalizeLines(norm, lines), lines, Offsets(lines), Window(norm, edit), edit, index)
  }

  // ----- All edits -----

  predicate NonEmptyEdits(edits: seq<Edit>) {
    forall i :: 0 <= i < |edits| ==> edits[i].oldText != ""
  }

  /** All values, or the first error. */
  function AllOk(results: seq<Matched>): Result<seq<Span>, EditError> {
    if results == [] then Ok([])
    else if results[0].Err? then Err(results[0].error)
    else
      var rest := AllOk(results[1..]);
      if rest.Err? then rest else Ok([results[0].value] + rest.value)
  }

  function ValidateNonOverlapping(spans: seq<Span>): Result<seq<Span>, EditError> {
    match FirstOverlap(SortUp(spans))
    case Some((first, second)) => Err(Overlap(first, second))
    case None => Ok(spans)
  }

  function Collect(results: seq<Matched>): Result<seq<Span>, EditError> {
    match AllOk(results)
    case Err(e) => Err(e)
    case Ok(spans) => ValidateNonOverlapping(spans)
  }

  function ExactResults(content: string, edits: seq<Edit>): (r: seq<Matched>)
    requires NonEmptyEdits(edits)
    ensures |r| == |edits| && forall i :: 0 <= i < |r| ==> r[i] == ExactSpan(content, edits[i], i)
  {
    seq(|edits|, i requires 0 <= i < |edits| => ExactSpan(content, edits[i], i))
  }

  function FuzzyResults(norm: Normalizer, content: string, edits: seq<Edit>): (r: seq<Matched>)
    requires NonEmptyEdits(edits)
    ensures |r| == |edits| && forall i :: 0 <= i < |r| ==> r[i] == FuzzySpan(norm, content, edits[i], i)
  {
    seq(|edits|, i requires 0 <= i < |edits| => FuzzySpan(norm, content, edits[i], i))
  }

  method MatchExactSpans(content: string, edits: seq<Edit>) returns (r: Result<seq<Span>, EditError>)
    requires NonEmptyEdits(edits)
    ensures r == Collect(ExactResults(content, edits))
  {
    var spans: seq<Span> := [];
    ghost var results := ExactResults(content, edits);
    for i := 0 to |edits|
      invariant |spans| == i && forall k :: 0 <= k < i ==> results[k] == Ok(spans[k])
    {
      var oldText := NormalizeToLf(edits[i].oldText);
      var starts := FindTextStarts(content, oldText);
      var start := RequireUnique(starts, i);
      if start.Err? {
        AllOkStops(results, i);
        return Err(start.error);
      }
      spans := spans + [Span(i, start.value, start.value + |oldText|, NormalizeToLf(edits[i].newText))];
    }
    AllOkValues(results, spans);
    return ValidateNonOverlapping(spans);
  }

  method MatchFuzzySpans(norm: Normalizer, content: string, edits: seq<Edit>)
    returns (r: Result<seq<Span>, EditError>)
    requires NonEmptyEdits(edits)
    ensures r == Collect(FuzzyResults(norm, content, edits))
  {
    hide PartLines, NormalizeLines, WindowSpan;
    var originalLines := TerminatedLines(content);
    var normalizedLines := NormalizeLines(norm, originalLines);
    var lineOffsets := LineStartOffsets(originalLines);
    var spans: seq<Span> := [];
    ghost var results := FuzzyResults(norm, content, edits);
    for i := 0 to |edits|
      invariant |spans| == i && forall k :: 0 <= k < i ==> results[k] == Ok(spans[k])
    {
      var window := Window(norm, edits[i]);
      var span := WindowSpan(normalizedLines, originalLines, lineOffsets, window, edits[i], i);
      assert span == FuzzySpan(norm, content, edits[i], i);
      if span.Err? {
        AllOkStops(results, i);
        return Err(span.error);
      }
      spans := spans + [span.value];
    }
    AllOkValues(results, spans);
    return ValidateNonOverlapping(spans);
  }

  // ----- Applying -----

  /** The first edit whose old text is empty. */
  function FirstEmpty(edits: seq<Edit>, from: nat): (r: Option<nat>)
    ensures r.None? && from <= |edits| ==> forall i :: from <= i < |edits| ==> edits[i].oldText != ""
    decreases |edits| - from
  {
    if from >= |edits| then None
    else if edits[from].oldText == "" then Some(from)
    else FirstEmpty(edits, from + 1)
  }

  /** The edited text; an edit that changes nothing is an error. */
  function Applied(content: string, spans: Result<seq<Span>, EditError>): Result<string, EditError> {
    if spans.Err? then Err(spans.error)
    else
      var text := ReplaceAll(content, SortDown(spans.value));
      if text == content then Err(NoChange) else Ok(text)
  }

  /** Exact matching, and fuzzy matching when some text was not found exactly. */
  function Edited(norm: Normalizer, content: string, edits: seq<Edit>): Result<string, EditError> {
    var empty := FirstEmpty(edits, 0);
    if empty.Some? then Err(EmptyOldText(empty.value))
    else
      var exact := Collect(ExactResults(content, edits));
      if exact.Err? && exact.error.NotFound?
      then Applied(content, Collect(FuzzyResults(norm, content, edits)))
      else Applied(content, exact)
  }

  method ApplyReplacementsWithFallback(norm: Normalizer, content: string, edits: seq<Edit>)
    returns (r: Result<string, EditError>)
    ensures r == Edited(norm, content, edits)
  {
    var empty := FirstEmpty(edits, 0);
    if empty.Some? {
      return Err(EmptyOldText(empty.value));
    }
    var spans := MatchExactSpans(content, edits);
    if spans.Err? && spans.error.NotFound? {
      spans := MatchFuzzySpans(norm, content, edits);
    }
    if spans.Err? {
      return Err(spans.error);
    }
    var text := SpliceTextSpans(content, spans.value);
    return if text == content then Err(NoChange) else Ok(text);
  }

  /** The new file, with byte-order mark and line endings as they were. */
  function EditedFile(norm: Normalizer, raw: string, edits: seq<Edit>): Result<string, EditError> {
    var file := Load(raw);
    var text := Edited(norm, file.content, edits);
    if text.Err? then text else Ok(Write(file, text.value))
  }

  // ----- Collecting results -----

  lemma {:induction false} AllOkStops(results: seq<Matched>, i: nat)
    requires i < |results| && results[i].Err?
    requires forall k :: 0 <= k < i ==> results[k].Ok?
    ensures AllOk(results) == Err(results[i].error)
  {
    if i > 0 {
      AllOkStops(results[1..], i - 1);
    }
  }

  lemma {:induction false} AllOkValues(results: seq<Matched>, spans: seq<Span>)
    requires |results| == |spans| && forall k :: 0 <= k < |spans| ==> results[k] == Ok(spans[k])
    ensures AllOk(results) == Ok(spans)
  {
    if spans != [] {
      AllOkValues(results[1..], spans[1..]);
      assert spans == [spans[0]] + spans[1..];
    }
  }

  lemma {:induction false} AllOkGives(results: seq<Matched>)
    requires AllOk(results).Ok?
    ensures var spans := AllOk(results).value;
            |spans| == |results| && forall k :: 0 <= k < |spans| ==> results[k] == Ok(spans[k])
  {
    if results != [] {
      AllOkGives(results[1..]);
    }
  }

  lemma {:induction false} FlattenConcat(a: seq<FileLine>, b: seq<FileLine>)
    ensures Flatten(a + b) == Flatten(a) + Flatten(b)
  {
    if a == [] {
      assert a + b == b;
    } else {
      assert (a + b)[1..] == a[1..] + b;
      FlattenConcat(a[1..], b);
    }
  }

  lemma {:induction false} WindowStartsSound(lines: seq<FileLine>, window: seq<FileLine>, start: nat)
    requires |window| >= 1
    ensures forall i :: i in WindowStarts(lines, window, start)
              <==> start <= i && i + |window| <= |lines| && WindowMatchesAt(lines, window, i)
    decreases |lines| - start
  {
    if start + |window| <= |lines| {
      WindowStartsSound(lines, window, start + 1);
    }
  }
}
