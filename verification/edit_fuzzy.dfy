/** Fuzzy spans: where they lie, when they are empty, and what goes wrong then. */
module EditFuzzy {
  import opened Prelude
  import opened Search
  import opened Text
  import opened EditFiles
  import opened EditSplice
  import opened EditSpliceExact
  import opened EditMatching
  import opened EditProperties

  // ----- Offsets of lines -----

  lemma OffsetStep(lines: seq<FileLine>, i: nat)
    requires i < |lines|
    ensures Offset(lines, i + 1) == Offset(lines, i) + |lines[i].Text()|
  {
    assert lines[..i + 1] == lines[..i] + [lines[i]];
    FlattenConcat(lines[..i], [lines[i]]);
    assert Flatten([lines[i]]) == lines[i].Text() + Flatten([]);
  }

  lemma {:induction false} OffsetsGrow(lines: seq<FileLine>, i: nat, j: nat)
    requires i <= j <= |lines|
    ensures Offset(lines, i) <= Offset(lines, j)
    decreases j - i
  {
    if i < j {
      OffsetStep(lines, i);
      OffsetsGrow(lines, i + 1, j);
    }
  }

  /** A window of lines with text covers something, unless it is one blank line
      whose newline is left out. */
  lemma SpanOfWindow(lines: seq<FileLine>, first: nat, last: nat, oldTerminated: bool)
    requires first <= last < |lines|
    requires forall i :: 0 <= i < |lines| ==> lines[i].Text() != ""
    ensures var (start, end) := WindowCharSpan(lines, Offsets(lines), first, last, oldTerminated);
            && start <= end <= Offset(lines, |lines|)
            && (start == end <==> first == last && !oldTerminated && lines[first] == FileLine("", true))
  {
    OffsetStep(lines, first);
    OffsetStep(lines, last);
    OffsetsGrow(lines, last + 1, |lines|);
    if first < last {
      OffsetsGrow(lines, first + 1, last);
    }
    assert lines[first].Text() != "";
  }

  lemma LinesHaveText(content: string)
    ensures forall i :: 0 <= i < |TerminatedLines(content)| ==> TerminatedLines(content)[i].Text() != ""
  {
  }

  // ----- One fuzzy span -----

  /** An old text that can match a blank line without its newline. */
  ghost predicate MatchesBlank(norm: Normalizer, oldText: string) {
    exists line: Line :: TerminatedLines(oldText) == [FileLine(line, false)] && norm(line) == norm("")
  }

  lemma FuzzySpanSound(norm: Normalizer, content: string, edit: Edit, index: nat, span: Span)
    requires edit.oldText != "" && FuzzySpan(norm, content, edit, index) == Ok(span)
    ensures span.editIndex == index && span.start <= span.end <= |content|
    ensures span.replacement == NormalizeToLf(edit.newText)
    ensures span.start == span.end ==> MatchesBlank(norm, NormalizeToLf(edit.oldText))
  {
    hide NormalizeToLf, Flatten, PartLines, WindowStarts;
    var lines, oldLines := TerminatedLines(content), TerminatedLines(NormalizeToLf(edit.oldText));
    var normalized, window := NormalizeLines(norm, lines), NormalizeLines(norm, oldLines);
    WindowStartsSound(normalized, window, 0);
    var starts := WindowStarts(normalized, window, 0);
    var i := starts[0];
    assert i in starts;
    var n := |window| - 1;
    LinesHaveText(content);
    FlattenLines(content);
    assert lines[..|lines|] == lines;
    SpanOfWindow(lines, i, i + n, window[n].terminated);
    if span.start == span.end {
      assert LastLineMatches(normalized[i], window[0]);
      assert oldLines == [FileLine(oldLines[0].body, false)];
    }
  }

  // ----- All fuzzy spans -----

  /** Fuzzy spans are sound and disjoint. Splicing them is right for every
      choice of new texts exactly when no two of them share a start; this holds
      in particular when no old text can match a blank line without its newline. */
  lemma FuzzyEdits(norm: Normalizer, content: string, edits: seq<Edit>, spans: seq<Span>)
    requires NonEmptyEdits(edits) && Collect(FuzzyResults(norm, content, edits)) == Ok(spans)
    ensures |spans| == |edits| && InBounds(spans, |content|) && Validated(spans)
    ensures PairwiseDisjoint(SortUp(spans))
    ensures DistinctStarts(spans) <==> forall text: nat -> string :: SplicesRight(content, Fill(spans, text))
    ensures DistinctStarts(spans) ==> SplicesRight(content, spans)
    ensures (forall i :: 0 <= i < |edits| ==> !MatchesBlank(norm, NormalizeToLf(edits[i].oldText)))
            ==> DistinctStarts(spans)
  {
    var results := FuzzyResults(norm, content, edits);
    forall i | 0 <= i < |results| && results[i].Ok?
      ensures results[i].value.editIndex == i
    {
      FuzzySpanSound(norm, content, edits[i], i, results[i].value);
    }
    CollectedSpans(results, spans);
    forall i | 0 <= i < |spans|
      ensures spans[i].start <= spans[i].end <= |content|
      ensures !MatchesBlank(norm, NormalizeToLf(edits[i].oldText)) ==> spans[i].start < spans[i].end
    {
      assert results[i] == Ok(spans[i]);
      FuzzySpanSound(norm, content, edits[i], i, spans[i]);
    }
    ValidatedMeansDisjoint(spans, |content|);
    SpliceRightExactlyWhenDistinct(content, spans);
    if DistinctStarts(spans) {
      SpliceIsSimultaneous(content, spans);
    }
    if forall i :: 0 <= i < |edits| ==> !MatchesBlank(norm, NormalizeToLf(edits[i].oldText)) {
      NonEmptyMeansDistinct(spans, |content|);
    }
  }

  // ----- A blank line lost -----

  /** A normalization that only drops trailing spaces. */
  function TrimSpaces(line: Line): Line {
    if line == "" || line[|line| - 1] != ' ' then line
    else
      var shorter: string := line[..|line| - 1];
      assert forall c :: c in shorter ==> c in line;
      TrimSpaces(shorter)
  }

  lemma SplitIs(lines: seq<string>, text: string)
    requires |lines| >= 1 && AllOneLine(lines) && Join(lines) == text
    ensures Split(text) == lines
  {
    SplitJoin(lines);
  }

  const CONTENT := "a\n\nb\n"
  const EDITS := [Edit(" ", "X"), Edit("\nb\n", "Y")]
  const LINES := [FileLine("a", true), FileLine("", true), FileLine("b", true)]
  const SPANS := [Span(0, 2, 2, "X"), Span(1, 2, 5, "Y")]

  lemma BlankLines()
    ensures TerminatedLines(CONTENT) == LINES
    ensures TerminatedLines(" ") == [FileLine(" ", false)]
    ensures TerminatedLines("\nb\n") == [FileLine("", true), FileLine("b", true)]
  {
    hide Split;
    SplitIs(["a", "", "b", ""], CONTENT);
    SplitIs([" "], " ");
    SplitIs(["", "b", ""], "\nb\n");
  }

  lemma BlankOffsets()
    ensures Offsets(LINES) == [0, 2, 3]
  {
    OffsetStep(LINES, 0);
    OffsetStep(LINES, 1);
    assert LINES[..0] == [];
  }

  /** The blank line is the one place for each of the two windows. */
  lemma BlankMatches()
    ensures NormalizeLines(TrimSpaces, LINES) == LINES
    ensures NormalizeLines(TrimSpaces, [FileLine(" ", false)]) == [FileLine("", false)]
    ensures NormalizeLines(TrimSpaces, [FileLine("", true), FileLine("b", true)])
         == [FileLine("", true), FileLine("b", true)]
    ensures WindowStarts(LINES, [FileLine("", false)], 0) == [1]
    ensures WindowStarts(LINES, [FileLine("", true), FileLine("b", true)], 0) == [1]
  {
    assert TrimSpaces(" ") == "" && TrimSpaces("a") == "a" && TrimSpaces("b") == "b";
    var one, two := [FileLine("", false)], [FileLine("", true), FileLine("b", true)];
    assert WindowStarts(LINES, one, 3) == [] && WindowStarts(LINES, one, 2) == [];
    assert !WindowMatchesAt(LINES, two, 0) && WindowMatchesAt(LINES, two, 1) && WindowStarts(LINES, two, 2) == [];
  }

  lemma BlankSpans()
    ensures FuzzySpan(TrimSpaces, CONTENT, EDITS[0], 0) == Ok(SPANS[0])
    ensures FuzzySpan(TrimSpaces, CONTENT, EDITS[1], 1) == Ok(SPANS[1])
  {
    hide NormalizeToLf, PartLines, NormalizeLines, WindowStarts, Offsets;
    NormalizeCrFree(" ");
    NormalizeCrFree("X");
    NormalizeCrFree("Y");
    NormalizeCrFree("\nb\n");
    BlankLines();
    BlankOffsets();
    BlankMatches();
  }

  lemma NoSpaceInContent()
    ensures ExactSpan(CONTENT, EDITS[0], 0) == Err(NotFound(0))
  {
    NormalizeCrFree(" ");
    forall i: nat
      ensures !OccursAt(CONTENT, " ", i)
    {
      assert i + 1 <= |CONTENT| ==> CONTENT[i..i + 1] == [CONTENT[i]];
    }
    NotFoundMeansAbsent(CONTENT, " ", 0);
  }

  lemma SplicedBlank()
    ensures SortUp(SPANS) == SPANS && SortDown(SPANS) == SPANS
    ensures ReplaceAll(CONTENT, SPANS) == "a\nY\n"
    ensures Chain(SPANS, 0, |CONTENT|) && Simultaneous(CONTENT, SPANS, 0) == "a\nXY"
  {
  }

  lemma CollectTwo(results: seq<Matched>, a: Span, b: Span)
    requires |results| == 2 && results[0] == Ok(a) && results[1] == Ok(b)
    requires SortUp([a, b]) == [a, b] && a.end <= b.start
    ensures Collect(results) == Ok([a, b])
  {
    AllOkValues(results, [a, b]);
    assert [a, b][1..] == [b];
    assert FirstOverlap([a, b]) == FirstOverlap([b]);
  }

  lemma CollectedExact()
    ensures Collect(ExactResults(CONTENT, EDITS)) == Err(NotFound(0))
  {
    NoSpaceInContent();
    AllOkStops(ExactResults(CONTENT, EDITS), 0);
  }

  lemma CollectedFuzzy()
    ensures Collect(FuzzyResults(TrimSpaces, CONTENT, EDITS)) == Ok(SPANS)
  {
    var results := FuzzyResults(TrimSpaces, CONTENT, EDITS);
    assert results[0] == Ok(SPANS[0]) && results[1] == Ok(SPANS[1]) by {
      BlankSpans();
    }
    SplicedBlank();
    CollectTwo(results, SPANS[0], SPANS[1]);
  }

  /** Falling back to fuzzy matching, step by step. */
  lemma EditedByFallback(norm: Normalizer, content: string, edits: seq<Edit>, edit: nat, spans: seq<Span>, text: string)
    requires FirstEmpty(edits, 0).None?
    requires Collect(ExactResults(content, edits)) == Err(NotFound(edit))
    requires Collect(FuzzyResults(norm, content, edits)) == Ok(spans)
    requires ReplaceAll(content, SortDown(spans)) == text != content
    ensures Edited(norm, content, edits) == Ok(text)
  {
  }

  /** Two edits at the same blank line: " " matches it without its newline, and
      "\nb\n" matches it as a whole. Both pass validation, but the inserted X
      takes part of the deletion, and a newline that should go stays. */
  lemma BlankLineEditLost()
    ensures Edited(TrimSpaces, CONTENT, EDITS) == Ok("a\nY\n")
    ensures Collect(FuzzyResults(TrimSpaces, CONTENT, EDITS)) == Ok(SPANS)
    ensures Chain(SortUp(SPANS), 0, |CONTENT|) && Simultaneous(CONTENT, SortUp(SPANS), 0) == "a\nXY"
  {
    CollectedExact();
    CollectedFuzzy();
    SplicedBlank();
    assert "a\nY\n"[2] != CONTENT[2];
    EditedByFallback(TrimSpaces, CONTENT, EDITS, 0, SPANS, "a\nY\n");
  }

  // ----- The edited file -----

  lemma {:induction false} CrFreeReplaceAll(text: string, spans: seq<Span>)
    requires '\r' !in text && forall s :: s in spans ==> '\r' !in s.replacement
    ensures '\r' !in ReplaceAll(text, spans)
    decreases |spans|
  {
    if spans != [] {
      assert spans[0] in spans;
      CrFreeReplaceAll(Replace(text, spans[0]), spans[1..]);
    }
  }

  lemma {:induction false} CrFreeResults(results: seq<Matched>, spans: seq<Span>)
    requires AllOk(results) == Ok(spans)
    requires forall i :: 0 <= i < |results| && results[i].Ok? ==> '\r' !in results[i].value.replacement
    ensures forall s :: s in SortDown(spans) ==> '\r' !in s.replacement
  {
    AllOkGives(results);
    SameElementsDown(spans);
    forall s | s in spans
      ensures '\r' !in s.replacement
    {
      var i :| 0 <= i < |spans| && spans[i] == s;
      assert results[i] == Ok(spans[i]);
    }
  }

  lemma EditedIsCrFree(norm: Normalizer, content: string, edits: seq<Edit>)
    requires '\r' !in content && Edited(norm, content, edits).Ok?
    ensures '\r' !in Edited(norm, content, edits).value
  {
    var exact := ExactResults(content, edits);
    var results := if Collect(exact).Ok? then exact else FuzzyResults(norm, content, edits);
    var spans := Collect(results).value;
    CrFreeResults(results, spans);
    CrFreeReplaceAll(content, SortDown(spans));
  }

  /** Loading an edited file gives the edited text with the byte-order mark and
      the line ending of the original file, exactly when that text does not
      start with what would be taken for a new byte-order mark and still has a
      line to tell a CRLF file by. */
  lemma EditedFileReloads(norm: Normalizer, raw: string, edits: seq<Edit>)
    requires EditedFile(norm, raw, edits).Ok?
    ensures var file := Load(raw);
            var text := Edited(norm, file.content, edits).value;
            Load(EditedFile(norm, raw, edits).value) == file.(content := text)
            <==> (file.bom == [BOM] || !StartsWithBom(text)) && (file.lineEnding == LF || '\n' in text)
  {
    var file := Load(raw);
    EditedIsCrFree(norm, file.content, edits);
    WriteThenLoad(file, Edited(norm, file.content, edits).value);
  }
}
