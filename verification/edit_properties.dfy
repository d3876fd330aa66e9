/** What the edit tool promises about exact and fuzzy matches. */
module EditProperties {
  import opened Prelude
  import opened Search
  import opened Text
  import opened EditFiles
  import opened EditSplice
  import opened EditSpliceExact
  import opened EditMatching

  // ----- Exact matching: unique in the greedy sense -----

  lemma FindIs(content: string, oldText: string, from: nat)
    ensures forall p: nat :: Find(content, oldText, from) == Some(p)
              <==> from <= p && OccursAt(content, oldText, p) && NoneBetween(content, oldText, from, p)
    ensures Find(content, oldText, from) == None <==> forall i: nat :: from <= i ==> !OccursAt(content, oldText, i)
  {
    FindIsFirst(content, oldText, from);
    forall p: nat | from <= p && OccursAt(content, oldText, p) && NoneBetween(content, oldText, from, p)
      ensures Find(content, oldText, from) == Some(p)
    {
    }
  }

  predicate NoneBetween(content: string, oldText: string, from: nat, to: nat) {
    forall i :: from <= i < to ==> !OccursAt(content, oldText, i)
  }

  /** There is one start exactly when the second search fails. */
  lemma OneGreedyStart(content: string, oldText: string, edit: nat, p: nat)
    requires oldText != ""
    ensures RequireUnique(GreedyStarts(content, oldText, 0), edit) == Ok(p)
       <==> Find(content, oldText, 0) == Some(p) && Find(content, oldText, p + |oldText|) == None
    ensures RequireUnique(GreedyStarts(content, oldText, 0), edit) == Err(NotFound(edit))
       <==> Find(content, oldText, 0) == None
  {
  }

  /** A text is taken as unique exactly when it occurs, and every occurrence
      other than the first one overlaps the first one. */
  lemma ExactMeansUnique(content: string, oldText: string, edit: nat, p: nat)
    requires oldText != ""
    ensures RequireUnique(GreedyStarts(content, oldText, 0), edit) == Ok(p)
       <==> && OccursAt(content, oldText, p)
            && NoneBetween(content, oldText, 0, p)
            && forall i: nat :: p + |oldText| <= i ==> !OccursAt(content, oldText, i)
  {
    hide GreedyStarts, Find;
    OneGreedyStart(content, oldText, edit, p);
    FindIs(content, oldText, 0);
    FindIs(content, oldText, p + |oldText|);
  }

  lemma NotFoundMeansAbsent(content: string, oldText: string, edit: nat)
    requires oldText != ""
    ensures RequireUnique(GreedyStarts(content, oldText, 0), edit) == Err(NotFound(edit))
       <==> forall i: nat :: !OccursAt(content, oldText, i)
  {
    OneGreedyStart(content, oldText, edit, 0);
    FindIs(content, oldText, 0);
  }

  /** Uniqueness does not rule out overlapping occurrences. */
  lemma OverlappingOccurrencesPass()
    ensures OccursAt("aaa", "aa", 0) && OccursAt("aaa", "aa", 1)
    ensures RequireUnique(GreedyStarts("aaa", "aa", 0), 0) == Ok(0)
  {
  }

  /** Collected spans are validated and numbered like the edits. */
  lemma CollectedSpans(results: seq<Matched>, spans: seq<Span>)
    requires Collect(results) == Ok(spans)
    requires forall i :: 0 <= i < |results| && results[i].Ok? ==> results[i].value.editIndex == i
    ensures |spans| == |results| && Validated(spans) && Numbered(spans)
    ensures forall i :: 0 <= i < |spans| ==> results[i] == Ok(spans[i])
  {
    AllOkGives(results);
  }

  /** Exact edits replace, all at once, the unique occurrence of each old text. */
  lemma ExactEditsReplaceAllAtOnce(content: string, edits: seq<Edit>, spans: seq<Span>)
    requires NonEmptyEdits(edits) && Collect(ExactResults(content, edits)) == Ok(spans)
    ensures |spans| == |edits|
    ensures forall i :: 0 <= i < |spans| ==>
              && spans[i].end == spans[i].start + |NormalizeToLf(edits[i].oldText)|
              && OccursAt(content, NormalizeToLf(edits[i].oldText), spans[i].start)
              && spans[i].replacement == NormalizeToLf(edits[i].newText)
    ensures PairwiseDisjoint(SortUp(spans)) && SplicesRight(content, spans)
  {
    CollectedSpans(ExactResults(content, edits), spans);
    forall i | 0 <= i < |spans|
      ensures spans[i].start < spans[i].end <= |content|
      ensures spans[i].end == spans[i].start + |NormalizeToLf(edits[i].oldText)|
      ensures OccursAt(content, NormalizeToLf(edits[i].oldText), spans[i].start)
    {
      assert ExactSpan(content, edits[i], i) == Ok(spans[i]);
      ExactMeansUnique(content, NormalizeToLf(edits[i].oldText), i, spans[i].start);
    }
    NonEmptyMeansDistinct(spans, |content|);
    ValidatedMeansDisjoint(spans, |content|);
    SpliceIsSimultaneous(content, spans);
  }

  // ----- Lines put together again -----

  lemma {:induction false} FlattenTerminated(parts: seq<Line>)
    requires |parts| >= 1
    ensures Flatten(Terminated(parts[..|parts| - 1])) + parts[|parts| - 1] == Join(parts)
  {
    if |parts| > 1 {
      var rest := parts[1..];
      FlattenTerminated(rest);
      assert parts[..|parts| - 1] == [parts[0]] + rest[..|rest| - 1];
      assert Terminated(parts[..|parts| - 1]) == [FileLine(parts[0], true)] + Terminated(rest[..|rest| - 1]);
    }
  }

  /** The lines of a text, put together, are the text. */
  lemma FlattenLines(text: string)
    ensures Flatten(TerminatedLines(text)) == text
  {
    var parts := Parts(text);
    var n := |parts| - 1;
    FlattenTerminated(parts);
    JoinSplit(text);
    if parts[n] != "" {
      FlattenConcat(Terminated(parts[..n]), [FileLine(parts[n], false)]);
      assert Flatten([FileLine(parts[n], false)]) == parts[n] + Flatten([]);
    } else {
      assert TerminatedLines(text) == Terminated(parts[..n]);
    }
  }

  predicate EndsLine(text: string) {
    text == "" || text[|text| - 1] == '\n'
  }

  /** Complete lines in front of a text stay as they are. */
  lemma LinesConcat(a: string, b: string)
    requires EndsLine(a)
    ensures TerminatedLines(a + b) == TerminatedLines(a) + TerminatedLines(b)
  {
    if a == "" {
      assert a + b == b && Split(a) == [""];
      assert TerminatedLines(a) == [];
    } else {
      var body := a[..|a| - 1];
      assert a == body + ['\n'] + "" && a + b == body + ['\n'] + b;
      SplitConcat(body, b);
      SplitConcat(body, "");
      LinesOfParts(Parts(body), Parts(b));
      LinesOfParts(Parts(body), [""]);
      assert Terminated(Parts(body)) + [] == Terminated(Parts(body));
    }
  }

  lemma LinesOfParts(before: seq<Line>, parts: seq<Line>)
    requires |parts| >= 1
    ensures PartLines(before + parts) == Terminated(before) + PartLines(parts)
  {
  }

  /** Ending the last line with a newline only changes its terminator. */
  lemma LinesTerminate(text: string)
    requires !EndsLine(text)
    ensures var lines, closed := TerminatedLines(text), TerminatedLines(text + ['\n']);
            var n := |lines| - 1;
            && n >= 0 && |closed| == |lines| && closed[..n] == lines[..n]
            && !lines[n].terminated && closed[n] == FileLine(lines[n].body, true)
  {
    var parts := Parts(text);
    var m := |parts| - 1;
    LastPartNonEmpty(text);
    assert text + ['\n'] + "" == text + ['\n'];
    SplitConcat(text, "");
    assert (parts + [""])[..m + 1] == parts;
    assert Terminated(parts) == Terminated(parts[..m]) + [FileLine(parts[m], true)];
  }

  lemma {:induction false} LastPartNonEmpty(text: string)
    requires !EndsLine(text)
    ensures var parts := Split(text); parts[|parts| - 1] != ""
  {
    if |text| > 1 {
      LastPartNonEmpty(text[1..]);
    }
  }

  // ----- A line-aligned occurrence is a window -----

  /** The occurrence starts a line and ends a line. */
  predicate LineAligned(before: string, target: string, after: string) {
    && EndsLine(before)
    && target != ""
    && (EndsLine(target) || after == "" || after[0] == '\n')
  }

  /** The window matches the lines from i on, and covers start..end. */
  ghost predicate IsWindow(lines: seq<FileLine>, window: seq<FileLine>, i: nat, start: nat, end: nat) {
    && |window| >= 1 && i + |window| <= |lines|
    && WindowMatchesAt(lines, window, i)
    && WindowCharSpan(lines, Offsets(lines), i, i + |window| - 1, window[|window| - 1].terminated) == (start, end)
  }

  lemma AlignedIsWindow(before: string, target: string, after: string)
    requires LineAligned(before, target, after)
    ensures IsWindow(TerminatedLines(before + target + after), TerminatedLines(target),
                     |TerminatedLines(before)|, |before|, |before + target|)
  {
    var first, window := TerminatedLines(before), TerminatedLines(target);
    assert before + target + after == before + (target + after);
    LinesConcat(before, target + after);
    FlattenLines(before);
    var mine, last := AlignedLines(target, after);
    assert first + (mine + last) == first + mine + last;
    WindowOfLines(first, mine, last, window, |before + target|);
  }

  lemma OwnLinesCover(target: string)
    requires target != ""
    ensures Covers(TerminatedLines(target), TerminatedLines(target), |target|)
  {
    FlattenLines(target);
  }

  lemma ClosedLinesCover(target: string)
    requires !EndsLine(target)
    ensures Covers(TerminatedLines(target + ['\n']), TerminatedLines(target), |target|)
  {
    LinesTerminate(target);
    FlattenLines(target + ['\n']);
  }

  /** The lines of an aligned target, as they stand in the content. */
  lemma AlignedLines(target: string, after: string) returns (mine: seq<FileLine>, last: seq<FileLine>)
    requires LineAligned("", target, after)
    ensures TerminatedLines(target + after) == mine + last
    ensures Covers(mine, TerminatedLines(target), |target|)
  {
    if EndsLine(target) {
      LinesConcat(target, after);
      OwnLinesCover(target);
      mine, last := TerminatedLines(target), TerminatedLines(after);
    } else if after == "" {
      assert target + after == target;
      OwnLinesCover(target);
      mine, last := TerminatedLines(target), [];
    } else {
      var closed := target + ['\n'];
      assert target + after == closed + after[1..];
      LinesConcat(closed, after[1..]);
      ClosedLinesCover(target);
      mine, last := TerminatedLines(closed), TerminatedLines(after[1..]);
    }
  }

  /** These lines match the window, and without an unclaimed last newline they
      have `size` characters. */
  ghost predicate Covers(mine: seq<FileLine>, window: seq<FileLine>, size: nat) {
    var n := |window| - 1;
    && |mine| == |window| >= 1
    && mine[..n] == window[..n] && LastLineMatches(mine[n], window[n])
    && size == |Flatten(mine)| - if mine[n].terminated && !window[n].terminated then 1 else 0
  }

  lemma OffsetAfter(first: seq<FileLine>, rest: seq<FileLine>)
    ensures Offset(first + rest, |first|) == |Flatten(first)|
  {
  }

  /** The lines first + mine + last, where mine matches the window. */
  lemma WindowOfLines(first: seq<FileLine>, mine: seq<FileLine>, last: seq<FileLine>, window: seq<FileLine>, end: nat)
    requires end >= |Flatten(first)| && Covers(mine, window, end - |Flatten(first)|)
    ensures IsWindow(first + mine + last, window, |first|, |Flatten(first)|, end)
  {
    hide Flatten;
    var n := |window| - 1;
    Rejoin(mine, n);
    assert mine[n..] == [mine[n]];
    PlacedLines(first, mine[..n], mine[n], last);
    PlacedOffsets(first, mine[..n], mine[n], last);
  }

  /** Where the parts of a line list are. */
  lemma PlacedLines(first: seq<FileLine>, front: seq<FileLine>, final: FileLine, last: seq<FileLine>)
    ensures var lines, i, n := first + (front + [final]) + last, |first|, |front|;
            i + n < |lines| && lines[i..i + n] == front && lines[i + n] == final
  {
  }

  lemma PlacedOffsets(first: seq<FileLine>, front: seq<FileLine>, final: FileLine, last: seq<FileLine>)
    ensures var lines := first + (front + [final]) + last;
            && Offset(lines, |first|) == |Flatten(first)|
            && Offset(lines, |first| + |front|) == |Flatten(first)| + |Flatten(front)|
            && |Flatten(front + [final])| == |Flatten(front)| + |final.Text()|
  {
    var lines := first + (front + [final]) + last;
    assert lines == first + ((front + [final]) + last) && lines == (first + front) + ([final] + last);
    OffsetAfter(first, (front + [final]) + last);
    OffsetAfter(first + front, [final] + last);
    FlattenConcat(first, front);
    FlattenConcat(front, [final]);
    assert Flatten([final]) == final.Text() + Flatten([]);
  }

  // ----- Fuzzy agrees with exact on aligned occurrences -----

  /** A fuzzy match is the only window, so it is any window one can name. */
  lemma OnlyWindow(
      normalizedLines: seq<FileLine>, lines: seq<FileLine>, offsets: seq<nat>, window: seq<FileLine>,
      edit: Edit, index: nat, span: Span, i: nat)
    requires |window| >= 1 && |normalizedLines| == |lines| == |offsets| && i + |window| <= |lines|
    requires WindowSpan(normalizedLines, lines, offsets, window, edit, index) == Ok(span)
    requires WindowMatchesAt(normalizedLines, window, i)
    ensures (span.start, span.end)
         == WindowCharSpan(lines, offsets, i, i + |window| - 1, window[|window| - 1].terminated)
    ensures span == Span(index, span.start, span.end, NormalizeToLf(edit.newText))
  {
    WindowStartsSound(normalizedLines, window, 0);
    assert i in WindowStarts(normalizedLines, window, 0);
  }

  lemma NormalizedOnlyWindow(
      norm: Normalizer, lines: seq<FileLine>, window: seq<FileLine>,
      edit: Edit, index: nat, span: Span, i: nat, start: nat, end: nat)
    requires IsWindow(lines, window, i, start, end)
    requires WindowSpan(NormalizeLines(norm, lines), lines, Offsets(lines), NormalizeLines(norm, window), edit, index)
             == Ok(span)
    ensures span == Span(index, start, end, NormalizeToLf(edit.newText))
  {
    hide WindowSpan, WindowStarts, NormalizeToLf, Offsets;
    NormalizedWindow(norm, lines, window, i);
    OnlyWindow(NormalizeLines(norm, lines), lines, Offsets(lines), NormalizeLines(norm, window), edit, index, span, i);
  }

  predicate IsAligned(content: string, s: Span) {
    s.start <= s.end <= |content| && LineAligned(content[..s.start], content[s.start..s.end], content[s.end..])
  }

  /** An aligned exact occurrence and a fuzzy match of the same edit are the same span. */
  lemma AlignedSpansAgree(norm: Normalizer, content: string, edit: Edit, index: nat, exact: Span, fuzzy: Span)
    requires edit.oldText != "" && IsAligned(content, exact)
    requires ExactSpan(content, edit, index) == Ok(exact) && FuzzySpan(norm, content, edit, index) == Ok(fuzzy)
    ensures fuzzy == exact
  {
    var target := ExactTarget(content, edit, index, exact);
    var before, after := content[..exact.start], content[exact.end..];
    AlignedIsWindow(before, target, after);
    NormalizedOnlyWindow(norm, TerminatedLines(content), TerminatedLines(target), edit, index, fuzzy,
                         |TerminatedLines(before)|, |before|, |before + target|);
  }

  lemma ExactTarget(content: string, edit: Edit, index: nat, exact: Span) returns (target: string)
    requires edit.oldText != "" && ExactSpan(content, edit, index) == Ok(exact) && exact.end <= |content|
    ensures target == NormalizeToLf(edit.oldText) && exact.start <= exact.end
    ensures target == content[exact.start..exact.end]
    ensures content == content[..exact.start] + target + content[exact.end..]
    ensures exact == Span(index, exact.start, |content[..exact.start] + target|, NormalizeToLf(edit.newText))
  {
    hide NormalizeToLf, Find, GreedyStarts;
    target := NormalizeToLf(edit.oldText);
    ExactMeansUnique(content, target, index, exact.start);
  }

  /** Normalization keeps a match of lines. */
  lemma NormalizedWindow(norm: Normalizer, lines: seq<FileLine>, window: seq<FileLine>, i: nat)
    requires |window| >= 1 && i + |window| <= |lines| && WindowMatchesAt(lines, window, i)
    ensures WindowMatchesAt(NormalizeLines(norm, lines), NormalizeLines(norm, window), i)
  {
    var n := |window| - 1;
    var a, b := NormalizeLines(norm, lines), NormalizeLines(norm, window);
    forall k | 0 <= k < n
      ensures a[i..i + n][k] == b[..n][k]
    {
      assert lines[i..i + n][k] == window[..n][k];
    }
  }

  /** If every exact occurrence is line-aligned and both ways of matching
      succeed, they give the same spans and the same text, whatever the
      normalization is. */
  lemma FuzzyAgreesWithExact(
      norm: Normalizer, content: string, edits: seq<Edit>, exact: seq<Span>, fuzzy: seq<Span>)
    requires NonEmptyEdits(edits)
    requires Collect(ExactResults(content, edits)) == Ok(exact)
    requires Collect(FuzzyResults(norm, content, edits)) == Ok(fuzzy)
    requires forall s :: s in exact ==> IsAligned(content, s)
    ensures fuzzy == exact
    ensures Applied(content, Ok(fuzzy)) == Applied(content, Ok(exact))
  {
    var exactResults, fuzzyResults := ExactResults(content, edits), FuzzyResults(norm, content, edits);
    AllOkGives(exactResults);
    AllOkGives(fuzzyResults);
    forall i | 0 <= i < |edits|
      ensures fuzzy[i] == exact[i]
    {
      assert exactResults[i] == Ok(exact[i]) && fuzzyResults[i] == Ok(fuzzy[i]);
      assert exact[i] in exact;
      AlignedSpansAgree(norm, content, edits[i], i, exact[i], fuzzy[i]);
    }
  }
}
