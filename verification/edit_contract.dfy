/** What an edit call answers, for every text and every list of edits. */
module EditContract {
  import opened Prelude
  import opened Search
  import opened Text
  import opened EditFiles
  import opened EditSplice
  import opened EditSpliceExact
  import opened EditMatching
  import opened EditProperties

  // ----- Occurrences -----

  ghost predicate NoneFrom(content: string, oldText: string, from: nat) {
    forall i: nat :: from <= i ==> !OccursAt(content, oldText, i)
  }

  /** p is the first occurrence, and none starts at or after its end. */
  ghost predicate AppearsOnce(content: string, oldText: string, p: nat) {
    OccursAt(content, oldText, p) && NoneBetween(content, oldText, 0, p) && NoneFrom(content, oldText, p + |oldText|)
  }

  ghost predicate Unique(content: string, edit: Edit) {
    exists p: nat :: AppearsOnce(content, NormalizeToLf(edit.oldText), p)
  }

  /** Occurrences that do not overlap, each the first one from the end of the last. */
  ghost predicate GreedyChain(content: string, oldText: string, from: nat, starts: seq<nat>)
    decreases |starts|
  {
    if starts == [] then NoneFrom(content, oldText, from)
    else
      && from <= starts[0] && OccursAt(content, oldText, starts[0]) && NoneBetween(content, oldText, from, starts[0])
      && GreedyChain(content, oldText, starts[0] + |oldText|, starts[1..])
  }

  lemma ChainCons(content: string, oldText: string, from: nat, p: nat, rest: seq<nat>)
    requires from <= p && OccursAt(content, oldText, p) && NoneBetween(content, oldText, from, p)
    requires GreedyChain(content, oldText, p + |oldText|, rest)
    ensures GreedyChain(content, oldText, from, [p] + rest)
  {
    assert ([p] + rest)[1..] == rest;
  }

  lemma {:induction false} GreedyStartsAreChain(content: string, oldText: string, from: nat)
    requires oldText != ""
    ensures GreedyChain(content, oldText, from, GreedyStarts(content, oldText, from))
    decreases |content| - from
  {
    hide Find, GreedyChain, OccursAt;
    FindIs(content, oldText, from);
    var next := Find(content, oldText, from);
    if next.Some? {
      FindIsFirst(content, oldText, from);
      GreedyStartsAreChain(content, oldText, next.value + |oldText|);
      ChainCons(content, oldText, from, next.value, GreedyStarts(content, oldText, next.value + |oldText|));
    } else {
      NoMore(content, oldText, from);
    }
  }

  lemma NoMore(content: string, oldText: string, from: nat)
    requires oldText != "" && NoneFrom(content, oldText, from) && Find(content, oldText, from) == None
    ensures GreedyChain(content, oldText, from, GreedyStarts(content, oldText, from))
  {
  }

  /** There is only one such chain, so its length is the number of occurrences. */
  lemma {:induction false} OneChain(content: string, oldText: string, from: nat, a: seq<nat>, b: seq<nat>)
    requires oldText != "" && GreedyChain(content, oldText, from, a) && GreedyChain(content, oldText, from, b)
    ensures a == b
    decreases |a|
  {
    hide OccursAt;
    if a != [] && b != [] {
      OneChain(content, oldText, a[0] + |oldText|, a[1..], b[1..]);
      FirstAndRest(a);
      FirstAndRest(b);
    }
  }

  /** One edit by itself: found where it appears once, not found exactly if it
      occurs nowhere, and otherwise reported with the number of its occurrences. */
  lemma ExactAnswers(content: string, edit: Edit, index: nat)
    requires edit.oldText != ""
    ensures var target := NormalizeToLf(edit.oldText);
            var starts := GreedyStarts(content, target, 0);
            && GreedyChain(content, target, 0, starts)
            && (forall p: nat :: AppearsOnce(content, target, p)
                  ==> ExactSpan(content, edit, index)
                      == Ok(Span(index, p, p + |target|, NormalizeToLf(edit.newText))))
            && (NoneFrom(content, target, 0) ==> ExactSpan(content, edit, index) == Err(NotFound(index)))
            && (!NoneFrom(content, target, 0) && !Unique(content, edit)
                ==> |starts| >= 2 && ExactSpan(content, edit, index) == Err(Duplicate(index, |starts|)))
  {
    hide NormalizeToLf, GreedyStarts, Find, GreedyChain;
    var target := NormalizeToLf(edit.oldText);
    GreedyStartsAreChain(content, target, 0);
    NotFoundMeansAbsent(content, target, index);
    forall p: nat
      ensures RequireUnique(GreedyStarts(content, target, 0), index) == Ok(p) <==> AppearsOnce(content, target, p)
    {
      ExactMeansUnique(content, target, index, p);
    }
  }

  // ----- Overlaps -----

  predicate DistinctIndices(spans: seq<Span>) {
    forall i, j :: 0 <= i < j < |spans| ==> spans[i].editIndex != spans[j].editIndex
  }

  predicate Apart(a: Span, b: Span) {
    a.end <= b.start || b.end <= a.start
  }

  /** No two different edits touch a common character. */
  predicate AllApart(spans: seq<Span>) {
    forall i, j :: 0 <= i < j < |spans| ==> Apart(spans[i], spans[j])
  }

  /** The second edit's span starts inside the first one's. */
  predicate ReachesInto(spans: seq<Span>, first: nat, second: nat) {
    && first < |spans| && second < |spans| && first != second
    && spans[first].start <= spans[second].start < spans[first].end
  }

  lemma {:induction false} FirstOverlapIs(sorted: seq<Span>) returns (k: nat)
    requires FirstOverlap(sorted).Some?
    ensures k + 1 < |sorted| && sorted[k].end > sorted[k + 1].start
    ensures FirstOverlap(sorted) == Some((sorted[k].editIndex, sorted[k + 1].editIndex))
  {
    k := 0;
    if sorted[0].end <= sorted[1].start {
      var rest := FirstOverlapIs(sorted[1..]);
      k := rest + 1;
    }
  }

  lemma {:induction false} InsertKeepsDistinct(s: Span, sorted: seq<Span>)
    requires DistinctIndices(sorted) && forall x :: x in sorted ==> x.editIndex != s.editIndex
    ensures DistinctIndices(InsertUp(s, sorted))
  {
    if sorted != [] && s.start > sorted[0].start {
      var rest := InsertUp(s, sorted[1..]);
      InsertKeepsDistinct(s, sorted[1..]);
      forall x | x in rest
        ensures x.editIndex != sorted[0].editIndex
      {
        InsertUpPermutes(s, sorted[1..]);
        assert x in multiset(rest);
        assert x == s || x in multiset(sorted[1..]);
        assert sorted[0] in sorted;
      }
    }
  }

  lemma {:induction false} SortKeepsDistinct(spans: seq<Span>)
    requires DistinctIndices(spans)
    ensures DistinctIndices(SortUp(spans))
  {
    if spans != [] {
      SortKeepsDistinct(spans[1..]);
      SameElements(spans[1..]);
      InsertKeepsDistinct(spans[0], SortUp(spans[1..]));
    }
  }

  /** Spans numbered like their edits. */
  predicate IndexedSpans(spans: seq<Span>) {
    forall i :: 0 <= i < |spans| ==> spans[i].editIndex == i
  }

  /** An overlap error names two edits of which one really reaches into the other. */
  lemma OverlapIsReal(spans: seq<Span>)
    requires IndexedSpans(spans) && !Validated(spans)
    ensures var overlap := FirstOverlap(SortUp(spans)).value;
            && ValidateNonOverlapping(spans) == Err(Overlap(overlap.0, overlap.1))
            && ReachesInto(spans, overlap.0, overlap.1)
  {
    hide SortUp, FirstOverlap;
    var sorted := SortUp(spans);
    var k := FirstOverlapIs(sorted);
    SortUpAscends(spans);
    SortKeepsDistinct(spans);
    SameElements(spans);
    assert sorted[k] in spans && sorted[k + 1] in spans;
    assert sorted[k] == spans[sorted[k].editIndex] && sorted[k + 1] == spans[sorted[k + 1].editIndex];
  }

  /** Non-empty spans pass validation if and only if no two of them overlap. */
  lemma ValidatedExactlyWhenApart(spans: seq<Span>, size: nat)
    requires IndexedSpans(spans) && InBounds(spans, size) && AllNonEmpty(spans)
    ensures Validated(spans) <==> AllApart(spans)
  {
    hide SortUp, FirstOverlap;
    if Validated(spans) {
      var sorted := SortUp(spans);
      ValidatedMeansDisjoint(spans, size);
      SameElements(spans);
      forall i, j | 0 <= i < j < |spans|
        ensures Apart(spans[i], spans[j])
      {
        assert spans[i] in sorted && spans[j] in sorted;
      }
    } else {
      OverlapIsReal(spans);
      var overlap := FirstOverlap(SortUp(spans)).value;
      assert spans[overlap.0] in spans && spans[overlap.1] in spans;
    }
  }

  // ----- The whole call -----

  /** The spans of edits that all appear once. */
  ghost predicate ExactSpansOf(content: string, edits: seq<Edit>, spans: seq<Span>) {
    && |spans| == |edits|
    && forall i :: 0 <= i < |spans| ==> IsExactSpan(content, edits[i], i, spans[i])
  }

  ghost predicate IsExactSpan(content: string, edit: Edit, index: nat, span: Span) {
    var target := NormalizeToLf(edit.oldText);
    && AppearsOnce(content, target, span.start)
    && span == Span(index, span.start, span.start + |target|, NormalizeToLf(edit.newText))
  }

  /** All edits at once in the original text, unless that changes nothing. */
  ghost predicate AnswersAtOnce(content: string, spans: seq<Span>, answer: Result<string, EditError>) {
    && Chain(SortUp(spans), 0, |content|)
    && var text := Simultaneous(content, SortUp(spans), 0);
       answer == if text == content then Err(NoChange) else Ok(text)
  }

  /** When every edit appears once: overlapping edits are an error that names
      them, and otherwise all are made at once. */
  lemma AllFound(norm: Normalizer, content: string, edits: seq<Edit>, spans: seq<Span>)
    requires NonEmptyEdits(edits) && ExactSpansOf(content, edits, spans)
    ensures var answer := Edited(norm, content, edits);
            if AllApart(spans) then AnswersAtOnce(content, spans, answer)
            else answer.Err? && answer.error.Overlap? && ReachesInto(spans, answer.error.first, answer.error.second)
  {
    hide NormalizeToLf, SortUp, SortDown, FirstOverlap, GreedyStarts, AllOk, ReplaceAll;
    var results := ExactResults(content, edits);
    forall i | 0 <= i < |spans|
      ensures results[i] == Ok(spans[i]) && spans[i].start < spans[i].end <= |content|
    {
      assert IsExactSpan(content, edits[i], i, spans[i]);
      ExactAnswers(content, edits[i], i);
    }
    AllOkValues(results, spans);
    ValidatedExactlyWhenApart(spans, |content|);
    NoneEmpty(edits, 0);
    if AllApart(spans) {
      NonEmptyMeansDistinct(spans, |content|);
      SpliceIsSimultaneous(content, spans);
    } else {
      OverlapIsReal(spans);
    }
  }

  lemma {:induction false} NoneEmpty(edits: seq<Edit>, from: nat)
    requires NonEmptyEdits(edits) && from <= |edits|
    ensures FirstEmpty(edits, from) == None
    decreases |edits| - from
  {
    if from < |edits| {
      NoneEmpty(edits, from + 1);
    }
  }

  /** The results up to the first edit that fails. */
  lemma FailsAt(content: string, edits: seq<Edit>, i: nat)
    requires NonEmptyEdits(edits) && i < |edits| && !Unique(content, edits[i])
    requires forall j :: 0 <= j < i ==> Unique(content, edits[j])
    ensures ExactSpan(content, edits[i], i).Err?
    ensures Collect(ExactResults(content, edits)) == Err(ExactSpan(content, edits[i], i).error)
  {
    hide NormalizeToLf, GreedyStarts, ExactSpan, GreedyChain, AppearsOnce;
    var results := ExactResults(content, edits);
    forall j | 0 <= j < i
      ensures results[j].Ok?
    {
      ExactAnswers(content, edits[j], j);
      assert Unique(content, edits[j]);
      var p: nat :| AppearsOnce(content, NormalizeToLf(edits[j].oldText), p);
    }
    ExactAnswers(content, edits[i], i);
    AllOkStops(results, i);
  }

  /** When edit i is the first that does not appear once: if it occurs at all, it
      is reported as a duplicate, with the number of its occurrences; only if it
      occurs nowhere is fuzzy matching tried, on all the edits. */
  lemma FirstFailure(norm: Normalizer, content: string, edits: seq<Edit>, i: nat)
    requires NonEmptyEdits(edits) && i < |edits| && !Unique(content, edits[i])
    requires forall j :: 0 <= j < i ==> Unique(content, edits[j])
    ensures var target := NormalizeToLf(edits[i].oldText);
            if NoneFrom(content, target, 0)
            then Edited(norm, content, edits) == Applied(content, Collect(FuzzyResults(norm, content, edits)))
            else forall starts: seq<nat> :: GreedyChain(content, target, 0, starts)
                   ==> |starts| >= 2 && Edited(norm, content, edits) == Err(Duplicate(i, |starts|))
  {
    hide NormalizeToLf, GreedyStarts, ExactSpan, GreedyChain, AppearsOnce, Collect, ReplaceAll, SortDown;
    ExactAnswers(content, edits[i], i);
    FailsAt(content, edits, i);
    NoneEmpty(edits, 0);
    var target := NormalizeToLf(edits[i].oldText);
    forall starts: seq<nat> | GreedyChain(content, target, 0, starts)
      ensures starts == GreedyStarts(content, target, 0)
    {
      OneChain(content, target, 0, starts, GreedyStarts(content, target, 0));
    }
  }

  // ----- What a window of lines is -----

  predicate OnlyLastOpen(lines: seq<FileLine>) {
    forall i :: 0 <= i < |lines| - 1 ==> lines[i].terminated
  }

  lemma LinesOfText(norm: Normalizer, text: string)
    ensures OnlyLastOpen(TerminatedLines(text)) && OnlyLastOpen(NormalizeLines(norm, TerminatedLines(text)))
  {
    hide Split;
  }

  lemma FirstLineIsUnique(x: Line, r: string, y: Line, s: string)
    requires x + ['\n'] + r == y + ['\n'] + s
    ensures x == y && r == s
  {
    hide Split, Join;
    SplitConcat(x, r);
    SplitConcat(y, s);
    SplitOneLine(x);
    SplitOneLine(y);
    assert ([x] + Split(r))[0] == x && ([y] + Split(s))[0] == y;
    assert ([x] + Split(r))[1..] == Split(r) && ([y] + Split(s))[1..] == Split(s);
    JoinSplit(r);
    JoinSplit(s);
  }

  lemma LineIsItsText(a: FileLine, b: FileLine)
    requires a.Text() == b.Text()
    ensures a == b
  {
    OpenIsNotClosed(a.body, b.body);
    OpenIsNotClosed(b.body, a.body);
    if a.terminated && b.terminated {
      assert (a.body + "\n")[..|a.body|] == a.body && (b.body + "\n")[..|b.body|] == b.body;
    }
  }

  lemma OpenIsNotClosed(x: Line, y: Line)
    ensures x + "\n" != y
  {
    assert (x + "\n")[|x|] == '\n';
  }

  /** As many lines with the same text are the same lines. */
  lemma {:induction false} LinesAreTheirText(a: seq<FileLine>, b: seq<FileLine>)
    requires |a| == |b| && OnlyLastOpen(a) && OnlyLastOpen(b) && Flatten(a) == Flatten(b)
    ensures a == b
  {
    if |a| == 1 {
      assert a == [a[0]] && b == [b[0]];
      FlattenOne(a[0]);
      FlattenOne(b[0]);
      LineIsItsText(a[0], b[0]);
    } else if |a| > 1 {
      assert Flatten(a) == a[0].body + ['\n'] + Flatten(a[1..]) && Flatten(b) == b[0].body + ['\n'] + Flatten(b[1..]);
      FirstLineIsUnique(a[0].body, Flatten(a[1..]), b[0].body, Flatten(b[1..]));
      LinesAreTheirText(a[1..], b[1..]);
      FirstAndRest(a);
      FirstAndRest(b);
    }
  }

  /** The lines with a newline at the end of the last one. */
  function ClosedLines(lines: seq<FileLine>): seq<FileLine>
    requires lines != []
  {
    lines[..|lines| - 1] + [FileLine(lines[|lines| - 1].body, true)]
  }

  lemma ClosedText(lines: seq<FileLine>)
    requires lines != [] && !lines[|lines| - 1].terminated
    ensures Flatten(ClosedLines(lines)) == Flatten(lines) + "\n"
  {
    hide Flatten;
    var front, last := lines[..|lines| - 1], lines[|lines| - 1];
    var closed := FileLine(last.body, true);
    assert lines == front + [last];
    FlattenConcat(front, [last]);
    FlattenConcat(front, [closed]);
    FlattenOne(last);
    FlattenOne(closed);
    Associate(Flatten(front), last.body, "\n");
  }

  lemma FlattenOne(line: FileLine)
    ensures Flatten([line]) == line.Text()
  {
    assert Flatten([line]) == line.Text() + Flatten([]);
  }

  /** A window matches where the lines have its text, give or take a final newline
      that the window does not claim. */
  lemma WindowMeans(lines: seq<FileLine>, window: seq<FileLine>, i: nat)
    requires window != [] && i + |window| <= |lines| && OnlyLastOpen(lines) && OnlyLastOpen(window)
    ensures var text := Flatten(lines[i..i + |window|]);
            WindowMatchesAt(lines, window, i)
            <==> text == Flatten(window) || (!window[|window| - 1].terminated && text == Flatten(window) + "\n")
  {
    hide Flatten, WindowMatchesAt, LastLineMatches, ClosedLines;
    var part := lines[i..i + |window|];
    MatchesPart(lines, window, i);
    MatchingLinesAre(part, window);
    MatchingText(part, window);
  }

  lemma MatchesPart(lines: seq<FileLine>, window: seq<FileLine>, i: nat)
    requires window != [] && i + |window| <= |lines|
    ensures var part, n := lines[i..i + |window|], |window| - 1;
            WindowMatchesAt(lines, window, i) <==> part[..n] == window[..n] && LastLineMatches(part[n], window[n])
  {
    hide LastLineMatches;
    var part, n := lines[i..i + |window|], |window| - 1;
    assert part[..n] == lines[i..i + n] && part[n] == lines[i + n];
  }

  lemma MatchingLinesAre(part: seq<FileLine>, window: seq<FileLine>)
    requires |part| == |window| && window != []
    ensures var n := |window| - 1;
            part[..n] == window[..n] && LastLineMatches(part[n], window[n])
            <==> part == window || (!window[n].terminated && part == ClosedLines(window))
  {
    var n := |window| - 1;
    assert part == part[..n] + [part[n]] && window == window[..n] + [window[n]];
    assert ClosedLines(window)[..n] == window[..n];
    if part[..n] == window[..n] && LastLineMatches(part[n], window[n]) {
      assert part[n] == window[n] || part[n] == FileLine(window[n].body, true);
    }
  }

  lemma MatchingText(part: seq<FileLine>, window: seq<FileLine>)
    requires |part| == |window| && window != [] && OnlyLastOpen(part) && OnlyLastOpen(window)
    ensures part == window <==> Flatten(part) == Flatten(window)
    ensures !window[|window| - 1].terminated
        ==> (part == ClosedLines(window) <==> Flatten(part) == Flatten(window) + "\n")
  {
    hide Flatten;
    if Flatten(part) == Flatten(window) {
      LinesAreTheirText(part, window);
    }
    if !window[|window| - 1].terminated {
      ClosedText(window);
      if Flatten(part) == Flatten(window) + "\n" {
        LinesAreTheirText(part, ClosedLines(window));
      }
    }
  }

  // ----- The fallback -----

  /** The window of an edit matches the lines of the text from line i on. */
  ghost predicate MatchesLine(norm: Normalizer, content: string, edit: Edit, i: nat)
    requires edit.oldText != ""
  {
    var lines, window := NormalizeLines(norm, TerminatedLines(content)), Window(norm, edit);
    i + |window| <= |lines| && WindowMatchesAt(lines, window, i)
  }

  /** It does if and only if the normalized lines have its normalized text. */
  lemma MatchesLineMeans(norm: Normalizer, content: string, edit: Edit, i: nat)
    requires edit.oldText != ""
    ensures var lines, window := NormalizeLines(norm, TerminatedLines(content)), Window(norm, edit);
            MatchesLine(norm, content, edit, i)
            <==> && i + |window| <= |lines|
                 && var text := Flatten(lines[i..i + |window|]);
                    text == Flatten(window) || (!window[|window| - 1].terminated && text == Flatten(window) + "\n")
  {
    hide PartLines, NormalizeLines, NormalizeToLf, Flatten, WindowMatchesAt;
    var lines, window := NormalizeLines(norm, TerminatedLines(content)), Window(norm, edit);
    LinesOfText(norm, content);
    LinesOfText(norm, NormalizeToLf(edit.oldText));
    if i + |window| <= |lines| {
      WindowMeans(lines, window, i);
    }
  }

  ghost predicate MatchesOnce(norm: Normalizer, content: string, edit: Edit, i: nat)
    requires edit.oldText != ""
  {
    MatchesLine(norm, content, edit, i) && forall j: nat :: MatchesLine(norm, content, edit, j) ==> j == i
  }

  predicate Rising(starts: seq<nat>) {
    forall a, b :: 0 <= a < b < |starts| ==> starts[a] < starts[b]
  }

  lemma RisingPair(starts: seq<nat>, a: nat, b: nat)
    requires Rising(starts) && a < b < |starts|
    ensures starts[a] < starts[b]
  {
  }

  /** The matching lines, in order. */
  ghost predicate MatchingLines(norm: Normalizer, content: string, edit: Edit, starts: seq<nat>)
    requires edit.oldText != ""
  {
    && Rising(starts)
    && (forall i: nat :: i in starts <==> MatchesLine(norm, content, edit, i))
  }

  lemma RisingFrom(start: nat, rest: seq<nat>)
    requires Rising(rest) && forall b :: 0 <= b < |rest| ==> start < rest[b]
    ensures Rising([start] + rest)
  {
  }

  lemma {:induction false} WindowStartsRise(lines: seq<FileLine>, window: seq<FileLine>, start: nat)
    requires |window| >= 1
    ensures Rising(WindowStarts(lines, window, start))
    decreases |lines| - start
  {
    hide WindowMatchesAt;
    if start + |window| <= |lines| {
      var rest := WindowStarts(lines, window, start + 1);
      WindowStartsRise(lines, window, start + 1);
      WindowStartsSound(lines, window, start + 1);
      forall b | 0 <= b < |rest|
        ensures start < rest[b]
      {
        assert rest[b] in rest;
      }
      RisingFrom(start, rest);
      assert [] + rest == rest;
    }
  }

  /** One edit by itself, on normalized lines: the span of the one window that
      matches, or the number of windows that do. */
  lemma FuzzyAnswers(norm: Normalizer, content: string, edit: Edit, index: nat)
    requires edit.oldText != ""
    ensures var lines, window, answer :=
              TerminatedLines(content), Window(norm, edit), FuzzySpan(norm, content, edit, index);
            var starts := WindowStarts(NormalizeLines(norm, lines), window, 0);
            && MatchingLines(norm, content, edit, starts)
            && (starts == [] ==> answer == Err(NotFound(index)))
            && (|starts| >= 2 ==> answer == Err(Duplicate(index, |starts|)))
            && (|starts| == 1 ==> answer.Ok?)
            && (forall i: nat :: MatchesOnce(norm, content, edit, i)
                  ==> var (start, end) := WindowCharSpan(lines, Offsets(lines), i, i + |window| - 1,
                                                         window[|window| - 1].terminated);
                      answer == Ok(Span(index, start, end, NormalizeToLf(edit.newText))))
  {
    hide NormalizeToLf, PartLines, NormalizeLines, Offsets, WindowStarts, WindowMatchesAt;
    var lines, window := TerminatedLines(content), Window(norm, edit);
    var starts := WindowStarts(NormalizeLines(norm, lines), window, 0);
    WindowStartsSound(NormalizeLines(norm, lines), window, 0);
    WindowStartsRise(NormalizeLines(norm, lines), window, 0);
    forall i: nat | MatchesOnce(norm, content, edit, i)
      ensures starts == [i]
    {
      assert i in starts;
      forall k | 0 <= k < |starts|
        ensures starts[k] == i
      {
        assert starts[k] in starts;
        assert MatchesLine(norm, content, edit, starts[k]);
      }
      OnlyOne(starts, i);
    }
  }

  lemma OnlyOne(starts: seq<nat>, i: nat)
    requires Rising(starts) && i in starts && forall k :: 0 <= k < |starts| ==> starts[k] == i
    ensures starts == [i]
  {
    hide Rising;
    if |starts| > 1 {
      RisingPair(starts, 0, 1);
    }
  }

  /** The fallback as a whole: the first edit that does not match exactly once is
      the error; then overlaps; then the spans are spliced. */
  lemma FallbackAnswers(norm: Normalizer, content: string, edits: seq<Edit>)
    requires NonEmptyEdits(edits)
    ensures var results, answer := FuzzyResults(norm, content, edits), Collect(FuzzyResults(norm, content, edits));
            && (forall i :: 0 <= i < |edits| && results[i].Err? && (forall j :: 0 <= j < i ==> results[j].Ok?)
                  ==> answer == Err(results[i].error))
            && (forall spans: seq<Span> ::
                  |spans| == |results| && (forall i :: 0 <= i < |spans| ==> results[i] == Ok(spans[i]))
                  ==> if Validated(spans) then answer == Ok(spans)
                      else answer.Err? && answer.error.Overlap?
                           && ReachesInto(spans, answer.error.first, answer.error.second))
  {
    hide AllOk, SortUp, FirstOverlap, FuzzySpan;
    var results := FuzzyResults(norm, content, edits);
    forall i | 0 <= i < |edits| && results[i].Err? && (forall j :: 0 <= j < i ==> results[j].Ok?)
      ensures Collect(results) == Err(results[i].error)
    {
      AllOkStops(results, i);
    }
    forall spans: seq<Span> | |spans| == |results| && (forall i :: 0 <= i < |spans| ==> results[i] == Ok(spans[i]))
      ensures if Validated(spans) then Collect(results) == Ok(spans)
              else Collect(results).Err? && Collect(results).error.Overlap?
                   && ReachesInto(spans, Collect(results).error.first, Collect(results).error.second)
    {
      AllOkValues(results, spans);
      forall i | 0 <= i < |spans|
        ensures spans[i].editIndex == i
      {
        FuzzyIndex(norm, content, edits[i], i, spans[i]);
      }
      if !Validated(spans) {
        OverlapIsReal(spans);
      }
    }
  }

  lemma FuzzyIndex(norm: Normalizer, content: string, edit: Edit, index: nat, span: Span)
    requires edit.oldText != "" && FuzzySpan(norm, content, edit, index) == Ok(span)
    ensures span.editIndex == index
  {
    hide NormalizeToLf, PartLines, NormalizeLines, Offsets, WindowStarts;
  }

  /** The first edit with an empty old text is an error before anything is matched. */
  lemma EmptyIsRefused(norm: Normalizer, content: string, edits: seq<Edit>, i: nat)
    requires i < |edits| && edits[i].oldText == "" && forall j :: 0 <= j < i ==> edits[j].oldText != ""
    ensures Edited(norm, content, edits) == Err(EmptyOldText(i))
  {
    FirstEmptyIs(edits, 0, i);
  }

  lemma {:induction false} FirstEmptyIs(edits: seq<Edit>, from: nat, i: nat)
    requires from <= i < |edits| && edits[i].oldText == ""
    requires forall j :: from <= j < i ==> edits[j].oldText != ""
    ensures FirstEmpty(edits, from) == Some(i)
    decreases i - from
  {
    if from < i {
      FirstEmptyIs(edits, from + 1, i);
    }
  }

  /** The cases are all there are. */
  lemma {:induction false} SomeCase(content: string, edits: seq<Edit>, from: nat) returns (i: nat)
    requires NonEmptyEdits(edits) && from <= |edits|
    requires forall j :: 0 <= j < from ==> Unique(content, edits[j])
    ensures i <= |edits| && (forall j :: 0 <= j < i ==> Unique(content, edits[j]))
    ensures i < |edits| ==> !Unique(content, edits[i])
    decreases |edits| - from
  {
    i := from;
    if from < |edits| && Unique(content, edits[from]) {
      i := SomeCase(content, edits, from + 1);
    }
  }
}
