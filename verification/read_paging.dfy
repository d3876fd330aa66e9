/** The read tool: one page of a file, and the offset at which to go on. */
module ReadPaging {
  import opened Prelude
  import opened Text
  import opened OutputTruncation

  const OUTPUT_BYTE_LIMIT := 50 * 1024

  datatype Selection = Selection(content: string, startLine: nat, totalLines: nat)

  /** What a read shows: text, a page with a continuation offset, or only the
      advice that the first selected line is too big. */
  datatype Page =
    | Whole(text: string)
    | Partial(text: string, endLine: int, nextOffset: int)
    | FirstLineTooLarge(line: nat)

  /** A 1-indexed offset as a list index; anything below 1 means the start. */
  function StartIndex(offset: Option<int>): nat {
    if offset.Some? && offset.value > 1 then offset.value - 1 else 0
  }

  function SelectContent(content: string, offset: Option<int>): Option<Selection> {
    var lines := Split(content);
    var start := StartIndex(offset);
    if start >= |lines| then None
    else Some(Selection(Join(lines[start..]), start + 1, |lines|))
  }

  function EffectiveLimit(limit: int): nat {
    if limit < 1 then 1 else limit
  }

  /** The page built from truncating the selected content. */
  function PageOf(startLine: nat, t: Truncation): Page {
    if t.edgeLineExceedsLimit then FirstLineTooLarge(startLine)
    else if t.truncated then
      var endLine := startLine + t.outputLines - 1;
      Partial(t.content, endLine, endLine + 1)
    else Whole(t.content)
  }

  /** One read; None is the error "offset beyond end of file". */
  function Read(content: string, offset: Option<int>, limit: int): Option<Page> {
    match SelectContent(content, offset)
    case None => None
    case Some(selection) =>
      Some(PageOf(selection.startLine,
                  Truncated(selection.content, Head, EffectiveLimit(limit), OUTPUT_BYTE_LIMIT)))
  }

  // ----- One page -----

  predicate TooLarge(line: string) {
    Size(line) > OUTPUT_BYTE_LIMIT
  }

  /** A truncation at the head, in terms of the lines. */
  ghost predicate IsHeadOf(t: Truncation, lines: seq<string>) {
    && |lines| >= 1
    && (t.edgeLineExceedsLimit <==> TooLarge(lines[0]))
    && (!t.edgeLineExceedsLimit ==>
          && 1 <= t.outputLines <= |lines| && t.content == Join(lines[..t.outputLines])
          && (t.truncated <==> t.outputLines < |lines|)
          && NoneTooLarge(lines, 0, t.outputLines))
  }

  lemma HeadOfLines(lines: seq<string>, n: int)
    requires |lines| >= 1 && n >= 1
    requires AllOneLine(lines)
    ensures IsHeadOf(Truncated(Join(lines), Head, n, OUTPUT_BYTE_LIMIT), lines)
  {
    SplitJoin(lines);
    SizeJoin(lines);
    LinesContract(Join(lines), lines, Head, n, OUTPUT_BYTE_LIMIT);
    HeadOfContract(Join(lines), lines, TruncatedLines(Join(lines), lines, Head, n, OUTPUT_BYTE_LIMIT), n);
  }

  lemma HeadOfContract(text: string, lines: seq<string>, t: Truncation, n: int)
    requires n >= 1 && lines != [] && MeetsContract(t, lines, Head, n, OUTPUT_BYTE_LIMIT)
    requires t == TruncatedLines(text, lines, Head, n, OUTPUT_BYTE_LIMIT)
    requires Join(lines) == text && Size(text) == RunSize(lines)
    ensures IsHeadOf(t, lines)
  {
    EdgeRunOfOne(lines, Head);
    assert EdgeRun(lines, Head, |lines|) == lines;
    if !t.edgeLineExceedsLimit {
      SizeJoin(EdgeRun(lines, Head, t.outputLines));
      LinesOfRun(lines, t.outputLines);
      assert Fits(lines, Head, n, OUTPUT_BYTE_LIMIT, 1);
    }
  }

  lemma PageOfHead(t: Truncation, lines: seq<string>, at: nat)
    requires at < |lines| && IsHeadOf(t, lines[at..])
    ensures IsPage(PageOf(at + 1, t), lines, at)
  {
    if !t.edgeLineExceedsLimit {
      var k := t.outputLines;
      assert lines[at..][..k] == lines[at..at + k];
      assert k == |lines[at..]| ==> lines[at..at + k] == lines[at..];
      forall i | at <= i < at + k
        ensures !TooLarge(lines[i])
      {
        assert !TooLarge(lines[at..][i - at]);
      }
    }
  }

  /** A page shows whole lines starting at the offset; it advances, and it says
      there is more exactly when there is. */
  ghost predicate IsPage(page: Page, lines: seq<string>, at: nat)
    requires at < |lines|
  {
    match page
    case FirstLineTooLarge(line) => line == at + 1 && TooLarge(lines[at])
    case Whole(text) => text == Join(lines[at..]) && NoneTooLarge(lines, at, |lines|)
    case Partial(text, endLine, nextOffset) =>
      var next := nextOffset - 1;
      at < next < |lines| && endLine == next && text == Join(lines[at..next]) && NoneTooLarge(lines, at, next)
  }

  ghost predicate NoneTooLarge(lines: seq<string>, from: nat, to: nat)
    requires to <= |lines|
  {
    forall k :: from <= k < to ==> !TooLarge(lines[k])
  }

  lemma PageContract(content: string, at: nat, limit: int)
    requires at < |Split(content)|
    ensures var page := Read(content, Some(at + 1), limit);
            page.Some? && IsPage(page.value, Split(content), at)
  {
    var rest, n := Split(content)[at..], EffectiveLimit(limit);
    SplitLines(content);
    HeadOfLines(rest, n);
    PageOfHead(Truncated(Join(rest), Head, n, OUTPUT_BYTE_LIMIT), Split(content), at);
  }

  /** A page is as long as the limits allow: it has at most the given number of
      lines, all within the byte limit, and stops short of the end only where one
      line more would be over a limit. */
  ghost predicate IsFull(page: Page, lines: seq<string>, at: nat, most: nat)
    requires at < |lines|
  {
    match page
    case FirstLineTooLarge(_) => TooLarge(lines[at])
    case Whole(_) => |lines| - at <= most && RunSize(lines[at..]) <= OUTPUT_BYTE_LIMIT
    case Partial(_, endLine, _) =>
      && at < endLine < |lines| && endLine - at <= most && RunSize(lines[at..endLine]) <= OUTPUT_BYTE_LIMIT
      && (endLine - at == most || RunSize(lines[at..endLine + 1]) > OUTPUT_BYTE_LIMIT)
  }

  lemma FullHead(text: string, lines: seq<string>, t: Truncation, n: nat)
    requires n >= 1 && lines != [] && MeetsContract(t, lines, Head, n, OUTPUT_BYTE_LIMIT)
    requires t == TruncatedLines(text, lines, Head, n, OUTPUT_BYTE_LIMIT)
    requires Join(lines) == text && Size(text) == RunSize(lines)
    requires !t.edgeLineExceedsLimit && IsHeadOf(t, lines)
    ensures t.outputLines <= n && RunSize(lines[..t.outputLines]) <= OUTPUT_BYTE_LIMIT
    ensures t.outputLines < |lines|
        ==> t.outputLines == n || RunSize(lines[..t.outputLines + 1]) > OUTPUT_BYTE_LIMIT
  {
    hide Split, Join, Encode, RunSize, KeptFrom;
    var k := t.outputLines;
    SizeJoin(EdgeRun(lines, Head, k));
    assert k < |lines| ==> !Fits(lines, Head, n, OUTPUT_BYTE_LIMIT, k + 1);
  }

  lemma FullPage(t: Truncation, lines: seq<string>, at: nat, most: nat)
    requires at < |lines| && IsHeadOf(t, lines[at..])
    requires var rest, k := lines[at..], t.outputLines;
             !t.edgeLineExceedsLimit
             ==> && k <= most && RunSize(rest[..k]) <= OUTPUT_BYTE_LIMIT
                 && (k < |rest| ==> k == most || RunSize(rest[..k + 1]) > OUTPUT_BYTE_LIMIT)
    ensures IsFull(PageOf(at + 1, t), lines, at, most)
  {
    hide RunSize;
    if !t.edgeLineExceedsLimit {
      var k := t.outputLines;
      assert lines[at..][..k] == lines[at..at + k];
      assert k == |lines[at..]| ==> lines[at..at + k] == lines[at..];
      assert k < |lines[at..]| ==> lines[at..][..k + 1] == lines[at..at + k + 1];
    }
  }

  /** One read, for any offset and any limit. No offset, or one below 1, starts at
      line 1; an offset past the last line is the only error; a limit below 1
      counts as 1. */
  lemma ReadContract(content: string, offset: Option<int>, limit: int)
    ensures var lines := Split(content);
            var line := if offset == None || offset.value < 1 then 1 else offset.value;
            var page := Read(content, offset, limit);
            if line > |lines| then page == None
            else page.Some? && IsPage(page.value, lines, line - 1)
                 && IsFull(page.value, lines, line - 1, if limit < 1 then 1 else limit)
  {
    hide Split, Join, RunSize, Encode;
    var lines, at, n := Split(content), StartIndex(offset), EffectiveLimit(limit);
    if at < |lines| {
      var rest := lines[at..];
      PageContract(content, at, limit);
      SplitLines(content);
      SplitJoin(rest);
      SizeJoin(rest);
      HeadOfLines(rest, n);
      LinesContract(Join(rest), rest, Head, n, OUTPUT_BYTE_LIMIT);
      var t := TruncatedLines(Join(rest), rest, Head, n, OUTPUT_BYTE_LIMIT);
      if !t.edgeLineExceedsLimit {
        FullHead(Join(rest), rest, t, n);
      }
      FullPage(t, lines, at, n);
    }
  }

  /** Every line of a run is at most as big as the run. */
  lemma LinesOfRun(lines: seq<string>, n: nat)
    requires n <= |lines|
    ensures forall k :: 0 <= k < n ==> Size(lines[k]) <= RunSize(EdgeRun(lines, Head, n))
  {
    forall k | 0 <= k < n
      ensures Size(lines[k]) <= RunSize(EdgeRun(lines, Head, n))
    {
      RunGrows(lines, Head, k);
      RunMonotone(lines, Head, k + 1, n);
    }
  }

  // ----- Following the continuation offsets -----

  datatype Walk = Walk(pages: seq<string>, reachedEnd: bool)

  /** Every continuation offset is ahead and inside the file. */
  ghost predicate OffsetsValid(read: nat -> Page, end: nat) {
    forall at: nat :: at < end && read(at).Partial? ==> at < read(at).nextOffset - 1 < end
  }

  /** Reads on from line index `at` for as long as a page names a next offset. */
  function Follow(read: nat -> Page, at: nat, end: nat): Walk
    requires at < end && OffsetsValid(read, end)
    decreases end - at
  {
    match read(at)
    case Whole(text) => Walk([text], true)
    case FirstLineTooLarge(_) => Walk([], false)
    case Partial(text, _, nextOffset) =>
      var rest := Follow(read, nextOffset - 1, end);
      Walk([text] + rest.pages, rest.reachedEnd)
  }

  /** The page shown for a valid line index. */
  function PageAt(content: string, limit: int): nat -> Page {
    (at: nat) =>
      var page := Read(content, Some(at + 1), limit);
      if page.Some? then page.value else FirstLineTooLarge(at + 1)
  }

  /** Index of the first line over the byte limit, from `at`; |lines| if none. */
  function FirstTooLarge(lines: seq<string>, at: nat): (k: nat)
    requires at <= |lines|
    ensures at <= k <= |lines|
    ensures forall i :: at <= i < k ==> !TooLarge(lines[i])
    ensures k < |lines| ==> TooLarge(lines[k])
    decreases |lines| - at
  {
    if at == |lines| || TooLarge(lines[at]) then at else FirstTooLarge(lines, at + 1)
  }

  lemma FirstTooLargeIs(lines: seq<string>, at: nat, k: nat)
    requires at <= k <= |lines|
    requires forall i :: at <= i < k ==> !TooLarge(lines[i])
    ensures FirstTooLarge(lines, at) == FirstTooLarge(lines, k)
    decreases k - at
  {
    if at < k {
      FirstTooLargeIs(lines, at + 1, k);
    }
  }

  /** The pages are the lines up to the first one that is too big. */
  ghost predicate Covers(walk: Walk, lines: seq<string>, at: nat)
    requires at <= |lines|
  {
    var stop := FirstTooLarge(lines, at);
    && (walk.reachedEnd <==> stop == |lines|)
    && Join(walk.pages) == Join(lines[at..stop])
    && (walk.pages == [] <==> stop == at)
  }

  lemma LastPageCovers(lines: seq<string>, at: nat)
    requires at < |lines|
    requires NoneTooLarge(lines, at, |lines|)
    ensures Covers(Walk([Join(lines[at..])], true), lines, at)
  {
    FirstTooLargeIs(lines, at, |lines|);
    assert lines[at..|lines|] == lines[at..];
  }

  lemma PageBeforeCovers(lines: seq<string>, at: nat, next: nat, rest: Walk)
    requires at < next <= |lines|
    requires NoneTooLarge(lines, at, next)
    requires Covers(rest, lines, next)
    ensures Covers(Walk([Join(lines[at..next])] + rest.pages, rest.reachedEnd), lines, at)
  {
    var stop := FirstTooLarge(lines, next);
    FirstTooLargeIs(lines, at, next);
    assert lines[at..stop] == lines[at..next] + lines[next..stop];
    if rest.pages != [] {
      JoinConcat([Join(lines[at..next])], rest.pages);
      JoinConcat(lines[at..next], lines[next..stop]);
    }
  }

  lemma {:induction false} FollowCovers(read: nat -> Page, lines: seq<string>, at: nat)
    requires at < |lines| && OffsetsValid(read, |lines|)
    requires forall k: nat :: k < |lines| ==> IsPage(read(k), lines, k)
    ensures Covers(Follow(read, at, |lines|), lines, at)
    decreases |lines| - at
  {
    hide Split, Encode;
    var page := read(at);
    if page.Whole? {
      LastPageCovers(lines, at);
    } else if page.Partial? {
      var next := page.nextOffset - 1;
      FollowCovers(read, lines, next);
      PageBeforeCovers(lines, at, next, Follow(read, next, |lines|));
    }
  }

  /** Whatever the limit, following the offsets of the read tool shows, page
      after page, exactly the lines before the first line that is too big; it
      reaches the end of the file when there is no such line. Every offset on
      the way is valid, and the walk ends. */
  lemma PagesAreTheFile(content: string, at: nat, limit: int)
    requires at < |Split(content)|
    ensures OffsetsValid(PageAt(content, limit), |Split(content)|)
    ensures Covers(Follow(PageAt(content, limit), at, |Split(content)|), Split(content), at)
  {
    var lines := Split(content);
    forall k: nat | k < |lines|
      ensures IsPage(PageAt(content, limit)(k), lines, k)
    {
      PageContract(content, k, limit);
    }
    FollowCovers(PageAt(content, limit), lines, at);
  }

  /** From line 1: the pages joined by newlines are the file exactly when the
      walk reaches its end, and it does when no line is over the byte limit. */
  lemma ReadingReachesTheEnd(content: string, limit: int)
    ensures OffsetsValid(PageAt(content, limit), |Split(content)|)
    ensures var walk := Follow(PageAt(content, limit), 0, |Split(content)|);
            && (walk.reachedEnd <==> forall line :: line in Split(content) ==> !TooLarge(line))
            && (walk.reachedEnd ==> Join(walk.pages) == content)
  {
    var lines := Split(content);
    PagesAreTheFile(content, 0, limit);
    var stop := FirstTooLarge(lines, 0);
    assert lines[0..|lines|] == lines;
    assert stop < |lines| ==> lines[stop] in lines;
    JoinSplit(content);
  }
}
