/** The bounded accumulator against keeping the whole text and truncating it. */
module AccumulationRefinement {
  import opened Prelude
  import opened Text
  import opened OutputTruncation
  import opened OutputAccumulation

  /** Agreement on everything that is kept; the totals and the reason are separate. */
  ghost predicate SameOutput(a: Truncation, b: Truncation) {
    && a.content == b.content
    && a.truncated == b.truncated
    && a.outputLines == b.outputLines
    && a.outputBytes == b.outputBytes
    && a.edgeLineExceedsLimit == b.edgeLineExceedsLimit
  }

  // ----- Lines of a suffix -----

  /** Text without newlines, appended, only lengthens the last line. */
  lemma {:induction false} SplitAppendLine(a: string, b: string)
    requires OneLine(b)
    ensures var lines := Split(a);
            Split(a + b) == lines[..|lines| - 1] + [lines[|lines| - 1] + b]
  {
    var lines := Split(a);
    var n := |lines| - 1;
    if a == "" {
      assert a + b == b;
      SplitOneLine(b);
    } else {
      var rest := Split(a[1..]);
      SplitAppendLine(a[1..], b);
      assert a + b == [a[0]] + (a[1..] + b);
      SplitCons(a[0], a[1..] + b);
      LastLinePrepend(a[0], rest, b);
    }
  }

  lemma LastLinePrepend(c: char, rest: seq<string>, b: string)
    requires |rest| >= 1
    ensures var lines := PrependChar(c, rest);
            && |lines| >= 1
            && PrependChar(c, rest[..|rest| - 1] + [rest[|rest| - 1] + b])
               == lines[..|lines| - 1] + [lines[|lines| - 1] + b]
  {
    if |rest| == 1 {
      assert [c] + (rest[0] + b) == [c] + rest[0] + b;
    }
  }

  /** The last line of a text is at least as long as any newline-free suffix. */
  lemma LastLineCovers(a: string, b: string)
    requires OneLine(b)
    ensures var lines := Split(a + b); Size(lines[|lines| - 1]) >= Size(b)
  {
    SplitAppendLine(a, b);
    EncodeConcat(Split(a)[|Split(a)| - 1], b);
  }

  /** One line more than the last few. */
  lemma OneLineBack(before: seq<string>, after: seq<string>)
    requires before != [] && after != []
    ensures var lines, k := before + after, |after|;
            && EdgeRun(lines, Tail, k) == after
            && RunSize(EdgeRun(lines, Tail, k + 1)) == RunSize(after) + 1 + Size(before[|before| - 1])
  {
  }

  lemma SizeWithNewline(partial: string, kept: string)
    ensures Size(partial + ['\n'] + kept) == Size(partial) + 1 + Size(kept)
  {
    EncodeConcat(partial + ['\n'], kept);
    EncodeConcat(partial, ['\n']);
    EncodeOne('\n');
  }

  lemma RunOfText(text: string)
    ensures RunSize(Split(text)) == Size(text)
  {
  }

  lemma ReachBack(before: seq<string>, after: seq<string>, partialSize: nat, keptSize: nat)
    requires before != [] && after != []
    requires Size(before[|before| - 1]) >= partialSize && RunSize(after) == keptSize
    ensures var lines, k := before + after, |after|;
            && EdgeRun(lines, Tail, k) == after
            && RunSize(EdgeRun(lines, Tail, k + 1)) >= partialSize + 1 + keptSize
  {
  }

  /** One line more than `kept` reaches back over `partial`. */
  lemma OneMoreLine(lines: seq<string>, gone: string, partial: string, kept: string)
    requires OneLine(partial) && lines == Split(gone + partial) + Split(kept)
    ensures var k := |Split(kept)|;
            && k < |lines|
            && EdgeRun(lines, Tail, k) == Split(kept)
            && RunSize(EdgeRun(lines, Tail, k + 1)) >= Size(partial) + 1 + Size(kept)
  {
    hide Encode, Split, RunSize, Join;
    LastLineCovers(gone, partial);
    RunOfText(kept);
    ReachBack(Split(gone + partial), Split(kept), Size(partial), Size(kept));
  }

  // ----- Truncating a suffix of the lines -----

  /** A suffix of the lines that does not fit is truncated like all the lines. */
  lemma KeptInSuffix(lines: seq<string>, k: nat, maxLines: int, maxBytes: int)
    requires 0 < k <= |lines|
    requires !Fits(lines, Tail, maxLines, maxBytes, k)
    ensures var n := KeptCount(lines, Tail, maxLines, maxBytes);
            && n < k
            && KeptCount(EdgeRun(lines, Tail, k), Tail, maxLines, maxBytes) == n
  {
    var suffix := EdgeRun(lines, Tail, k);
    var n := KeptCount(lines, Tail, maxLines, maxBytes);
    KeptIsLongest(lines, Tail, maxLines, maxBytes);
    if k <= n {
      RunMonotone(lines, Tail, k, n);
    }
    assert EdgeRun(suffix, Tail, n) == EdgeRun(lines, Tail, n);
    assert EdgeRun(suffix, Tail, n + 1) == EdgeRun(lines, Tail, n + 1);
    assert !Fits(lines, Tail, maxLines, maxBytes, n + 1);
    KeptIs(suffix, Tail, maxLines, maxBytes, n);
  }

  /** `snapshot` holds the last k lines of `whole`, which overflows the limits. */
  ghost predicate IsLineSuffix(snapshot: string, whole: string) {
    var lines, k := Split(whole), |Split(snapshot)|;
    k <= |lines| && EdgeRun(lines, Tail, k) == Split(snapshot)
  }

  lemma TruncateSuffix(snapshot: string, whole: string, maxLines: int, maxBytes: int)
    requires IsLineSuffix(snapshot, whole)
    requires |Split(snapshot)| > maxLines || Size(snapshot) > maxBytes
    requires |Split(whole)| > maxLines || Size(whole) > maxBytes
    ensures var a := Truncated(snapshot, Tail, maxLines, maxBytes);
            var b := Truncated(whole, Tail, maxLines, maxBytes);
            SameOutput(a, b) && a.truncatedBy == b.truncatedBy
  {
    var lines, k := Split(whole), |Split(snapshot)|;
    JoinSplit(snapshot);
    SizeJoin(Split(snapshot));
    assert LineAt(Split(snapshot), Tail, 0) == LineAt(lines, Tail, 0);
    KeptInSuffix(lines, k, maxLines, maxBytes);
    var n := KeptCount(lines, Tail, maxLines, maxBytes);
    assert EdgeRun(Split(snapshot), Tail, n) == EdgeRun(lines, Tail, n);
  }

  // ----- What is left in the snapshot -----

  lemma SizeSplit(text: string, i: nat)
    requires i <= |text|
    ensures Size(text) == Size(text[..i]) + Size(text[i..])
  {
    EncodeConcat(text[..i], text[i..]);
    assert text[..i] + text[i..] == text;
  }

  /** A cut wastes at most three octets of the rolling limit. */
  lemma CutWastesLittle(whole: string, limit: nat)
    requires Cut(whole, limit) > 0
    ensures Size(whole[Cut(whole, limit)..]) + 3 >= limit
    ensures Size(whole) > limit
  {
  }

  /** What the snapshot lacks once the buffer has dropped something: it is a
      suffix of lines, and with one more line it would overflow maxBytes. */
  ghost predicate Reaches(snapshot: string, whole: string, maxBytes: int) {
    var lines, k := Split(whole), |Split(snapshot)|;
    && IsLineSuffix(snapshot, whole)
    && (Size(snapshot) <= maxBytes ==>
          k < |lines| && RunSize(EdgeRun(lines, Tail, k + 1)) > maxBytes)
  }

  /** Three ways a tail can start: at a line start, in a line that ends in it,
      or in the last line. */
  lemma SnapshotAtLineStart(gone: string, tail: string, maxBytes: int)
    requires Size(tail) > maxBytes && gone != "" && gone[|gone| - 1] == '\n'
    ensures Reaches(tail, gone + tail, maxBytes)
  {
    var front := gone[..|gone| - 1];
    assert gone == front + ['\n'];
    SplitConcat(front, tail);
    OneLineBack(Split(front), Split(tail));
  }

  lemma SnapshotAfterNewline(
    whole: string, gone: string, tail: string, partial: string, kept: string, maxBytes: int)
    requires tail == partial + ['\n'] + kept && OneLine(partial) && Size(tail) > maxBytes
    requires whole == gone + partial + ['\n'] + kept
    ensures Reaches(kept, whole, maxBytes)
  {
    SizeWithNewline(partial, kept);
    SplitConcat(gone + partial, kept);
    OneMoreLine(Split(whole), gone, partial, kept);
  }

  lemma SnapshotReaches(gone: string, tail: string, maxBytes: int)
    requires Size(tail) > maxBytes
    requires gone != ""
    ensures var snapshot := if AtLineStart(gone + tail, |gone|) then tail else DropPartialLine(tail);
            || Reaches(snapshot, gone + tail, maxBytes)
            || (snapshot == tail && OneLine(tail))
  {
    var n := FirstNewline(tail);
    if AtLineStart(gone + tail, |gone|) {
      SnapshotAtLineStart(gone, tail, maxBytes);
    } else if n < |tail| {
      var partial, kept := tail[..n], tail[n + 1..];
      assert tail == partial + ['\n'] + kept;
      Associate(gone + partial, ['\n'], kept);
      Associate(gone, partial, ['\n'] + kept);
      Associate(partial, ['\n'], kept);
      SnapshotAfterNewline(gone + tail, gone, tail, partial, kept, maxBytes);
    } else {
      assert tail[..n] == tail;
    }
  }

  // ----- The theorem -----

  /** The one case in which the reason is reported differently: the snapshot
      fits with fewer lines than allowed, and the full stream has more. */
  ghost predicate ReasonDiffers(whole: string, maxLines: int, maxBytes: nat) {
    var snapshot := SnapshotText(whole, 2 * maxBytes);
    Size(snapshot) <= maxBytes && |Split(snapshot)| < maxLines < |Split(whole)|
  }

  ghost predicate Matches(whole: string, maxLines: int, maxBytes: nat) {
    var report, t := Report(whole, maxLines, maxBytes), Truncated(whole, Tail, maxLines, maxBytes);
    && SameOutput(report, t)
    && report.totalBytes == t.totalBytes
    && (report.totalLines == t.totalLines <==> whole != "")
    && report.truncatedBy == (if ReasonDiffers(whole, maxLines, maxBytes) then Some(ByLines) else t.truncatedBy)
    && (ReasonDiffers(whole, maxLines, maxBytes) ==> t.truncatedBy == Some(ByBytes))
  }

  /** For every text and every byte limit of at least 4, the bounded
      accumulator reports what truncating the whole text reports. */
  lemma FinishMatchesTruncateTail(whole: string, maxLines: int, maxBytes: nat)
    requires maxBytes >= 4
    ensures Matches(whole, maxLines, maxBytes)
  {
    var i := Cut(whole, 2 * maxBytes);
    var snapshot := SnapshotText(whole, 2 * maxBytes);
    if i == 0 {
      assert snapshot == whole;
    } else {
      var gone, tail := whole[..i], whole[i..];
      assert whole == gone + tail;
      CutWastesLittle(whole, 2 * maxBytes);
      SnapshotReaches(gone, tail, maxBytes);
      if Reaches(snapshot, whole, maxBytes) {
        ReachingSnapshot(snapshot, whole, maxLines, maxBytes);
      } else {
        LongLastLine(gone, tail, maxLines, maxBytes);
      }
    }
  }

  /** For every text and all limits, also below 4: the report has a reason exactly
      when it says truncated, and it says so exactly when the text is over a limit. */
  lemma ReportIsTruncated(whole: string, maxLines: int, maxBytes: nat)
    ensures var report := Report(whole, maxLines, maxBytes);
            && (report.truncated <==> report.truncatedBy.Some?)
            && (report.truncated <==> |Split(whole)| > maxLines || Size(whole) > maxBytes)
  {
    var snapshot := SnapshotText(whole, 2 * maxBytes);
    SnapshotIsSmaller(whole, 2 * maxBytes);
    TruncationContract(snapshot, Tail, maxLines, maxBytes);
    ReportedOver(whole, snapshot, maxLines, maxBytes);
  }

  lemma ReportedOver(whole: string, snapshot: string, maxLines: int, maxBytes: nat)
    requires |Split(snapshot)| <= |Split(whole)| && Size(snapshot) <= Size(whole)
    requires whole == "" ==> snapshot == ""
    ensures var report := WithTotals(Truncated(snapshot, Tail, maxLines, maxBytes), TotalLines(whole), Size(whole));
            && (report.truncated <==> report.truncatedBy.Some?)
            && (report.truncated <==> |Split(whole)| > maxLines || Size(whole) > maxBytes)
  {
    hide Encode, Split, Join, RunSize, KeptFrom;
    if whole == "" {
      assert TotalLines(whole) == 0;
    }
  }

  lemma SnapshotIsSmaller(whole: string, rolling: nat)
    ensures var snapshot := SnapshotText(whole, rolling);
            |Split(snapshot)| <= |Split(whole)| && Size(snapshot) <= Size(whole)
  {
    hide Split, Encode;
    var i := Cut(whole, rolling);
    SuffixIsSmaller(whole, i);
    if !AtLineStart(whole, i) && FirstNewline(whole[i..]) < |whole[i..]| {
      SuffixIsSmaller(whole[i..], FirstNewline(whole[i..]) + 1);
    }
  }

  lemma {:induction false} SuffixIsSmaller(text: string, i: nat)
    requires i <= |text|
    ensures |Split(text[i..])| <= |Split(text)| && Size(text[i..]) <= Size(text)
  {
    if i > 0 {
      SuffixIsSmaller(text[1..], i - 1);
      assert text[1..][i - 1..] == text[i..];
    } else {
      assert text[0..] == text;
    }
  }

  lemma ReachingSnapshot(snapshot: string, whole: string, maxLines: int, maxBytes: nat)
    requires snapshot == SnapshotText(whole, 2 * maxBytes)
    requires Reaches(snapshot, whole, maxBytes) && Size(whole) > maxBytes
    ensures Matches(whole, maxLines, maxBytes)
  {
    if |Split(snapshot)| > maxLines || Size(snapshot) > maxBytes {
      TruncateSuffix(snapshot, whole, maxLines, maxBytes);
    } else {
      SnapshotFits(snapshot, whole, maxLines, maxBytes);
    }
  }

  /** A snapshot that fits is exactly what truncating the whole text keeps. */
  lemma SnapshotFits(snapshot: string, whole: string, maxLines: int, maxBytes: nat)
    requires Reaches(snapshot, whole, maxBytes) && Size(whole) > maxBytes
    requires |Split(snapshot)| <= maxLines && Size(snapshot) <= maxBytes
    ensures var t := Truncated(whole, Tail, maxLines, maxBytes);
            && t.content == snapshot && t.outputLines == |Split(snapshot)| && t.truncated && !t.edgeLineExceedsLimit
            && t.truncatedBy == Some(if |Split(snapshot)| < maxLines then ByBytes else ByLines)
  {
    var lines, k := Split(whole), |Split(snapshot)|;
    JoinSplit(snapshot);
    SizeJoin(Split(snapshot));
    KeptIs(lines, Tail, maxLines, maxBytes, k);
    RunMonotone(lines, Tail, 1, k);
    assert EdgeRun(lines, Tail, 1) == [LineAt(lines, Tail, 0)];
  }

  /** The tail lies inside the last line, which alone is too big. */
  lemma LongLastLine(gone: string, tail: string, maxLines: int, maxBytes: nat)
    requires OneLine(tail) && Size(tail) > maxBytes
    ensures var a := Truncated(tail, Tail, maxLines, maxBytes);
            var b := Truncated(gone + tail, Tail, maxLines, maxBytes);
            SameOutput(a, b) && a.truncatedBy == b.truncatedBy && a.truncatedBy == Some(ByBytes)
  {
    SplitOneLine(tail);
    LastLineCovers(gone, tail);
    SizeSplit(gone + tail, |gone|);
    assert (gone + tail)[|gone|..] == tail;
  }

  // ----- Smaller byte limits -----

  /** `n` one-octet characters. */
  function Filler(n: nat): (text: string)
    ensures |text| == n && OneLine(text)
  {
    if n == 0 then "" else ['a'] + Filler(n - 1)
  }

  lemma {:induction false} FillerSize(n: nat)
    ensures Size(Filler(n)) == n
  {
    if n > 0 {
      FillerSize(n - 1);
      assert Filler(n)[1..] == Filler(n - 1);
    }
  }

  /** Below 4 octets a four-octet character at the start of the line can be cut
      away whole, so that the rest of an overlong line looks like a line that fits. */
  lemma FailsBelowFour(maxLines: int, maxBytes: nat)
    requires maxBytes < 4
    ensures var whole := ['\U{1F600}'] + Filler(maxBytes);
            !SameOutput(Report(whole, maxLines, maxBytes), Truncated(whole, Tail, maxLines, maxBytes))
  {
    var rest := Filler(maxBytes);
    var whole := ['\U{1F600}'] + rest;
    FillerSize(maxBytes);
    assert whole[1..] == rest;
    assert Cut(whole, 2 * maxBytes) == 1;
    assert SnapshotText(whole, 2 * maxBytes) == rest;
    SplitOneLine(rest);
    SplitOneLine(whole);
  }

  /** The bounded accumulator refines whole-text truncation exactly when the
      byte limit is at least 4, whatever the line limit. */
  lemma RefinesExactlyFromFour(maxLines: int, maxBytes: nat)
    ensures (forall whole ::
               SameOutput(Report(whole, maxLines, maxBytes), Truncated(whole, Tail, maxLines, maxBytes)))
            <==> maxBytes >= 4
  {
    if maxBytes >= 4 {
      forall whole
        ensures SameOutput(Report(whole, maxLines, maxBytes), Truncated(whole, Tail, maxLines, maxBytes))
      {
        FinishMatchesTruncateTail(whole, maxLines, maxBytes);
      }
    } else {
      FailsBelowFour(maxLines, maxBytes);
    }
  }
}
