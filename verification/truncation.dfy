/** Keeping one edge of a text within a line limit and a byte limit. */
module OutputTruncation {
  import opened Prelude
  import opened Text

  datatype Keep = Head | Tail

  datatype Reason = ByLines | ByBytes

  datatype Truncation = Truncation(
    content: string,
    truncated: bool,
    truncatedBy: Option<Reason>,
    keep: Keep,
    totalLines: int,
    totalBytes: int,
    outputLines: int,
    outputBytes: int,
    edgeLineExceedsLimit: bool,
    maxLines: int,
    maxBytes: int)

  // ----- Runs of complete lines at an edge -----

  /** UTF-8 size of the lines joined by newlines. */
  function RunSize(lines: seq<string>): nat {
    if |lines| == 0 then 0
    else if |lines| == 1 then Size(lines[0])
    else Size(lines[0]) + 1 + RunSize(lines[1..])
  }

  /** The k lines nearest to the kept edge, in text order. */
  function EdgeRun(lines: seq<string>, keep: Keep, k: nat): (run: seq<string>)
    requires k <= |lines|
    ensures |run| == k
  {
    if keep == Head then lines[..k] else lines[|lines| - k..]
  }

  /** The line reached after k lines when walking inwards from the kept edge. */
  function LineAt(lines: seq<string>, keep: Keep, k: nat): string
    requires k < |lines|
  {
    if keep == Head then lines[k] else lines[|lines| - 1 - k]
  }

  /** Do the k edge lines respect both limits? */
  predicate Fits(lines: seq<string>, keep: Keep, maxLines: int, maxBytes: int, k: nat)
    requires k <= |lines|
  {
    k <= maxLines && RunSize(EdgeRun(lines, keep, k)) <= maxBytes
  }

  function KeptFrom(lines: seq<string>, keep: Keep, maxLines: int, maxBytes: int, k: nat): (n: nat)
    requires k <= |lines|
    ensures k <= n <= |lines|
    decreases |lines| - k
  {
    if k < |lines| && Fits(lines, keep, maxLines, maxBytes, k + 1)
    then KeptFrom(lines, keep, maxLines, maxBytes, k + 1)
    else k
  }

  /** How many edge lines are kept. */
  function KeptCount(lines: seq<string>, keep: Keep, maxLines: int, maxBytes: int): (n: nat)
    ensures n <= |lines|
  {
    KeptFrom(lines, keep, maxLines, maxBytes, 0)
  }

  /** Why selection stopped after k lines. */
  function StopReason(lines: seq<string>, maxLines: int, k: nat): Reason {
    if k < maxLines && k < |lines| then ByBytes else ByLines
  }

  function Truncated(text: string, keep: Keep, maxLines: int, maxBytes: int): Truncation {
    TruncatedLines(text, Split(text), keep, maxLines, maxBytes)
  }

  function TruncatedLines(text: string, lines: seq<string>, keep: Keep, maxLines: int, maxBytes: int): Truncation
    requires lines != []
  {
    var total, bytes := |lines|, Size(text);
    if total <= maxLines && bytes <= maxBytes then
      Truncation(text, false, None, keep, total, bytes, total, bytes, false, maxLines, maxBytes)
    else if Size(LineAt(lines, keep, 0)) > maxBytes then
      Truncation("", true, Some(ByBytes), keep, total, bytes, 0, 0, true, maxLines, maxBytes)
    else Selected(text, lines, keep, maxLines, maxBytes, KeptCount(lines, keep, maxLines, maxBytes))
  }

  /** The result that keeps k edge lines. */
  function Selected(text: string, lines: seq<string>, keep: Keep, maxLines: int, maxBytes: int, k: nat): Truncation
    requires k <= |lines|
  {
    var content := Join(EdgeRun(lines, keep, k));
    Truncation(content, true, Some(StopReason(lines, maxLines, k)), keep, |lines|, Size(text),
               k, Size(content), false, maxLines, maxBytes)
  }

  // ----- The loops -----

  function Reverse<T>(s: seq<T>): (r: seq<T>)
    ensures |r| == |s|
  {
    if s == [] then [] else Reverse(s[1..]) + [s[0]]
  }

  lemma {:induction false} ReverseAppend<T>(s: seq<T>, x: T)
    ensures Reverse(s + [x]) == [x] + Reverse(s)
  {
    if s == [] {
      assert s + [x] == [x];
    } else {
      assert (s + [x])[1..] == s[1..] + [x];
      ReverseAppend(s[1..], x);
    }
  }

  lemma {:induction false} ReverseTwice<T>(s: seq<T>)
    ensures Reverse(Reverse(s)) == s
  {
    if s != [] {
      ReverseAppend(Reverse(s[1..]), s[0]);
      ReverseTwice(s[1..]);
    }
  }

  /** A run in the order in which the loop meets its lines. */
  function InWalkOrder(run: seq<string>, keep: Keep): seq<string> {
    if keep == Head then run else Reverse(run)
  }

  lemma WalkOrderGrows(lines: seq<string>, keep: Keep, k: nat)
    requires k < |lines|
    ensures InWalkOrder(EdgeRun(lines, keep, k + 1), keep)
         == InWalkOrder(EdgeRun(lines, keep, k), keep) + [LineAt(lines, keep, k)]
  {
    if keep == Tail {
      var run := EdgeRun(lines, keep, k + 1);
      assert run[1..] == EdgeRun(lines, keep, k);
    }
  }

  method SelectOutputLines(lines: seq<string>, keep: Keep, maxLines: int, maxBytes: int)
    returns (outputLines: seq<string>, truncatedBy: Reason)
    ensures var k := KeptCount(lines, keep, maxLines, maxBytes);
            outputLines == EdgeRun(lines, keep, k) && truncatedBy == StopReason(lines, maxLines, k)
  {
    outputLines, truncatedBy := [], ByLines;
    var outputBytes := 0;
    var k := 0;
    while k < |lines|
      invariant k == |outputLines| <= |lines|
      invariant outputLines == InWalkOrder(EdgeRun(lines, keep, k), keep)
      invariant outputBytes == RunSize(EdgeRun(lines, keep, k))
      invariant KeptFrom(lines, keep, maxLines, maxBytes, k) == KeptCount(lines, keep, maxLines, maxBytes)
      invariant truncatedBy == ByLines
    {
      if |outputLines| >= maxLines {
        break;
      }
      var line := LineAt(lines, keep, k);
      var separatorBytes := if outputLines != [] then 1 else 0;
      SelectionStep(lines, keep, maxLines, maxBytes, k);
      if outputBytes + separatorBytes + Size(line) > maxBytes {
        truncatedBy := ByBytes;
        break;
      }
      outputLines := outputLines + [line];
      outputBytes := outputBytes + separatorBytes + Size(line);
      k := k + 1;
    }
    if k == |lines| || |outputLines| >= maxLines {
      SelectionEnds(lines, keep, maxLines, maxBytes, k);
    }
    if keep == Tail {
      ReverseTwice(EdgeRun(lines, keep, k));
      outputLines := Reverse(outputLines);
    }
  }

  lemma SelectionEnds(lines: seq<string>, keep: Keep, maxLines: int, maxBytes: int, k: nat)
    requires k <= |lines| && (k == |lines| || k >= maxLines)
    ensures KeptFrom(lines, keep, maxLines, maxBytes, k) == k
  {
  }

  /** One more line: when it is selected, and what is selected then. */
  lemma SelectionStep(lines: seq<string>, keep: Keep, maxLines: int, maxBytes: int, k: nat)
    requires k < |lines| && k < maxLines
    ensures InWalkOrder(EdgeRun(lines, keep, k + 1), keep)
         == InWalkOrder(EdgeRun(lines, keep, k), keep) + [LineAt(lines, keep, k)]
    ensures var bytes := RunSize(EdgeRun(lines, keep, k)) + (if k > 0 then 1 else 0) + Size(LineAt(lines, keep, k));
            && RunSize(EdgeRun(lines, keep, k + 1)) == bytes
            && KeptFrom(lines, keep, maxLines, maxBytes, k)
               == if bytes <= maxBytes then KeptFrom(lines, keep, maxLines, maxBytes, k + 1) else k
  {
    RunGrows(lines, keep, k);
    WalkOrderGrows(lines, keep, k);
  }

  method TruncateText(text: string, keep: Keep, maxLines: int, maxBytes: int) returns (r: Truncation)
    ensures r == Truncated(text, keep, maxLines, maxBytes)
  {
    var lines := Split(text);
    if |lines| <= maxLines && Size(text) <= maxBytes {
      return Truncation(text, false, None, keep, |lines|, Size(text), |lines|, Size(text), false, maxLines, maxBytes);
    }
    if Size(LineAt(lines, keep, 0)) > maxBytes {
      return Truncation("", true, Some(ByBytes), keep, |lines|, Size(text), 0, 0, true, maxLines, maxBytes);
    }
    var outputLines, truncatedBy := SelectOutputLines(lines, keep, maxLines, maxBytes);
    var content := Join(outputLines);
    r := Truncation(content, true, Some(truncatedBy), keep, |lines|, Size(text), |outputLines|, Size(content),
                    false, maxLines, maxBytes);
  }

  /** The leading complete lines within a byte limit, and whether any were dropped. */
  function ByteLimited(text: string, byteLimit: int): (string, bool) {
    if Size(text) <= byteLimit then (text, false)
    else
      var lines := Split(text);
      (Join(lines[..KeptCount(lines, Head, |lines|, byteLimit)]), true)
  }

  method TruncateToByteLimit(text: string, byteLimit: int) returns (content: string, dropped: bool)
    ensures (content, dropped) == ByteLimited(text, byteLimit)
  {
    if Size(text) <= byteLimit {
      return text, false;
    }
    var lines := Split(text);
    var outputLines: seq<string> := [];
    var outputBytes := 0;
    var k := 0;
    while k < |lines|
      invariant k <= |lines| && outputLines == EdgeRun(lines, Head, k)
      invariant outputBytes == RunSize(EdgeRun(lines, Head, k))
      invariant KeptFrom(lines, Head, |lines|, byteLimit, k) == KeptCount(lines, Head, |lines|, byteLimit)
    {
      var separatorBytes := if outputLines != [] then 1 else 0;
      RunGrows(lines, Head, k);
      if outputBytes + separatorBytes + Size(lines[k]) > byteLimit {
        break;
      }
      WalkOrderGrows(lines, Head, k);
      outputLines := outputLines + [lines[k]];
      outputBytes := outputBytes + separatorBytes + Size(lines[k]);
      k := k + 1;
    }
    return Join(outputLines), true;
  }

  // ----- Sizes of runs -----

  lemma {:induction false} SizeJoin(lines: seq<string>)
    ensures Size(Join(lines)) == RunSize(lines)
  {
    if |lines| > 1 {
      SizeJoin(lines[1..]);
      EncodeConcat(lines[0] + "\n", Join(lines[1..]));
      EncodeConcat(lines[0], "\n");
      EncodeOne('\n');
    }
  }

  lemma {:induction false} RunSizeConcat(a: seq<string>, b: seq<string>)
    requires |a| >= 1 && |b| >= 1
    ensures RunSize(a + b) == RunSize(a) + 1 + RunSize(b)
  {
    if |a| == 1 {
      assert (a + b)[1..] == b;
    } else {
      RunSizeConcat(a[1..], b);
      assert (a + b)[1..] == a[1..] + b;
    }
  }

  lemma RunGrows(lines: seq<string>, keep: Keep, k: nat)
    requires k < |lines|
    ensures RunSize(EdgeRun(lines, keep, k + 1))
         == RunSize(EdgeRun(lines, keep, k)) + (if k > 0 then 1 else 0) + Size(LineAt(lines, keep, k))
  {
    var run, line := EdgeRun(lines, keep, k), [LineAt(lines, keep, k)];
    assert EdgeRun(lines, keep, k + 1) == if keep == Head then run + line else line + run;
    if k > 0 {
      if keep == Head { RunSizeConcat(run, line); } else { RunSizeConcat(line, run); }
    } else {
      assert run + line == line && line + run == line;
    }
  }

  lemma {:induction false} RunMonotone(lines: seq<string>, keep: Keep, j: nat, k: nat)
    requires j <= k <= |lines|
    ensures RunSize(EdgeRun(lines, keep, j)) <= RunSize(EdgeRun(lines, keep, k))
    decreases k - j
  {
    if j < k {
      RunGrows(lines, keep, j);
      RunMonotone(lines, keep, j + 1, k);
    }
  }

  // ----- What truncation promises -----

  /** The kept run is the longest one at the edge that respects both limits. */
  lemma KeptIsLongest(lines: seq<string>, keep: Keep, maxLines: int, maxBytes: int)
    ensures var k := KeptCount(lines, keep, maxLines, maxBytes);
            && (k == 0 || Fits(lines, keep, maxLines, maxBytes, k))
            && forall j :: k < j <= |lines| ==> !Fits(lines, keep, maxLines, maxBytes, j)
  {
    KeptFromIsLongest(lines, keep, maxLines, maxBytes, 0);
  }

  lemma {:induction false} KeptFromIsLongest(lines: seq<string>, keep: Keep, maxLines: int, maxBytes: int, k: nat)
    requires k <= |lines| && (k == 0 || Fits(lines, keep, maxLines, maxBytes, k))
    ensures var n := KeptFrom(lines, keep, maxLines, maxBytes, k);
            && (n == 0 || Fits(lines, keep, maxLines, maxBytes, n))
            && forall j :: n < j <= |lines| ==> !Fits(lines, keep, maxLines, maxBytes, j)
    decreases |lines| - k
  {
    if k < |lines| && Fits(lines, keep, maxLines, maxBytes, k + 1) {
      KeptFromIsLongest(lines, keep, maxLines, maxBytes, k + 1);
    } else {
      forall j | k < j <= |lines|
        ensures !Fits(lines, keep, maxLines, maxBytes, j)
      {
        if Fits(lines, keep, maxLines, maxBytes, j) {
          FitsShorter(lines, keep, maxLines, maxBytes, k + 1, j);
        }
      }
    }
  }

  /** A run that fits and cannot be extended is the kept run. */
  lemma KeptIs(lines: seq<string>, keep: Keep, maxLines: int, maxBytes: int, k: nat)
    requires k <= |lines|
    requires k == 0 || Fits(lines, keep, maxLines, maxBytes, k)
    requires k == |lines| || !Fits(lines, keep, maxLines, maxBytes, k + 1)
    ensures KeptCount(lines, keep, maxLines, maxBytes) == k
  {
    KeptIsLongest(lines, keep, maxLines, maxBytes);
    var n := KeptCount(lines, keep, maxLines, maxBytes);
    if k < n {
      FitsShorter(lines, keep, maxLines, maxBytes, k + 1, n);
    }
  }

  lemma FitsShorter(lines: seq<string>, keep: Keep, maxLines: int, maxBytes: int, j: nat, k: nat)
    requires j <= k <= |lines| && Fits(lines, keep, maxLines, maxBytes, k)
    ensures Fits(lines, keep, maxLines, maxBytes, j)
  {
    RunMonotone(lines, keep, j, k);
  }

  /** Joining newline-free lines loses nothing. */
  lemma JoinInjective(a: seq<string>, b: seq<string>)
    requires |a| >= 1 && |b| >= 1
    requires AllOneLine(a) && AllOneLine(b)
    requires Join(a) == Join(b)
    ensures a == b
  {
    SplitJoin(a);
    SplitJoin(b);
  }

  /** What truncation promises of its result.

      The kept content is the longest run of complete lines at the edge within
      both limits, or nothing when the edge line alone is too big. Reason
      "lines" means that exactly the allowed number of lines was kept; reason
      "bytes" means that the next line would overflow the byte limit. */
  predicate MeetsContract(t: Truncation, lines: seq<string>, keep: Keep, maxLines: int, maxBytes: int)
    requires lines != []
  {
    && t.keep == keep && t.maxLines == maxLines && t.maxBytes == maxBytes
    && t.totalLines == |lines| && t.totalBytes == RunSize(lines)
    && (t.truncated <==> t.truncatedBy.Some?)
    && 0 <= t.outputLines <= |lines|
    && t.content == Join(EdgeRun(lines, keep, t.outputLines))
    && t.outputBytes == Size(t.content)
    && (t.outputLines > 0 ==> t.outputLines <= maxLines && t.outputBytes <= maxBytes)
    && (forall j :: t.outputLines < j <= |lines| ==> !Fits(lines, keep, maxLines, maxBytes, j))
    && (t.edgeLineExceedsLimit <==> Size(LineAt(lines, keep, 0)) > maxBytes)
    && (t.edgeLineExceedsLimit ==> t.content == "")
    && (t.truncatedBy == Some(ByLines) ==> t.outputLines == if maxLines > 0 then maxLines else 0)
    && (t.truncatedBy == Some(ByBytes) ==>
          t.outputLines < |lines| && RunSize(EdgeRun(lines, keep, t.outputLines + 1)) > maxBytes)
  }

  /** The contract of truncation, for every text and all limits. */
  lemma TruncationContract(text: string, keep: Keep, maxLines: int, maxBytes: int)
    ensures MeetsContract(Truncated(text, keep, maxLines, maxBytes), Split(text), keep, maxLines, maxBytes)
  {
    JoinSplit(text);
    SizeJoin(Split(text));
    LinesContract(text, Split(text), keep, maxLines, maxBytes);
  }

  lemma LinesContract(text: string, lines: seq<string>, keep: Keep, maxLines: int, maxBytes: int)
    requires lines != [] && Join(lines) == text && Size(text) == RunSize(lines)
    ensures MeetsContract(TruncatedLines(text, lines, keep, maxLines, maxBytes), lines, keep, maxLines, maxBytes)
  {
    assert EdgeRun(lines, keep, |lines|) == lines;
    if |lines| <= maxLines && Size(text) <= maxBytes {
      WholeContract(text, lines, keep, maxLines, maxBytes);
    } else if Size(LineAt(lines, keep, 0)) > maxBytes {
      NothingFits(lines, keep, maxLines, maxBytes);
    } else {
      var k := KeptCount(lines, keep, maxLines, maxBytes);
      SizeJoin(EdgeRun(lines, keep, k));
      KeptIsLongest(lines, keep, maxLines, maxBytes);
      SelectedContract(text, lines, keep, maxLines, maxBytes, k);
    }
  }

  lemma WholeContract(text: string, lines: seq<string>, keep: Keep, maxLines: int, maxBytes: int)
    requires lines != [] && Join(lines) == text && EdgeRun(lines, keep, |lines|) == lines
    requires Size(text) == RunSize(lines) && |lines| <= maxLines && Size(text) <= maxBytes
    ensures MeetsContract(TruncatedLines(text, lines, keep, maxLines, maxBytes), lines, keep, maxLines, maxBytes)
  {
    EdgeRunOfOne(lines, keep);
    RunMonotone(lines, keep, 1, |lines|);
  }

  lemma NothingFits(lines: seq<string>, keep: Keep, maxLines: int, maxBytes: int)
    requires lines != [] && Size(LineAt(lines, keep, 0)) > maxBytes
    ensures forall j :: 0 < j <= |lines| ==> !Fits(lines, keep, maxLines, maxBytes, j)
    ensures Join(EdgeRun(lines, keep, 0)) == "" && RunSize(EdgeRun(lines, keep, 1)) > maxBytes
  {
    EdgeRunOfOne(lines, keep);
    forall j | 0 < j <= |lines|
      ensures !Fits(lines, keep, maxLines, maxBytes, j)
    {
      RunMonotone(lines, keep, 1, j);
    }
  }

  lemma EdgeRunOfOne(lines: seq<string>, keep: Keep)
    requires lines != []
    ensures EdgeRun(lines, keep, 1) == [LineAt(lines, keep, 0)]
    ensures RunSize(EdgeRun(lines, keep, 1)) == Size(LineAt(lines, keep, 0))
  {
  }

  lemma SelectedContract(text: string, lines: seq<string>, keep: Keep, maxLines: int, maxBytes: int, k: nat)
    requires 0 < |lines| && Size(LineAt(lines, keep, 0)) <= maxBytes && k <= |lines|
    requires !Fits(lines, keep, maxLines, maxBytes, |lines|)
    requires k == 0 || Fits(lines, keep, maxLines, maxBytes, k)
    requires forall j :: k < j <= |lines| ==> !Fits(lines, keep, maxLines, maxBytes, j)
    requires Size(Join(EdgeRun(lines, keep, k))) == RunSize(EdgeRun(lines, keep, k))
    requires Size(text) == RunSize(lines)
    ensures MeetsContract(Selected(text, lines, keep, maxLines, maxBytes, k), lines, keep, maxLines, maxBytes)
  {
    hide Encode, RunSize, Join, Fits, EdgeRun;
    FitsIs(lines, keep, maxLines, maxBytes, k);
    FitsIs(lines, keep, maxLines, maxBytes, |lines|);
    if k < |lines| {
      FitsIs(lines, keep, maxLines, maxBytes, k + 1);
      assert !Fits(lines, keep, maxLines, maxBytes, k + 1);
    }
  }

  lemma FitsIs(lines: seq<string>, keep: Keep, maxLines: int, maxBytes: int, k: nat)
    requires k <= |lines|
    ensures Fits(lines, keep, maxLines, maxBytes, k) <==> k <= maxLines && RunSize(EdgeRun(lines, keep, k)) <= maxBytes
  {
  }

  /** Truncated says "the content is not the text", with one exception: an
      empty text that a limit below 1 line or below 0 bytes rejects. */
  lemma TruncatedMeansDifferent(text: string, keep: Keep, maxLines: int, maxBytes: int)
    ensures var t := Truncated(text, keep, maxLines, maxBytes);
            t.truncated <==> (t.content != text || (text == "" && (maxLines < 1 || maxBytes < 0)))
  {
    var t := Truncated(text, keep, maxLines, maxBytes);
    TruncationContract(text, keep, maxLines, maxBytes);
    JoinSplit(text);
    SizeJoin(Split(text));
    if t.truncated && t.content == text && t.outputLines > 0 {
      SameTextAllLines(text, keep, t.outputLines);
    }
  }

  /** Only all the lines together give the text. */
  lemma SameTextAllLines(text: string, keep: Keep, k: nat)
    requires 0 < k <= |Split(text)| && Join(EdgeRun(Split(text), keep, k)) == text
    ensures k == |Split(text)|
  {
    JoinSplit(text);
    SplitLines(text);
    JoinInjective(EdgeRun(Split(text), keep, k), Split(text));
  }

  /** The byte-limited text is the longest proper prefix of complete lines
      within the limit, and nothing is dropped exactly when the whole text fits. */
  lemma ByteLimitedIsLongest(text: string, byteLimit: int)
    ensures var (content, dropped) := ByteLimited(text, byteLimit);
            && (dropped <==> Size(text) > byteLimit)
            && (!dropped ==> content == text)
            && (dropped ==>
                  exists k: nat ::
                    && k < |Split(text)| && content == Join(Split(text)[..k])
                    && (k == 0 || Size(content) <= byteLimit)
                    && forall j :: k < j <= |Split(text)| ==> Size(Join(Split(text)[..j])) > byteLimit)
  {
    var lines := Split(text);
    if Size(text) > byteLimit {
      JoinSplit(text);
      KeptIsLongest(lines, Head, |lines|, byteLimit);
      var k := KeptCount(lines, Head, |lines|, byteLimit);
      assert k < |lines| by {
        assert EdgeRun(lines, Head, |lines|) == lines;
        SizeJoin(lines);
      }
      SizeJoin(lines[..k]);
      forall j | k < j <= |lines|
        ensures Size(Join(lines[..j])) > byteLimit
      {
        SizeJoin(lines[..j]);
        assert !Fits(lines, Head, |lines|, byteLimit, j);
      }
      assert k == 0 || Fits(lines, Head, |lines|, byteLimit, k);
    }
  }
}
