/** Exactly when splicing is right: when no two spans share a start. */
module EditSpliceExact {
  import opened Prelude
  import opened EditSplice

  // ----- Chains in two parts -----

  lemma {:induction false} ChainParts(x: seq<Span>, z: seq<Span>, from: nat, size: nat)
    requires z != [] && Chain(x + z, from, size)
    ensures Chain(x, from, z[0].start) && Chain(z, z[0].start, size)
    decreases |x|
  {
    if x == [] {
      assert x + z == z;
    } else {
      assert (x + z)[1..] == x[1..] + z;
      ChainParts(x[1..], z, x[0].end, size);
    }
  }

  lemma {:induction false} SimultaneousParts(content: string, x: seq<Span>, z: seq<Span>, from: nat, mid: nat)
    requires Chain(x, from, mid) && Chain(z, mid, |content|)
    ensures mid <= |content| && Chain(x + z, from, |content|)
    ensures Simultaneous(content, x + z, from)
         == Simultaneous(content[..mid], x, from) + Simultaneous(content, z, mid)
    decreases |x|
  {
    ChainBounds(z, mid, |content|);
    ChainBounds(x, from, mid);
    if x == [] {
      assert x + z == z;
      SimultaneousFrom(content, z, from, mid);
    } else {
      var tail := x[1..] + z;
      assert (x + z)[1..] == tail && (x + z)[0] == x[0];
      SimultaneousParts(content, x[1..], z, x[0].end, mid);
      var head := content[from..x[0].start] + x[0].replacement;
      assert content[..mid][from..x[0].start] == content[from..x[0].start];
      Associate(head, Simultaneous(content[..mid], x[1..], x[0].end), Simultaneous(content, z, mid));
    }
  }

  lemma ConcatAssociates(a: string, b: string, c: string, d: string)
    ensures (a + b) + c + d == a + (b + c + d)
  {
  }

  /** Starting earlier only adds the gap in between. */
  lemma SimultaneousFrom(content: string, z: seq<Span>, from: nat, mid: nat)
    requires from <= mid && Chain(z, mid, |content|)
    ensures mid <= |content| && Chain(z, from, |content|)
    ensures Simultaneous(content, z, from) == content[..mid][from..] + Simultaneous(content, z, mid)
  {
    ChainBounds(z, mid, |content|);
    if z == [] {
      assert content[from..] == content[..mid][from..] + content[mid..];
    } else {
      var gap, more := content[..mid][from..], content[mid..z[0].start];
      assert content[from..z[0].start] == gap + more;
      ConcatAssociates(gap, more, z[0].replacement, Simultaneous(content, z[1..], z[0].end));
    }
  }

  lemma {:induction false} ChainGrows(x: seq<Span>, from: nat, size: nat, larger: nat)
    requires Chain(x, from, size) && size <= larger
    ensures Chain(x, from, larger)
    decreases |x|
  {
    if x != [] {
      ChainGrows(x[1..], x[0].end, size, larger);
    }
  }

  // ----- What the replacements do to a common start -----

  /** Spans from q on leave everything before q alone. */
  lemma {:induction false} KeepsPrefix(text: string, spans: seq<Span>, q: nat)
    requires q <= |text| && forall s :: s in spans ==> q <= s.start <= s.end
    ensures var r := ReplaceAll(text, spans); q <= |r| && r[..q] == text[..q]
    decreases |spans|
  {
    if spans != [] {
      assert spans[0] in spans;
      var next := Replace(text, spans[0]);
      assert next[..q] == text[..q];
      KeepsPrefix(next, spans[1..], q);
    }
  }

  /** Empty spans with empty replacements change nothing. */
  lemma {:induction false} EmptiesDoNothing(text: string, spans: seq<Span>)
    requires forall s :: s in spans ==> s.start == s.end <= |text| && s.replacement == ""
    ensures ReplaceAll(text, spans) == text
    decreases |spans|
  {
    if spans != [] {
      assert spans[0] in spans;
      assert Replace(text, spans[0]) == text;
      EmptiesDoNothing(text, spans[1..]);
    }
  }

  /** Spans at p: empties with empty replacements, then an empty one that should
      insert x, then one that should put y behind it. */
  predicate InsertsXThenY(here: seq<Span>, p: nat) {
    && |here| >= 2
    && (forall i :: 0 <= i < |here| ==> here[i].start == p)
    && (forall i :: 0 <= i < |here| - 1 ==> here[i].end == p)
    && (forall i :: 0 <= i < |here| - 2 ==> here[i].replacement == "")
    && here[|here| - 2].replacement == "x"
    && here[|here| - 1].replacement == "y"
    && here[|here| - 1].end >= p
  }

  /** Splicing the group puts y first: the x is pushed behind it or eaten. */
  lemma GroupPutsYFirst(text: string, here: seq<Span>, p: nat)
    requires InsertsXThenY(here, p) && p <= |text|
    ensures var r := ReplaceAll(text, here); |r| > p && r[..p] == text[..p] && r[p] == 'y'
  {
    var n := |here| - 2;
    var empties, a, b := here[..n], here[n], here[n + 1];
    assert here == empties + [a, b];
    ReplaceAllConcat(text, empties, [a, b]);
    EmptiesDoNothing(text, empties);
    var once := Replace(text, a);
    assert once[..p] == text[..p];
    assert ReplaceAll(text, [a, b]) == ReplaceAll(once, [b]) == Replace(once, b);
  }

  /** Replacing the group all at once puts x first. */
  lemma {:induction false} GroupShouldPutXFirst(content: string, here: seq<Span>, rest: seq<Span>, p: nat)
    requires InsertsXThenY(here, p) && Chain(here + rest, p, |content|)
    ensures var r := Simultaneous(content, here + rest, p); |r| > 0 && r[0] == 'x'
    decreases |here|
  {
    ChainBounds(here + rest, p, |content|);
    assert (here + rest)[0] == here[0];
    if |here| > 2 {
      assert (here + rest)[1..] == here[1..] + rest;
      GroupShouldPutXFirst(content, here[1..], rest, p);
    }
  }

  // ----- The failure -----

  lemma GroupBreaks(content: string, spans: seq<Span>, p: nat)
    requires InBounds(spans, |content|) && Validated(spans)
    requires InsertsXThenY(Pick(spans, p, Here), p)
    requires DistinctStarts(Pick(spans, p, Before))
    ensures !SplicesRight(content, spans)
  {
    var before, here, after := SortUp(Pick(spans, p, Before)), Pick(spans, p, Here), SortUp(Pick(spans, p, After));
    ValidatedIsChain(spans, |content|);
    PartitionUp(spans, p);
    ChainParts(before, here + after, 0, |content|);
    SimultaneousParts(content, before, here + after, 0, p);
    ChainBounds(here + after, p, |content|);
    GroupShouldPutXFirst(content, here, after, p);
    var expected := Simultaneous(content[..p], before, 0);

    var result := SplicedGroup(content, spans, p);
    assert result[..|expected|] == expected && result[|expected|] == 'y';
  }

  /** Splicing gives the right text before the group, and then y. */
  lemma SplicedGroup(content: string, spans: seq<Span>, p: nat) returns (result: string)
    requires InBounds(spans, |content|) && Validated(spans)
    requires InsertsXThenY(Pick(spans, p, Here), p)
    requires DistinctStarts(Pick(spans, p, Before))
    ensures p <= |content| && Chain(SortUp(Pick(spans, p, Before)), 0, p)
    ensures result == ReplaceAll(content, SortDown(spans))
    ensures var expected := Simultaneous(content[..p], SortUp(Pick(spans, p, Before)), 0);
            |expected| < |result| && result[..|expected|] == expected && result[|expected|] == 'y'
  {
    var before, here, after := Pick(spans, p, Before), Pick(spans, p, Here), Pick(spans, p, After);
    ValidatedIsChain(spans, |content|);
    PartitionUp(spans, p);
    PartitionDown(spans, p);
    ChainParts(SortUp(before), here + SortUp(after), 0, |content|);
    ChainBounds(here + SortUp(after), p, |content|);
    SameElementsDown(after);
    PickElements(spans, p, After);

    var one := ReplaceAll(content, SortDown(after));
    KeepsPrefix(content, SortDown(after), p);
    var two := ReplaceAll(one, here);
    GroupPutsYFirst(one, here, p);
    assert two[..p] == content[..p];
    result := ReplaceAll(two, SortDown(before));
    ReplaceAllConcat(content, SortDown(after), here + SortDown(before));
    ReplaceAllConcat(one, here, SortDown(before));

    SortsMirror(before);
    ChainGrows(SortUp(before), 0, p, |two|);
    BackwardsIsSimultaneous(two, SortUp(before), 0);
    SimultaneousParts(two, SortUp(before), [], 0, p);
    assert SortUp(before) + [] == SortUp(before);
    assert result == Simultaneous(content[..p], SortUp(before), 0) + two[p..];
  }

  // ----- Choosing replacements -----

  function Filled(s: Span, text: nat -> string): Span {
    s.(replacement := text(s.editIndex))
  }

  /** The same spans with other replacements, chosen by edit. */
  function Fill(spans: seq<Span>, text: nat -> string): (r: seq<Span>)
    ensures |r| == |spans| && forall i :: 0 <= i < |spans| ==> r[i] == Filled(spans[i], text)
  {
    if spans == [] then [] else [Filled(spans[0], text)] + Fill(spans[1..], text)
  }

  lemma {:induction false} FillInsert(s: Span, sorted: seq<Span>, text: nat -> string)
    ensures InsertUp(Filled(s, text), Fill(sorted, text)) == Fill(InsertUp(s, sorted), text)
  {
    if sorted != [] {
      FillInsert(s, sorted[1..], text);
      assert Fill(sorted, text)[1..] == Fill(sorted[1..], text);
      assert InsertUp(s, sorted)[1..] == if s.start <= sorted[0].start then sorted else InsertUp(s, sorted[1..]);
    } else {
      assert Fill([s], text) == [Filled(s, text)];
    }
  }

  lemma {:induction false} FillSort(spans: seq<Span>, text: nat -> string)
    ensures SortUp(Fill(spans, text)) == Fill(SortUp(spans), text)
  {
    if spans != [] {
      FillSort(spans[1..], text);
      FillInsert(spans[0], SortUp(spans[1..]), text);
      assert Fill(spans, text)[1..] == Fill(spans[1..], text);
    }
  }

  lemma {:induction false} FillOverlap(sorted: seq<Span>, text: nat -> string)
    ensures FirstOverlap(Fill(sorted, text)) == FirstOverlap(sorted)
  {
    if |sorted| >= 2 {
      assert Fill(sorted, text)[1..] == Fill(sorted[1..], text);
      FillOverlap(sorted[1..], text);
    }
  }

  lemma {:induction false} FillPick(spans: seq<Span>, p: nat, side: Side, text: nat -> string)
    ensures Pick(Fill(spans, text), p, side) == Fill(Pick(spans, p, side), text)
  {
    if spans != [] {
      assert Fill(spans, text)[1..] == Fill(spans[1..], text);
      FillPick(spans[1..], p, side, text);
      assert ([spans[0]] + Pick(spans[1..], p, side))[1..] == Pick(spans[1..], p, side);
    }
  }

  lemma FillSound(spans: seq<Span>, size: nat, text: nat -> string)
    requires InBounds(spans, size) && Validated(spans)
    ensures InBounds(Fill(spans, text), size) && Validated(Fill(spans, text))
    ensures DistinctStarts(Fill(spans, text)) <==> DistinctStarts(spans)
  {
    FillSort(spans, text);
    FillOverlap(SortUp(spans), text);
    forall s | s in Fill(spans, text)
      ensures s.start <= s.end <= size
    {
      var i :| 0 <= i < |spans| && Fill(spans, text)[i] == s;
      assert spans[i] in spans;
    }
    if DistinctStarts(Fill(spans, text)) {
      forall i, j | 0 <= i < j < |spans|
        ensures spans[i].start != spans[j].start
      {
        assert Fill(spans, text)[i].start != Fill(spans, text)[j].start;
      }
    }
  }

  /** The matchers number the spans in the order of the edits. */
  predicate Numbered(spans: seq<Span>) {
    forall i, j :: 0 <= i < j < |spans| ==> spans[i].editIndex < spans[j].editIndex
  }

  lemma {:induction false} PickNumbered(spans: seq<Span>, p: nat, side: Side)
    requires Numbered(spans)
    ensures Numbered(Pick(spans, p, side))
  {
    if spans != [] {
      var rest := Pick(spans[1..], p, side);
      PickNumbered(spans[1..], p, side);
      PickElements(spans[1..], p, side);
      forall j | 0 <= j < |rest|
        ensures spans[0].editIndex < rest[j].editIndex
      {
        assert rest[j] in rest;
        var k :| 0 <= k < |spans[1..]| && spans[1..][k] == rest[j];
        assert rest[j] == spans[k + 1];
      }
    }
  }

  lemma HereAreEmpty(spans: seq<Span>, p: nat, size: nat)
    requires InBounds(spans, size) && Validated(spans)
    ensures var here := Pick(spans, p, Here);
            && (forall i :: 0 <= i < |here| ==> here[i].start == p <= here[i].end)
            && forall i :: 0 <= i < |here| - 1 ==> here[i].end == p
  {
    hide SortUp, Pick;
    var here := Pick(spans, p, Here);
    ValidatedIsChain(spans, size);
    PartitionUp(spans, p);
    PickElements(spans, p, Here);
    ChainOrders(SortUp(spans), 0, size);
    var offset := |SortUp(Pick(spans, p, Before))|;
    forall i | 0 <= i < |here|
      ensures here[i].start == p <= here[i].end
      ensures i + 1 < |here| ==> here[i].end == p
    {
      assert here[i] in spans;
      assert SortUp(spans)[offset + i] == here[i];
      assert i + 1 < |here| ==> SortUp(spans)[offset + i + 1] == here[i + 1];
    }
  }

  /** Replacements that show the failure: x and y for the last two spans of a group. */
  function Telltale(here: seq<Span>): nat -> string
    requires |here| >= 2
  {
    (i: nat) =>
      if i == here[|here| - 2].editIndex then "x"
      else if i == here[|here| - 1].editIndex then "y"
      else ""
  }

  lemma TelltaleInserts(here: seq<Span>, p: nat)
    requires |here| >= 2 && Numbered(here)
    requires forall i :: 0 <= i < |here| ==> here[i].start == p <= here[i].end
    requires forall i :: 0 <= i < |here| - 1 ==> here[i].end == p
    ensures InsertsXThenY(Fill(here, Telltale(here)), p)
  {
    hide Fill;
    var filled, n := Fill(here, Telltale(here)), |here|;
    forall i | 0 <= i < n
      ensures filled[i].start == here[i].start && filled[i].end == here[i].end
      ensures filled[i].replacement == if i == n - 2 then "x" else if i == n - 1 then "y" else ""
    {
      TelltaleAt(here, i);
      assert filled[i] == Filled(here[i], Telltale(here));
    }
  }

  lemma TelltaleAt(here: seq<Span>, i: nat)
    requires |here| >= 2 && Numbered(here) && i < |here|
    ensures Telltale(here)(here[i].editIndex)
         == if i == |here| - 2 then "x" else if i == |here| - 1 then "y" else ""
  {
  }

  lemma SharedStartBreaks(content: string, spans: seq<Span>, p: nat)
    requires InBounds(spans, |content|) && Validated(spans) && Numbered(spans)
    requires |Pick(spans, p, Here)| >= 2 && DistinctStarts(Pick(spans, p, Before))
    ensures !SplicesRight(content, Fill(spans, Telltale(Pick(spans, p, Here))))
  {
    var text := Telltale(Pick(spans, p, Here));
    PickNumbered(spans, p, Here);
    HereAreEmpty(spans, p, |content|);
    TelltaleInserts(Pick(spans, p, Here), p);
    FillPick(spans, p, Here, text);
    FillPick(spans, p, Before, text);
    FillSound(spans, |content|, text);
    DistinctFill(Pick(spans, p, Before), text);
    GroupBreaks(content, Fill(spans, text), p);
  }

  lemma DistinctFill(spans: seq<Span>, text: nat -> string)
    requires DistinctStarts(spans)
    ensures DistinctStarts(Fill(spans, text))
  {
  }

  /** If starts are shared at all, there is a first shared start. */
  lemma {:induction false} FirstShared(spans: seq<Span>, bound: nat) returns (p: nat)
    requires exists q :: 0 <= q < bound && |Pick(spans, q, Here)| >= 2
    ensures |Pick(spans, p, Here)| >= 2
    ensures forall q :: 0 <= q < p ==> |Pick(spans, q, Here)| < 2
    decreases bound
  {
    if exists q :: 0 <= q < bound - 1 && |Pick(spans, q, Here)| >= 2 {
      p := FirstShared(spans, bound - 1);
    } else {
      p := bound - 1;
    }
  }

  lemma DistinctBefore(spans: seq<Span>, p: nat)
    requires forall q :: 0 <= q < p ==> |Pick(spans, q, Here)| < 2
    ensures DistinctStarts(Pick(spans, p, Before))
  {
    var before := Pick(spans, p, Before);
    PickElements(spans, p, Before);
    forall i, j | 0 <= i < j < |before|
      ensures before[i].start != before[j].start
    {
      if before[i].start == before[j].start {
        var q := before[i].start;
        assert before[i] in before;
        TwoPicked(before, i, j);
        PickTwice(spans, q, p);
      }
    }
  }

  lemma {:induction false} PickTwice(spans: seq<Span>, q: nat, p: nat)
    requires q < p
    ensures Pick(Pick(spans, p, Before), q, Here) == Pick(spans, q, Here)
  {
    if spans != [] {
      PickTwice(spans[1..], q, p);
      assert ([spans[0]] + Pick(spans[1..], p, Before))[1..] == Pick(spans[1..], p, Before);
    }
  }

  /** Splicing validated spans is right for every choice of replacements exactly
      when no two spans share a start. */
  lemma SpliceRightExactlyWhenDistinct(content: string, spans: seq<Span>)
    requires InBounds(spans, |content|) && Validated(spans) && Numbered(spans)
    ensures (forall text: nat -> string :: SplicesRight(content, Fill(spans, text))) <==> DistinctStarts(spans)
  {
    if DistinctStarts(spans) {
      forall text: nat -> string
        ensures SplicesRight(content, Fill(spans, text))
      {
        FillSound(spans, |content|, text);
        SpliceIsSimultaneous(content, Fill(spans, text));
      }
    } else {
      var i, j :| 0 <= i < j < |spans| && spans[i].start == spans[j].start;
      TwoPicked(spans, i, j);
      var p := FirstShared(spans, spans[i].start + 1);
      DistinctBefore(spans, p);
      SharedStartBreaks(content, spans, p);
    }
  }
}
