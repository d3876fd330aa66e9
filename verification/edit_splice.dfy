/** Replacing validated spans of a text. */
module EditSplice {
  import opened Prelude

  /** Characters start..end of the original text, to be replaced. */
  datatype Span = Span(editIndex: nat, start: nat, end: nat, replacement: string)

  predicate InBounds(spans: seq<Span>, size: nat) {
    forall s :: s in spans ==> s.start <= s.end <= size
  }

  // ----- Sorting by start, stable in both directions -----

  function InsertUp(s: Span, sorted: seq<Span>): seq<Span> {
    if sorted == [] then [s]
    else if s.start <= sorted[0].start then [s] + sorted
    else [sorted[0]] + InsertUp(s, sorted[1..])
  }

  /** `sorted(spans, key=start)` */
  function SortUp(spans: seq<Span>): seq<Span> {
    if spans == [] then [] else InsertUp(spans[0], SortUp(spans[1..]))
  }

  function InsertDown(s: Span, sorted: seq<Span>): (r: seq<Span>) {
    if sorted == [] then [s]
    else if s.start >= sorted[0].start then [s] + sorted
    else [sorted[0]] + InsertDown(s, sorted[1..])
  }

  /** `sorted(spans, key=start, reverse=True)`: equal starts keep their order. */
  function SortDown(spans: seq<Span>): (r: seq<Span>) {
    if spans == [] then [] else InsertDown(spans[0], SortDown(spans[1..]))
  }

  // ----- Validation -----

  /** The first adjacent pair in which the earlier span reaches into the later. */
  function FirstOverlap(sorted: seq<Span>): Option<(nat, nat)> {
    if |sorted| < 2 then None
    else if sorted[0].end > sorted[1].start then Some((sorted[0].editIndex, sorted[1].editIndex))
    else FirstOverlap(sorted[1..])
  }

  predicate Validated(spans: seq<Span>) {
    FirstOverlap(SortUp(spans)).None?
  }

  // ----- Splicing -----

  function Prefix(text: string, n: nat): string {
    if n <= |text| then text[..n] else text
  }

  function Suffix(text: string, n: nat): string {
    if n <= |text| then text[n..] else ""
  }

  /** `text[:start] + replacement + text[end:]`, slices clipped to the text. */
  function Replace(text: string, s: Span): string {
    Prefix(text, s.start) + s.replacement + Suffix(text, s.end)
  }

  /** Replacing spans one after another, in the order given. */
  function ReplaceAll(text: string, spans: seq<Span>): string
    decreases |spans|
  {
    if spans == [] then text else ReplaceAll(Replace(text, spans[0]), spans[1..])
  }

  /** The text with its spans replaced from the last start to the first. */
  method SpliceTextSpans(content: string, spans: seq<Span>) returns (result: string)
    ensures result == ReplaceAll(content, SortDown(spans))
  {
    result := content;
    var ordered := SortDown(spans);
    var i := 0;
    while i < |ordered|
      invariant i <= |ordered|
      invariant ReplaceAll(result, ordered[i..]) == ReplaceAll(content, ordered)
    {
      result := Replace(result, ordered[i]);
      i := i + 1;
    }
  }

  // ----- What splicing should mean -----

  /** Sorted spans that do not reach into each other, from an offset on. */
  predicate Chain(sorted: seq<Span>, from: nat, size: nat)
    decreases |sorted|
  {
    if sorted == [] then from <= size
    else from <= sorted[0].start <= sorted[0].end && Chain(sorted[1..], sorted[0].end, size)
  }

  /** All replacements made at once: the original gaps between the spans, with
      the replacements in place of the spans. */
  function Simultaneous(content: string, sorted: seq<Span>, from: nat): string
    requires Chain(sorted, from, |content|)
    decreases |sorted|
  {
    if sorted == [] then content[from..]
    else
      ChainBounds(sorted, from, |content|);
      content[from..sorted[0].start] + sorted[0].replacement
      + Simultaneous(content, sorted[1..], sorted[0].end)
  }

  lemma {:induction false} ChainBounds(sorted: seq<Span>, from: nat, size: nat)
    requires Chain(sorted, from, size)
    ensures from <= size
    ensures forall s :: s in sorted ==> from <= s.start <= s.end <= size
    decreases |sorted|
  {
    if sorted != [] {
      ChainBounds(sorted[1..], sorted[0].end, size);
    }
  }

  /** Strictly ascending starts. */
  predicate StrictlyAscending(spans: seq<Span>) {
    forall i, j :: 0 <= i < j < |spans| ==> spans[i].start < spans[j].start
  }

  predicate DistinctStarts(spans: seq<Span>) {
    forall i, j :: 0 <= i < j < |spans| ==> spans[i].start != spans[j].start
  }

  predicate AllNonEmpty(spans: seq<Span>) {
    forall s :: s in spans ==> s.start < s.end
  }

  predicate PairwiseDisjoint(spans: seq<Span>) {
    forall i, j :: 0 <= i < j < |spans| ==> spans[i].end <= spans[j].start || spans[j].end <= spans[i].start
  }

  // ----- Sorting facts -----

  predicate Ascending(spans: seq<Span>) {
    forall i, j :: 0 <= i < j < |spans| ==> spans[i].start <= spans[j].start
  }

  lemma {:induction false} InsertUpAscends(s: Span, sorted: seq<Span>)
    requires Ascending(sorted)
    ensures Ascending(InsertUp(s, sorted))
  {
    if sorted != [] && s.start > sorted[0].start {
      var rest := InsertUp(s, sorted[1..]);
      InsertUpAscends(s, sorted[1..]);
      forall x | x in rest
        ensures sorted[0].start <= x.start
      {
        InsertUpPermutes(s, sorted[1..]);
        assert x in multiset(rest);
        assert x == s || x in multiset(sorted[1..]);
      }
    }
  }

  lemma {:induction false} SortUpAscends(spans: seq<Span>)
    ensures Ascending(SortUp(spans))
  {
    if spans != [] {
      SortUpAscends(spans[1..]);
      InsertUpAscends(spans[0], SortUp(spans[1..]));
    }
  }

  /** Adjacent pairs suffice: validation makes the sorted spans a chain. */
  lemma {:induction false} NoOverlapIsChain(sorted: seq<Span>, from: nat, size: nat)
    requires InBounds(sorted, size) && from <= size && (sorted != [] ==> from <= sorted[0].start)
    ensures FirstOverlap(sorted).None? <==> Chain(sorted, from, size)
    decreases |sorted|
  {
    if sorted != [] {
      var rest := sorted[1..];
      assert sorted[0] in sorted;
      if rest == [] || sorted[0].end <= sorted[1].start {
        NoOverlapIsChain(rest, sorted[0].end, size);
        assert |sorted| == 1 ==> Chain(rest, sorted[0].end, size);
      }
    }
  }

  lemma {:induction false} InsertUpPermutes(s: Span, sorted: seq<Span>)
    ensures multiset(InsertUp(s, sorted)) == multiset{s} + multiset(sorted)
  {
    if sorted != [] {
      assert sorted == [sorted[0]] + sorted[1..];
      InsertUpPermutes(s, sorted[1..]);
    }
  }

  lemma {:induction false} SortUpPermutes(spans: seq<Span>)
    ensures multiset(SortUp(spans)) == multiset(spans)
  {
    if spans != [] {
      assert spans == [spans[0]] + spans[1..];
      SortUpPermutes(spans[1..]);
      InsertUpPermutes(spans[0], SortUp(spans[1..]));
    }
  }

  lemma SameElements(spans: seq<Span>)
    ensures forall s :: s in SortUp(spans) <==> s in spans
  {
    SortUpPermutes(spans);
    assert forall s :: s in SortUp(spans) <==> s in multiset(SortUp(spans));
    assert forall s :: s in spans <==> s in multiset(spans);
  }

  lemma ValidatedIsChain(spans: seq<Span>, size: nat)
    requires InBounds(spans, size)
    ensures Validated(spans) <==> Chain(SortUp(spans), 0, size)
  {
    SameElements(spans);
    NoOverlapIsChain(SortUp(spans), 0, size);
  }

  /** The check on adjacent pairs implies that all spans are pairwise disjoint. */
  lemma ValidatedMeansDisjoint(spans: seq<Span>, size: nat)
    requires InBounds(spans, size) && Validated(spans)
    ensures PairwiseDisjoint(SortUp(spans))
    ensures AllNonEmpty(spans) ==> StrictlyAscending(SortUp(spans))
  {
    var sorted := SortUp(spans);
    ValidatedIsChain(spans, size);
    SameElements(spans);
    ChainOrders(sorted, 0, size);
    if AllNonEmpty(spans) {
      forall i, j | 0 <= i < j < |sorted|
        ensures sorted[i].start < sorted[j].start
      {
        assert sorted[i] in spans;
      }
    }
  }

  lemma {:induction false} ChainOrders(sorted: seq<Span>, from: nat, size: nat)
    requires Chain(sorted, from, size)
    ensures forall i, j :: 0 <= i < j < |sorted| ==> sorted[i].end <= sorted[j].start
    decreases |sorted|
  {
    if sorted != [] {
      var rest := sorted[1..];
      ChainOrders(rest, sorted[0].end, size);
      ChainBounds(rest, sorted[0].end, size);
      forall i, j | 0 <= i < j < |sorted|
        ensures sorted[i].end <= sorted[j].start
      {
        assert sorted[j] == rest[j - 1] && sorted[j] in rest;
        assert i > 0 ==> sorted[i] == rest[i - 1];
      }
    }
  }

  // ----- The two sorts mirror each other when no start is shared -----

  function Backwards(spans: seq<Span>): (r: seq<Span>)
    ensures forall s :: s in r <==> s in spans
  {
    if spans == [] then [] else Backwards(spans[1..]) + [spans[0]]
  }

  /** Inserting leaves alone a back part that starts no later. */
  lemma {:induction false} InsertDownFront(s: Span, front: seq<Span>, back: seq<Span>)
    requires back == [] || s.start >= back[0].start
    ensures InsertDown(s, front + back) == InsertDown(s, front) + back
  {
    if front == [] {
      assert front + back == back;
    } else {
      assert (front + back)[1..] == front[1..] + back;
      InsertDownFront(s, front[1..], back);
    }
  }

  /** Inserting passes over a front part that starts later. */
  lemma {:induction false} InsertDownBack(s: Span, front: seq<Span>, back: seq<Span>)
    requires forall x :: x in front ==> s.start < x.start
    ensures InsertDown(s, front + back) == front + InsertDown(s, back)
  {
    if front == [] {
      assert front + back == back;
    } else {
      assert (front + back)[1..] == front[1..] + back;
      InsertDownBack(s, front[1..], back);
    }
  }

  lemma {:induction false} InsertUpFront(s: Span, front: seq<Span>, back: seq<Span>)
    requires back == [] || s.start <= back[0].start
    ensures InsertUp(s, front + back) == InsertUp(s, front) + back
  {
    if front == [] {
      assert front + back == back;
    } else {
      assert (front + back)[1..] == front[1..] + back;
      InsertUpFront(s, front[1..], back);
    }
  }

  lemma {:induction false} InsertUpBack(s: Span, front: seq<Span>, back: seq<Span>)
    requires forall x :: x in front ==> x.start < s.start
    ensures InsertUp(s, front + back) == front + InsertUp(s, back)
  {
    if front == [] {
      assert front + back == back;
    } else {
      assert (front + back)[1..] == front[1..] + back;
      InsertUpBack(s, front[1..], back);
    }
  }

  lemma {:induction false} InsertMirror(s: Span, up: seq<Span>)
    requires Ascending(up) && forall x :: x in up ==> x.start != s.start
    ensures InsertDown(s, Backwards(up)) == Backwards(InsertUp(s, up))
  {
    if up != [] {
      var back := Backwards(up[1..]);
      if s.start < up[0].start {
        assert Backwards(up) + [] == Backwards(up);
        InsertDownBack(s, Backwards(up), []);
      } else {
        InsertMirror(s, up[1..]);
        InsertDownFront(s, back, [up[0]]);
        assert ([up[0]] + InsertUp(s, up[1..]))[1..] == InsertUp(s, up[1..]);
      }
    }
  }

  lemma {:induction false} SortsMirror(spans: seq<Span>)
    requires DistinctStarts(spans)
    ensures SortDown(spans) == Backwards(SortUp(spans))
  {
    if spans != [] {
      SortsMirror(spans[1..]);
      SortUpAscends(spans[1..]);
      SameElements(spans[1..]);
      InsertMirror(spans[0], SortUp(spans[1..]));
    }
  }

  // ----- Splicing is simultaneous replacement -----

  lemma {:induction false} ReplaceAllConcat(text: string, a: seq<Span>, b: seq<Span>)
    ensures ReplaceAll(text, a + b) == ReplaceAll(ReplaceAll(text, a), b)
    decreases |a|
  {
    if a == [] {
      assert a + b == b;
    } else {
      assert (a + b)[1..] == a[1..] + b;
      ReplaceAllConcat(Replace(text, a[0]), a[1..], b);
    }
  }

  /** Working backwards keeps every offset still to be used in place. */
  lemma {:induction false} BackwardsIsSimultaneous(content: string, sorted: seq<Span>, from: nat)
    requires Chain(sorted, from, |content|)
    ensures from <= |content|
    ensures ReplaceAll(content, Backwards(sorted)) == content[..from] + Simultaneous(content, sorted, from)
    decreases |sorted|
  {
    ChainBounds(sorted, from, |content|);
    if sorted == [] {
      assert content == content[..from] + content[from..];
    } else {
      var s, rest := sorted[0], sorted[1..];
      var tail := Simultaneous(content, rest, s.end);
      BackwardsIsSimultaneous(content, rest, s.end);
      ReplaceAllConcat(content, Backwards(rest), [s]);
      ReplaceOne(content, s, from, tail);
    }
  }

  lemma ReplaceOne(content: string, s: Span, from: nat, tail: string)
    requires from <= s.start <= s.end <= |content|
    ensures ReplaceAll(content[..s.end] + tail, [s])
         == content[..from] + (content[from..s.start] + s.replacement + tail)
  {
  }

  /** The spans are sound and splicing them is replacing them all at once. */
  ghost predicate SplicesRight(content: string, spans: seq<Span>) {
    && Chain(SortUp(spans), 0, |content|)
    && ReplaceAll(content, SortDown(spans)) == Simultaneous(content, SortUp(spans), 0)
  }

  /** When no two spans share a start, replacing them from the last to the
      first is replacing them all at once in the original text. */
  lemma SpliceIsSimultaneous(content: string, spans: seq<Span>)
    requires InBounds(spans, |content|) && Validated(spans) && DistinctStarts(spans)
    ensures SplicesRight(content, spans)
  {
    ValidatedIsChain(spans, |content|);
    SortsMirror(spans);
    BackwardsIsSimultaneous(content, SortUp(spans), 0);
  }

  /** Non-empty validated spans never share a start. */
  lemma NonEmptyMeansDistinct(spans: seq<Span>, size: nat)
    requires InBounds(spans, size) && Validated(spans) && AllNonEmpty(spans)
    ensures DistinctStarts(spans)
  {
    ValidatedMeansDisjoint(spans, size);
    AscendingMeansDistinct(spans);
  }

  lemma AscendingMeansDistinct(spans: seq<Span>)
    requires StrictlyAscending(SortUp(spans))
    ensures DistinctStarts(spans)
  {
    forall i, j | 0 <= i < j < |spans|
      ensures spans[i].start != spans[j].start
    {
      if spans[i].start == spans[j].start {
        var p := spans[i].start;
        TwoPicked(spans, i, j);
        PartitionUp(spans, p);
        StrictPick(SortUp(spans), p);
        PickSorted(spans, p);
      }
    }
  }

  // ----- Spans before, at and after a start -----

  datatype Side = Before | Here | After

  function SideOf(s: Span, p: nat): Side {
    if s.start < p then Before else if s.start == p then Here else After
  }

  /** The spans on one side of p, in their given order. */
  function Pick(spans: seq<Span>, p: nat, side: Side): seq<Span> {
    if spans == [] then []
    else if SideOf(spans[0], p) == side then [spans[0]] + Pick(spans[1..], p, side)
    else Pick(spans[1..], p, side)
  }

  lemma {:induction false} PickElements(spans: seq<Span>, p: nat, side: Side)
    ensures forall s :: s in Pick(spans, p, side) <==> s in spans && SideOf(s, p) == side
  {
    if spans != [] {
      PickElements(spans[1..], p, side);
      assert spans == [spans[0]] + spans[1..];
    }
  }

  lemma {:induction false} TwoPicked(spans: seq<Span>, i: nat, j: nat)
    requires i < j < |spans| && spans[i].start == spans[j].start
    ensures |Pick(spans, spans[i].start, Here)| >= 2
  {
    if i > 0 {
      TwoPicked(spans[1..], i - 1, j - 1);
    } else {
      assert spans[j] == spans[1..][j - 1];
      PickElements(spans[1..], spans[0].start, Here);
      assert spans[j] in Pick(spans[1..], spans[0].start, Here);
    }
  }

  lemma {:induction false} StrictPick(spans: seq<Span>, p: nat)
    requires StrictlyAscending(spans)
    ensures |Pick(spans, p, Here)| <= 1
  {
    if spans != [] {
      StrictPick(spans[1..], p);
      if Pick(spans[1..], p, Here) != [] && spans[0].start == p {
        PickElements(spans[1..], p, Here);
        assert Pick(spans[1..], p, Here)[0] in spans[1..];
      }
    }
  }

  lemma {:induction false} SameElementsDown(spans: seq<Span>)
    ensures forall s :: s in SortDown(spans) <==> s in spans
  {
    if spans != [] {
      SameElementsDown(spans[1..]);
      InsertDownElements(spans[0], SortDown(spans[1..]));
    }
  }

  lemma {:induction false} InsertDownElements(s: Span, sorted: seq<Span>)
    ensures forall x :: x in InsertDown(s, sorted) <==> x == s || x in sorted
  {
    if sorted != [] && s.start < sorted[0].start {
      InsertDownElements(s, sorted[1..]);
    }
  }

  /** Inserting a span into before + here + after, each on its side of p. */
  lemma InsertUpSides(s: Span, before: seq<Span>, here: seq<Span>, after: seq<Span>, p: nat)
    requires forall x :: x in before ==> x.start < p
    requires forall x :: x in here ==> x.start == p
    requires forall x :: x in after ==> x.start > p
    ensures InsertUp(s, before + (here + after))
         == match SideOf(s, p)
            case Before => InsertUp(s, before) + (here + after)
            case Here => before + (([s] + here) + after)
            case After => before + (here + InsertUp(s, after))
  {
    var back := here + after;
    assert back != [] ==> back[0] in here || back[0] in after;
    match SideOf(s, p)
    case Before =>
      InsertUpFront(s, before, back);
    case Here =>
      InsertUpBack(s, before, back);
      assert [s] + back == ([s] + here) + after;
    case After =>
      InsertUpBack(s, before, back);
      InsertUpBack(s, here, after);
  }

  lemma InsertDownSides(s: Span, before: seq<Span>, here: seq<Span>, after: seq<Span>, p: nat)
    requires forall x :: x in before ==> x.start < p
    requires forall x :: x in here ==> x.start == p
    requires forall x :: x in after ==> x.start > p
    ensures InsertDown(s, after + (here + before))
         == match SideOf(s, p)
            case Before => after + (here + InsertDown(s, before))
            case Here => after + (([s] + here) + before)
            case After => InsertDown(s, after) + (here + before)
  {
    var back := here + before;
    assert back != [] ==> back[0] in here || back[0] in before;
    match SideOf(s, p)
    case Before =>
      InsertDownBack(s, after, back);
      InsertDownBack(s, here, before);
    case Here =>
      InsertDownBack(s, after, back);
      assert [s] + back == ([s] + here) + before;
    case After =>
      InsertDownFront(s, after, back);
  }

  lemma SortUpCons(s: Span, rest: seq<Span>)
    ensures SortUp([s] + rest) == InsertUp(s, SortUp(rest))
  {
  }

  lemma SortDownCons(s: Span, rest: seq<Span>)
    ensures SortDown([s] + rest) == InsertDown(s, SortDown(rest))
  {
  }

  lemma SidesOfSorted(spans: seq<Span>, p: nat)
    ensures forall x :: x in SortUp(Pick(spans, p, Before)) || x in SortDown(Pick(spans, p, Before)) ==> x.start < p
    ensures forall x :: x in Pick(spans, p, Here) ==> x.start == p
    ensures forall x :: x in SortUp(Pick(spans, p, After)) || x in SortDown(Pick(spans, p, After)) ==> x.start > p
  {
    PickElements(spans, p, Before);
    PickElements(spans, p, Here);
    PickElements(spans, p, After);
    SameElements(Pick(spans, p, Before));
    SameElements(Pick(spans, p, After));
    SameElementsDown(Pick(spans, p, Before));
    SameElementsDown(Pick(spans, p, After));
  }

  /** Sorting keeps the three sides apart and the spans at p in their order. */
  lemma {:induction false} PartitionUp(spans: seq<Span>, p: nat)
    ensures SortUp(spans)
         == SortUp(Pick(spans, p, Before)) + (Pick(spans, p, Here) + SortUp(Pick(spans, p, After)))
  {
    if spans != [] {
      var s, rest := spans[0], spans[1..];
      PartitionUp(rest, p);
      SidesOfSorted(rest, p);
      InsertUpSides(s, SortUp(Pick(rest, p, Before)), Pick(rest, p, Here), SortUp(Pick(rest, p, After)), p);
      SortUpCons(s, Pick(rest, p, SideOf(s, p)));
    }
  }

  lemma {:induction false} PartitionDown(spans: seq<Span>, p: nat)
    ensures SortDown(spans)
         == SortDown(Pick(spans, p, After)) + (Pick(spans, p, Here) + SortDown(Pick(spans, p, Before)))
  {
    if spans != [] {
      var s, rest := spans[0], spans[1..];
      PartitionDown(rest, p);
      SidesOfSorted(rest, p);
      InsertDownSides(s, SortDown(Pick(rest, p, Before)), Pick(rest, p, Here), SortDown(Pick(rest, p, After)), p);
      SortDownCons(s, Pick(rest, p, SideOf(s, p)));
    }
  }

  lemma {:induction false} PickConcat(a: seq<Span>, b: seq<Span>, p: nat, side: Side)
    ensures Pick(a + b, p, side) == Pick(a, p, side) + Pick(b, p, side)
  {
    if a == [] {
      assert a + b == b;
    } else {
      assert (a + b)[1..] == a[1..] + b;
      PickConcat(a[1..], b, p, side);
    }
  }

  lemma {:induction false} PickAll(spans: seq<Span>, p: nat, side: Side)
    requires forall s :: s in spans ==> SideOf(s, p) == side
    ensures Pick(spans, p, side) == spans
    ensures forall other :: other != side ==> Pick(spans, p, other) == []
  {
    if spans != [] {
      PickAll(spans[1..], p, side);
    }
  }

  /** Sorting is stable: spans with the same start keep their order. */
  lemma PickSorted(spans: seq<Span>, p: nat)
    ensures Pick(SortUp(spans), p, Here) == Pick(spans, p, Here)
  {
    var before, here, after := Pick(spans, p, Before), Pick(spans, p, Here), Pick(spans, p, After);
    PartitionUp(spans, p);
    SidesOfSorted(spans, p);
    PickConcat(SortUp(before), here + SortUp(after), p, Here);
    PickConcat(here, SortUp(after), p, Here);
    PickAll(SortUp(before), p, Before);
    PickAll(here, p, Here);
    PickAll(SortUp(after), p, After);
  }

  // ----- The order in which the edits are given does not matter -----

  lemma StrictHead(a: seq<Span>, b: seq<Span>)
    requires StrictlyAscending(a) && StrictlyAscending(b) && multiset(a) == multiset(b) && a != []
    ensures b != [] && a[0] == b[0]
  {
    assert a[0] in multiset(b) && b != [];
    assert b[0] in multiset(a);
  }

  lemma RestOfSame(first: Span, a: seq<Span>, b: seq<Span>)
    requires multiset([first] + a) == multiset([first] + b)
    ensures multiset(a) == multiset(b)
  {
    assert multiset([first] + a) - multiset{first} == multiset(a);
    assert multiset([first] + b) - multiset{first} == multiset(b);
  }

  lemma {:induction false} StrictIsUnique(a: seq<Span>, b: seq<Span>)
    requires StrictlyAscending(a) && StrictlyAscending(b) && multiset(a) == multiset(b)
    ensures a == b
  {
    if a == [] {
      assert |multiset(b)| == |b|;
    } else {
      StrictHead(a, b);
      FirstAndRest(a);
      FirstAndRest(b);
      RestOfSame(a[0], a[1..], b[1..]);
      StrictIsUnique(a[1..], b[1..]);
    }
  }

  lemma DistinctMeansAscending(spans: seq<Span>)
    requires DistinctStarts(spans)
    ensures StrictlyAscending(SortUp(spans))
  {
    var sorted := SortUp(spans);
    SortUpAscends(spans);
    forall i, j | 0 <= i < j < |sorted|
      ensures sorted[i].start < sorted[j].start
    {
      if sorted[i].start == sorted[j].start {
        TwoPicked(sorted, i, j);
        PickSorted(spans, sorted[i].start);
        OnePicked(spans, sorted[i].start);
      }
    }
  }

  lemma {:induction false} OnePicked(spans: seq<Span>, p: nat)
    requires DistinctStarts(spans)
    ensures |Pick(spans, p, Here)| <= 1
  {
    if spans != [] {
      OnePicked(spans[1..], p);
      if Pick(spans[1..], p, Here) != [] && spans[0].start == p {
        PickElements(spans[1..], p, Here);
        assert Pick(spans[1..], p, Here)[0] in spans[1..];
      }
    }
  }

  /** The same edits in any order give the same text. */
  lemma OrderDoesNotMatter(content: string, spans: seq<Span>, shuffled: seq<Span>)
    requires multiset(shuffled) == multiset(spans)
    requires InBounds(spans, |content|) && Validated(spans) && DistinctStarts(spans) && DistinctStarts(shuffled)
    ensures Validated(shuffled)
    ensures ReplaceAll(content, SortDown(shuffled)) == ReplaceAll(content, SortDown(spans))
  {
    SortUpPermutes(spans);
    SortUpPermutes(shuffled);
    DistinctMeansAscending(spans);
    DistinctMeansAscending(shuffled);
    StrictIsUnique(SortUp(spans), SortUp(shuffled));
    SortsMirror(spans);
    SortsMirror(shuffled);
  }
}
