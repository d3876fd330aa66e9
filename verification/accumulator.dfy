/** Streaming output: a bounded rolling buffer that stands in for the whole text. */
module OutputAccumulation {
  import opened Prelude
  import opened Text
  import opened OutputTruncation

  datatype OutputSnapshot = OutputSnapshot(content: string, truncation: Truncation)

  // ----- Specification: what the buffer means in terms of the whole text -----

  /** Start of the longest suffix of whole characters that fits in `limit` octets. */
  function Cut(text: string, limit: nat): (i: nat)
    ensures i <= |text|
  {
    if Size(text) <= limit then 0 else 1 + Cut(text[1..], limit)
  }

  lemma {:induction false} CutIsLongest(text: string, limit: nat)
    ensures var i := Cut(text, limit);
            Size(text[i..]) <= limit && (i > 0 ==> Size(text[i - 1..]) > limit)
  {
    var i := Cut(text, limit);
    if Size(text) <= limit {
      assert text[0..] == text;
    } else {
      CutIsLongest(text[1..], limit);
      assert text[1..][i - 1..] == text[i..];
      if i == 1 {
        assert text[0..] == text;
      } else {
        assert text[1..][i - 2..] == text[i - 1..];
      }
    }
  }

  predicate AtLineStart(text: string, i: nat)
    requires i <= |text|
  {
    i == 0 || text[i - 1] == '\n'
  }

  /** The buffer is the longest suffix of whole characters within the limit; the
      flag says whether that suffix starts a line of the whole text. */
  predicate IsTail(whole: string, limit: nat, buffer: seq<Byte>, flag: bool) {
    IsTailAt(whole, Cut(whole, limit), buffer, flag)
  }

  predicate IsTailAt(whole: string, i: nat, buffer: seq<Byte>, flag: bool) {
    i <= |whole| && buffer == Encode(whole[i..]) && flag == AtLineStart(whole, i)
  }

  /** Offset of the first newline; |text| when there is none. */
  function FirstNewline(text: string): (n: nat)
    ensures n <= |text|
    ensures OneLine(text[..n])
    ensures n < |text| ==> text[n] == '\n'
    ensures n == |text| <==> OneLine(text)
  {
    if text == "" || text[0] == '\n' then 0
    else
      var n := 1 + FirstNewline(text[1..]);
      assert text[..n] == [text[0]] + text[1..][..n - 1];
      n
  }

  /** The tail text without a partial first line, unless that is all there is. */
  function DropPartialLine(tail: string): string {
    var n := FirstNewline(tail);
    if n == |tail| then tail else tail[n + 1..]
  }

  function SnapshotText(whole: string, rolling: nat): string {
    var i := Cut(whole, rolling);
    if AtLineStart(whole, i) then whole[i..] else DropPartialLine(whole[i..])
  }

  function TotalLines(whole: string): nat {
    if whole == "" then 0 else |Split(whole)|
  }

  /** The effective reason once the totals of the full stream are known. */
  function EffectiveReason(t: Truncation, totalLines: nat, totalBytes: nat): Option<Reason> {
    if t.truncatedBy.Some? then t.truncatedBy
    else if totalLines > t.maxLines then Some(ByLines)
    else if totalBytes > t.maxBytes then Some(ByBytes)
    else None
  }

  function WithTotals(t: Truncation, totalLines: nat, totalBytes: nat): Truncation {
    var reason := EffectiveReason(t, totalLines, totalBytes);
    t.(truncated := reason.Some?, truncatedBy := reason, totalLines := totalLines, totalBytes := totalBytes)
  }

  /** The final report on a stream whose decoded text is `whole`. */
  function Report(whole: string, maxLines: int, maxBytes: nat): Truncation {
    WithTotals(Truncated(SnapshotText(whole, 2 * maxBytes), Tail, maxLines, maxBytes),
               TotalLines(whole), Size(whole))
  }

  // ----- The accumulator -----

  class OutputAccumulator {
    const maxLines: int
    const maxBytes: nat
    const maxRollingBytes: nat
    var tailBuffer: seq<Byte>
    var tailStartsAtLineBoundary: bool
    var totalBytes: nat
    var totalLines: nat
    var finished: bool
    /** Everything appended so far; nothing of it is stored. */
    ghost var whole: string

    /** Whatever the chunks were, the buffer is the longest suffix of whole
        characters within the rolling limit, and the flag says whether it
        starts at a line start of the full text. */
    ghost predicate Valid()
      reads this
    {
      && maxRollingBytes == 2 * maxBytes
      && IsTail(whole, maxRollingBytes, tailBuffer, tailStartsAtLineBoundary)
      && totalBytes == Size(whole)
      && totalLines == TotalLines(whole)
    }

    constructor (maxLines: int, maxBytes: nat)
      ensures Valid() && whole == "" && !finished
      ensures this.maxLines == maxLines && this.maxBytes == maxBytes
    {
      this.maxLines, this.maxBytes, maxRollingBytes := maxLines, maxBytes, maxBytes * 2;
      tailBuffer, tailStartsAtLineBoundary := [], true;
      totalBytes, totalLines, finished := 0, 0, false;
      whole := "";
    }

    /** Appends one chunk of decoded text; refused after the end. */
    method Accumulate(text: string) returns (accepted: bool)
      requires Valid()
      modifies this
      ensures Valid() && accepted == !old(finished) && finished == old(finished)
      ensures whole == if accepted then old(whole) + text else old(whole)
    {
      if finished {
        return false;
      }
      AppendDecodedText(text);
      return true;
    }

    /** Ends the stream with the text its decoder still held back. */
    method Finish(flushed: string) returns (snapshot: OutputSnapshot)
      requires Valid()
      modifies this
      ensures Valid() && finished
      ensures whole == if old(finished) then old(whole) else old(whole) + flushed
      ensures snapshot.truncation == Report(whole, maxLines, maxBytes)
      ensures snapshot.content == snapshot.truncation.content
    {
      if !finished {
        AppendDecodedText(flushed);
        finished := true;
      }
      snapshot := Snapshot();
    }

    method Snapshot() returns (snapshot: OutputSnapshot)
      requires Valid()
      ensures snapshot.truncation == Report(whole, maxLines, maxBytes)
      ensures snapshot.content == snapshot.truncation.content
    {
      var text := CurrentText();
      var truncation := TruncateText(text, Tail, maxLines, maxBytes);
      snapshot := OutputSnapshot(truncation.content, WithTotals(truncation, totalLines, totalBytes));
    }

    method AppendDecodedText(text: string)
      requires Valid()
      modifies this
      ensures Valid() && whole == old(whole) + text && finished == old(finished)
    {
      hide Cut, Encode;
      assert whole + "" == whole;
      if text == "" {
        return;
      }
      var textBytes := Encode(text);
      ghost var kept := whole[Cut(whole, maxRollingBytes)..] + text;
      EncodeConcat(whole[Cut(whole, maxRollingBytes)..], text);
      TotalsGrow(whole, text);

      totalBytes := totalBytes + |textBytes|;
      if totalLines == 0 {
        totalLines := 1;
      }
      totalLines := totalLines + CountNewlines(text);
      var content := tailBuffer + textBytes;
      var start := TrimStart(content, maxRollingBytes, kept);
      AppendIsLocal(whole, text, maxRollingBytes, tailBuffer, tailStartsAtLineBoundary, start);
      tailBuffer := content[start..];
      tailStartsAtLineBoundary :=
        if start == 0 then tailStartsAtLineBoundary else content[start - 1] == 0x0A;
      whole := whole + text;
    }

    method CurrentText() returns (text: string)
      requires Valid()
      ensures text == SnapshotText(whole, maxRollingBytes)
    {
      var tailText := Decode(tailBuffer);
      DecodeEncode(whole[Cut(whole, maxRollingBytes)..]);
      if tailStartsAtLineBoundary {
        return tailText;
      }
      return DropPartialLine(tailText);
    }
  }

  /** Octet offset at which trimming the content to its tail starts; `text` is
      what the content encodes. */
  method TrimStart(content: seq<Byte>, maxBytes: nat, ghost text: string) returns (start: nat)
    requires content == Encode(text)
    ensures start == Size(text[..Cut(text, maxBytes)]) <= |content|
  {
    SplitEncoding(text, Cut(text, maxBytes));
    if |content| <= maxBytes {
      return 0;
    }
    start := Utf8BoundaryAtOrAfter(content, |content| - maxBytes);
    BoundaryIsCut(text, maxBytes, start);
  }

  method Utf8BoundaryAtOrAfter(content: seq<Byte>, start: nat) returns (boundary: nat)
    requires start <= |content|
    ensures IsBoundaryFrom(content, start, boundary)
  {
    boundary := start;
    while boundary < |content| && IsContinuation(content[boundary])
      invariant start <= boundary <= |content|
      invariant forall k :: start <= k < boundary ==> IsContinuation(content[k])
    {
      boundary := boundary + 1;
    }
  }

  /** The first offset at or after start that does not continue a character. */
  predicate IsBoundaryFrom(content: seq<Byte>, start: nat, boundary: nat) {
    && start <= boundary <= |content|
    && (forall k :: start <= k < boundary ==> IsContinuation(content[k]))
    && (boundary < |content| ==> !IsContinuation(content[boundary]))
  }

  function CountNewlines(text: string): nat {
    if text == "" then 0 else (if text[0] == '\n' then 1 else 0) + CountNewlines(text[1..])
  }

  // ----- Octets against characters -----

  lemma SplitEncoding(text: string, i: nat)
    requires i <= |text|
    ensures Size(text) == Size(text[..i]) + Size(text[i..])
    ensures Encode(text)[Size(text[..i])..] == Encode(text[i..])
    ensures Encode(text)[..Size(text[..i])] == Encode(text[..i])
  {
    Rejoin(text, i);
    EncodeParts(text[..i], text[i..]);
  }

  lemma EncodeParts(a: string, b: string)
    ensures Size(a + b) == Size(a) + Size(b)
    ensures Encode(a + b)[Size(a)..] == Encode(b)
    ensures Encode(a + b)[..Size(a)] == Encode(a)
  {
    EncodeConcat(a, b);
  }

  /** The last octet tells whether a text ends with a newline. */
  lemma LastOctet(text: string)
    requires text != ""
    ensures Encode(text) != [] && (Encode(text)[|Encode(text)| - 1] == 0x0A <==> text[|text| - 1] == '\n')
  {
    var front, c := text[..|text| - 1], text[|text| - 1];
    assert text == front + [c];
    EncodeConcat(front, [c]);
    EncodeOne(c);
    CharOctets(c);
  }

  /** The scan seen from the second character on. */
  lemma BoundaryInRest(first: seq<Byte>, rest: seq<Byte>, start: nat, boundary: nat)
    requires |first| <= start && IsBoundaryFrom(first + rest, start, boundary)
    ensures IsBoundaryFrom(rest, start - |first|, boundary - |first|)
  {
    var bytes := first + rest;
    assert forall k :: |first| <= k < |bytes| ==> bytes[k] == rest[k - |first|];
    forall k | start - |first| <= k < boundary - |first|
      ensures IsContinuation(rest[k])
    {
      assert IsContinuation(bytes[k + |first|]);
    }
  }

  /** A scan that starts inside the first character, not at it, stops behind it. */
  lemma BoundaryInFirst(c: char, rest: string, start: nat, boundary: nat)
    requires 0 < start <= |EncodeChar(c)|
    requires IsBoundaryFrom(EncodeChar(c) + Encode(rest), start, boundary)
    ensures boundary == |EncodeChar(c)|
  {
    var first, bytes := EncodeChar(c), EncodeChar(c) + Encode(rest);
    CharOctets(c);
    FirstOctet(rest);
    assert |first| < |bytes| ==> bytes[|first|] == Encode(rest)[0];
    assert forall k :: 1 <= k < |first| ==> IsContinuation(bytes[k]);
  }

  /** The octet scan finds the character cut. */
  lemma {:induction false} BoundaryIsCut(text: string, limit: nat, boundary: nat)
    requires Size(text) > limit
    requires IsBoundaryFrom(Encode(text), Size(text) - limit, boundary)
    ensures boundary == Size(text[..Cut(text, limit)])
  {
    var first, rest := EncodeChar(text[0]), text[1..];
    var i := Cut(text, limit);
    SplitFront(text, i);
    CharOctets(text[0]);
    if Size(rest) <= limit {
      BoundaryInFirst(text[0], rest, Size(text) - limit, boundary);
    } else {
      BoundaryInRest(first, Encode(rest), Size(text) - limit, boundary);
      BoundaryIsCut(rest, limit, boundary - |first|);
    }
  }

  lemma SplitFront(text: string, i: nat)
    requires 0 < i <= |text|
    ensures Size(text[..i]) == |EncodeChar(text[0])| + Size(text[1..][..i - 1])
  {
    assert text[..i] == [text[0]] + text[1..][..i - 1];
    EncodeConcat([text[0]], text[1..][..i - 1]);
    EncodeOne(text[0]);
  }

  lemma FirstOctet(text: string)
    ensures text != "" ==> !IsContinuation(Encode(text)[0])
  {
    if text != "" {
      CharOctets(text[0]);
    }
  }

  lemma {:induction false} CutAfter(text: string, i: nat, limit: nat)
    requires i <= |text|
    requires i > 0 ==> Size(text[i - 1..]) > limit
    ensures Cut(text, limit) == i + Cut(text[i..], limit)
  {
    if i == 0 {
      assert text[0..] == text;
    } else {
      SplitEncoding(text, i - 1);
      assert text[1..][i - 1..] == text[i..];
      assert i > 1 ==> text[1..][i - 2..] == text[i - 1..];
      CutAfter(text[1..], i - 1, limit);
    }
  }

  /** Forgetting what lies before the cut does not move later cuts. */
  lemma CutAppend(whole: string, text: string, limit: nat)
    ensures var i := Cut(whole, limit);
            Cut(whole + text, limit) == i + Cut(whole[i..] + text, limit)
  {
    var i := Cut(whole, limit);
    CutIsLongest(whole, limit);
    SliceConcat(whole, text, i);
    if i > 0 {
      SliceConcat(whole, text, i - 1);
      EncodeConcat(whole[i - 1..], text);
    }
    CutAfter(whole + text, i, limit);
  }

  lemma SliceConcat(a: string, b: string, i: nat)
    requires i <= |a|
    ensures (a + b)[i..] == a[i..] + b
  {
  }

  lemma {:induction false} LinesAreNewlinesPlusOne(text: string)
    ensures |Split(text)| == CountNewlines(text) + 1
  {
    if text != "" {
      LinesAreNewlinesPlusOne(text[1..]);
    }
  }

  lemma {:induction false} NewlinesConcat(a: string, b: string)
    ensures CountNewlines(a + b) == CountNewlines(a) + CountNewlines(b)
  {
    if a == "" {
      assert a + b == b;
    } else {
      assert (a + b)[1..] == a[1..] + b;
      NewlinesConcat(a[1..], b);
    }
  }

  lemma TotalsGrow(whole: string, text: string)
    requires text != ""
    ensures Size(whole + text) == Size(whole) + Size(text)
    ensures TotalLines(whole + text)
         == (if TotalLines(whole) == 0 then 1 else TotalLines(whole)) + CountNewlines(text)
  {
    EncodeConcat(whole, text);
    LinesAreNewlinesPlusOne(whole);
    LinesAreNewlinesPlusOne(whole + text);
    NewlinesConcat(whole, text);
  }

  lemma LineStartAppend(whole: string, text: string, i: nat, j: nat)
    requires i <= |whole| && j <= |whole[i..] + text|
    ensures i + j <= |whole + text|
    ensures (whole + text)[i + j..] == (whole[i..] + text)[j..]
    ensures AtLineStart(whole + text, i + j)
       <==> if j == 0 then AtLineStart(whole, i) else (whole[i..] + text)[j - 1] == '\n'
  {
  }

  /** Dropping whole characters from a buffer, octet for octet. */
  lemma DropEncoded(dropped: string, rest: string)
    ensures |Encode(dropped)| <= |Encode(dropped + rest)|
    ensures Encode(dropped + rest)[|Encode(dropped)|..] == Encode(rest)
    ensures dropped != "" ==>
              Encode(dropped) != []
              && (Encode(dropped + rest)[|Encode(dropped)| - 1] == 0x0A <==> dropped[|dropped| - 1] == '\n')
  {
    EncodeConcat(dropped, rest);
    if dropped != "" {
      LastOctet(dropped);
    }
  }

  /** Cutting after j characters of what was held and what is new. */
  lemma TailAppend(
    whole: string, text: string, i: nat, j: nat, kept: string, buffer: seq<Byte>, flag: bool, start: nat)
    requires IsTailAt(whole, i, buffer, flag) && kept == whole[i..] + text && j <= |kept|
    requires start == Size(kept[..j])
    ensures var content := buffer + Encode(text);
            && start <= |content|
            && IsTailAt(whole + text, i + j, content[start..], if start == 0 then flag else content[start - 1] == 0x0A)
  {
    EncodeConcat(whole[i..], text);
    LineStartAppend(whole, text, i, j);
    DropAt(kept, j);
  }

  lemma DropAt(kept: string, j: nat)
    requires j <= |kept|
    ensures var start := Size(kept[..j]);
            && start <= Size(kept) && Encode(kept)[start..] == Encode(kept[j..])
            && (start == 0 <==> j == 0)
            && (j > 0 ==> (Encode(kept)[start - 1] == 0x0A <==> kept[j - 1] == '\n'))
  {
    Rejoin(kept, j);
    DropEncoded(kept[..j], kept[j..]);
  }

  /** The new buffer and flag can be computed from the old buffer and flag alone. */
  lemma AppendIsLocal(whole: string, text: string, limit: nat, buffer: seq<Byte>, flag: bool, start: nat)
    requires IsTail(whole, limit, buffer, flag)
    requires var kept := whole[Cut(whole, limit)..] + text;
             start == Size(kept[..Cut(kept, limit)])
    ensures var content := buffer + Encode(text);
            && start <= |content|
            && IsTail(whole + text, limit, content[start..], if start == 0 then flag else content[start - 1] == 0x0A)
  {
    hide Cut, Encode;
    var i := Cut(whole, limit);
    var kept := whole[i..] + text;
    CutAppend(whole, text, limit);
    TailAppend(whole, text, i, Cut(kept, limit), kept, buffer, flag, start);
  }
}
