/** Text and its UTF-8 octets (RFC 3629, section 3), and splitting text into lines.

    A Dafny `char` is a Unicode scalar value, so `string` is exactly the text a
    UTF-8 decoder can produce. */
module Text {
  import opened Prelude

  type Byte = b: int | 0 <= b < 256

  const REPLACEMENT: char := '\U{FFFD}'

  /** The test `b & 0xC0 == 0x80`: does an octet continue a character? */
  predicate IsContinuation(b: Byte) {
    0x80 <= b < 0xC0
  }

  /** One to four octets. */
  function EncodeChar(c: char): (bytes: seq<Byte>)
    ensures 1 <= |bytes| <= 4
  {
    var n := c as int;
    if n < 0x80 then [n]
    else if n < 0x800 then [0xC0 + n / 64, 0x80 + n % 64]
    else if n < 0x1_0000 then [0xE0 + n / 4096, 0x80 + n / 64 % 64, 0x80 + n % 64]
    else [0xF0 + n / 0x4_0000, 0x80 + n / 4096 % 64, 0x80 + n / 64 % 64, 0x80 + n % 64]
  }

  /** Only the first octet of a character is not a continuation octet, and the
      octet 0x0A ends a newline and nothing else. */
  lemma CharOctets(c: char)
    ensures !IsContinuation(EncodeChar(c)[0])
    ensures forall i :: 1 <= i < |EncodeChar(c)| ==> IsContinuation(EncodeChar(c)[i])
    ensures EncodeChar(c)[|EncodeChar(c)| - 1] == 0x0A <==> c == '\n'
  {
  }

  function Encode(text: string): (bytes: seq<Byte>) {
    if text == "" then [] else EncodeChar(text[0]) + Encode(text[1..])
  }

  /** UTF-8 size in octets. */
  function Size(text: string): nat {
    |Encode(text)|
  }

  lemma EncodeCons(c: char, rest: string)
    ensures Encode([c] + rest) == EncodeChar(c) + Encode(rest)
  {
  }

  lemma EncodeStep(c: char, rest: string, b: string)
    requires Encode(rest + b) == Encode(rest) + Encode(b)
    ensures Encode([c] + rest + b) == Encode([c] + rest) + Encode(b)
  {
    EncodeCons(c, rest);
    EncodeCons(c, rest + b);
    Associate([c], rest, b);
    Associate(EncodeChar(c), Encode(rest), Encode(b));
  }

  lemma {:induction false} EncodeConcat(a: string, b: string)
    ensures Encode(a + b) == Encode(a) + Encode(b)
  {
    if a == "" {
      assert a + b == b;
    } else {
      EncodeConcat(a[1..], b);
      assert a == [a[0]] + a[1..];
      EncodeStep(a[0], a[1..], b);
    }
  }

  lemma EncodeOne(c: char)
    ensures Encode([c]) == EncodeChar(c)
  {
  }

  /** Number of octets announced by a lead octet; 0 when it cannot lead. */
  function SequenceLength(lead: Byte): (n: nat)
    ensures n <= 4
  {
    if lead < 0x80 then 1
    else if lead < 0xC0 then 0
    else if lead < 0xE0 then 2
    else if lead < 0xF0 then 3
    else if lead < 0xF8 then 4
    else 0
  }

  /** The code point that the octets would stand for; -1 when they are not one
      lead octet followed by exactly its continuation octets. */
  function CodePoint(bytes: seq<Byte>): int {
    if |bytes| == 0 || SequenceLength(bytes[0]) != |bytes|
       || exists i :: 1 <= i < |bytes| && !IsContinuation(bytes[i]) then -1
    else if |bytes| == 1 then bytes[0]
    else if |bytes| == 2 then (bytes[0] as int - 0xC0) * 64 + Payload(bytes[1])
    else if |bytes| == 3 then (bytes[0] as int - 0xE0) * 4096 + Payload(bytes[1]) * 64 + Payload(bytes[2])
    else (bytes[0] as int - 0xF0) * 0x4_0000 + Payload(bytes[1]) * 4096 + Payload(bytes[2]) * 64 + Payload(bytes[3])
  }

  /** The six bits a continuation octet carries. */
  function Payload(b: Byte): int {
    b as int - 0x80
  }

  /** Decoding with errors replaced: an octet that starts no shortest-form
      character becomes one replacement character. */
  function Decode(bytes: seq<Byte>): string {
    if bytes == [] then ""
    else
      var n := SequenceLength(bytes[0]);
      var point := if n <= |bytes| then CodePoint(bytes[..n]) else -1;
      if (0 <= point < 0xD800 || 0xE000 <= point < 0x11_0000) && EncodeChar(point as char) == bytes[..n]
      then [point as char] + Decode(bytes[n..])
      else [REPLACEMENT] + Decode(bytes[1..])
  }

  lemma {:induction false} DecodeEncode(text: string)
    ensures Decode(Encode(text)) == text
  {
    if text != "" {
      var first := EncodeChar(text[0]);
      var bytes := Encode(text);
      assert bytes[..|first|] == first && bytes[|first|..] == Encode(text[1..]);
      CodePointOfChar(text[0]);
      DecodeEncode(text[1..]);
      assert [text[0]] + text[1..] == text;
    }
  }

  lemma CodePointOfChar(c: char)
    ensures SequenceLength(EncodeChar(c)[0]) == |EncodeChar(c)|
    ensures CodePoint(EncodeChar(c)) == c as int
  {
    var n := c as int;
    var bytes := EncodeChar(c);
    CharOctets(c);
    assert n == n / 64 * 64 + n % 64;
    assert n / 64 == n / 64 / 64 * 64 + n / 64 % 64 && n / 64 / 64 == n / 4096;
    assert n / 4096 == n / 4096 / 64 * 64 + n / 4096 % 64 && n / 4096 / 64 == n / 0x4_0000;
    assert forall i :: 1 <= i < |bytes| ==> IsContinuation(bytes[i]);
  }

  // ----- Lines -----

  predicate OneLine(line: string) {
    '\n' !in line
  }

  /** The line list of a text with one more character in front. */
  function PrependChar(c: char, lines: seq<string>): (r: seq<string>)
    requires |lines| >= 1
  {
    if c == '\n' then [""] + lines else [[c] + lines[0]] + lines[1..]
  }

  /** `text.split("\n")`: always at least one line. */
  function Split(text: string): (lines: seq<string>)
    ensures |lines| >= 1
  {
    if text == "" then [""] else PrependChar(text[0], Split(text[1..]))
  }

  predicate AllOneLine(lines: seq<string>) {
    forall i :: 0 <= i < |lines| ==> OneLine(lines[i])
  }

  lemma PrependOneLine(c: char, lines: seq<string>)
    requires |lines| >= 1 && AllOneLine(lines)
    ensures AllOneLine(PrependChar(c, lines))
  {
    if c != '\n' {
      assert OneLine(lines[0]);
    }
  }

  lemma {:induction false} SplitLines(text: string)
    ensures AllOneLine(Split(text))
  {
    if text != "" {
      SplitLines(text[1..]);
      PrependOneLine(text[0], Split(text[1..]));
    }
  }

  /** `"\n".join(lines)` */
  function Join(lines: seq<string>): string {
    if |lines| == 0 then ""
    else if |lines| == 1 then lines[0]
    else lines[0] + "\n" + Join(lines[1..])
  }

  lemma {:induction false} JoinSplit(text: string)
    ensures Join(Split(text)) == text
  {
    if text != "" {
      JoinSplit(text[1..]);
      var rest := Split(text[1..]);
      var lines := Split(text);
      assert text == [text[0]] + text[1..];
      if text[0] == '\n' {
        assert lines[1..] == rest;
      } else {
        assert lines[1..] == rest[1..];
      }
    }
  }

  /** The defining equation of Split, for a text given as head and tail. */
  lemma SplitCons(c: char, text: string)
    ensures Split([c] + text)
         == PrependChar(c, Split(text))
  {
  }

  lemma PrependCharConcat(c: char, a: seq<string>, b: seq<string>)
    requires |a| >= 1
    ensures PrependChar(c, a + b) == PrependChar(c, a) + b
  {
  }

  lemma {:induction false} SplitConcat(a: string, b: string)
    ensures Split(a + ['\n'] + b) == Split(a) + Split(b)
  {
    if a == "" {
      assert a + ['\n'] + b == ['\n'] + b;
      SplitCons('\n', b);
    } else {
      var tail := a[1..] + ['\n'] + b;
      SplitConcat(a[1..], b);
      assert a + ['\n'] + b == [a[0]] + tail by {
        assert a == [a[0]] + a[1..];
      }
      SplitCons(a[0], tail);
      assert Split(a) == PrependChar(a[0], Split(a[1..]));
      PrependCharConcat(a[0], Split(a[1..]), Split(b));
    }
  }

  lemma {:induction false} SplitOneLine(line: string)
    requires OneLine(line)
    ensures Split(line) == [line]
  {
    if line != "" {
      assert forall c :: c in line[1..] ==> c in line;
      SplitOneLine(line[1..]);
      assert line[0] in line && [line[0]] + line[1..] == line;
    }
  }

  lemma {:induction false} SplitJoin(lines: seq<string>)
    requires |lines| >= 1
    requires AllOneLine(lines)
    ensures Split(Join(lines)) == lines
  {
    SplitOneLine(lines[0]);
    if |lines| > 1 {
      SplitJoin(lines[1..]);
      SplitConcat(lines[0], Join(lines[1..]));
      assert lines == [lines[0]] + lines[1..];
    }
  }

  lemma {:induction false} JoinConcat(a: seq<string>, b: seq<string>)
    requires |a| >= 1 && |b| >= 1
    ensures Join(a + b) == Join(a) + "\n" + Join(b)
  {
    if |a| == 1 {
      assert (a + b)[1..] == b;
    } else {
      JoinConcat(a[1..], b);
      assert (a + b)[1..] == a[1..] + b;
    }
  }
}
