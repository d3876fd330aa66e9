/** Loading a file for editing and writing it back: byte-order mark and line endings. */
module EditFiles {
  import opened Prelude
  import opened Search

  const BOM: char := '\U{FEFF}'

  datatype LineEnding = LF | CRLF

  datatype LoadedFile = LoadedFile(bom: string, content: string, lineEnding: LineEnding)

  predicate StartsWithBom(text: string) {
    |text| > 0 && text[0] == BOM
  }

  function StripBom(raw: string): (string, string) {
    if StartsWithBom(raw) then ([BOM], raw[1..]) else ("", raw)
  }

  /** CRLF becomes LF, from left to right. */
  function ReplaceCrLf(text: string): (r: string)
    ensures r == "" <==> text == ""
  {
    if text == "" then ""
    else if |text| >= 2 && text[0] == '\r' && text[1] == '\n' then ['\n'] + ReplaceCrLf(text[2..])
    else [text[0]] + ReplaceCrLf(text[1..])
  }

  function ReplaceCr(text: string): (r: string)
    ensures '\r' !in r && |r| == |text|
  {
    if text == "" then "" else [if text[0] == '\r' then '\n' else text[0]] + ReplaceCr(text[1..])
  }

  function NormalizeToLf(text: string): (r: string)
    ensures '\r' !in r
    ensures r == "" <==> text == ""
  {
    ReplaceCr(ReplaceCrLf(text))
  }

  /** LF becomes CRLF. */
  function ExpandLf(text: string): string {
    if text == "" then "" else (if text[0] == '\n' then ['\r', '\n'] else [text[0]]) + ExpandLf(text[1..])
  }

  function RestoreLineEndings(text: string, ending: LineEnding): string {
    if ending == CRLF then ExpandLf(text) else text
  }

  /** Is the first line ending CRLF? */
  function DetectLineEnding(text: string): LineEnding {
    var crlf, lf := Find(text, "\r\n", 0), Find(text, "\n", 0);
    if lf.None? || crlf.None? then LF
    else if crlf.value < lf.value then CRLF
    else LF
  }

  function Load(raw: string): LoadedFile {
    var (bom, content) := StripBom(raw);
    LoadedFile(bom, NormalizeToLf(content), DetectLineEnding(content))
  }

  function Write(file: LoadedFile, text: string): string {
    file.bom + RestoreLineEndings(text, file.lineEnding)
  }

  // ----- What normalizing does -----

  /** Every line ending - CRLF, a lone CR or LF - as one LF, in one pass; every
      other character as it is, in order. */
  function OneLfPerEnding(text: string): string {
    if text == "" then ""
    else if text[0] == '\r' then
      ['\n'] + OneLfPerEnding(if |text| >= 2 && text[1] == '\n' then text[2..] else text[1..])
    else [text[0]] + OneLfPerEnding(text[1..])
  }

  lemma {:induction false} NormalizeIsOneLfPerEnding(text: string)
    ensures NormalizeToLf(text) == OneLfPerEnding(text)
  {
    if text != "" {
      if |text| >= 2 && text[0] == '\r' && text[1] == '\n' {
        NormalizeIsOneLfPerEnding(text[2..]);
      } else {
        NormalizeIsOneLfPerEnding(text[1..]);
        var rest := ReplaceCrLf(text[1..]);
        assert ([text[0]] + rest)[1..] == rest;
      }
    }
  }

  /** The first line ending decides: it is CRLF exactly when the first LF, at p, has
      a CR before it. */
  lemma FirstEndingDecides(text: string, p: nat)
    requires p < |text| && text[p] == '\n' && forall i :: 0 <= i < p ==> text[i] != '\n'
    ensures DetectLineEnding(text) == CRLF <==> p > 0 && text[p - 1] == '\r'
  {
    hide Find, OccursAt;
    FindsLf(text, p);
    FindIsFirst(text, "\r\n", 0);
    CrLfOccurs(text, p);
  }

  lemma NoEndingMeansLf(text: string)
    requires '\n' !in text
    ensures DetectLineEnding(text) == LF
  {
    hide Find;
    FindIsFirst(text, "\n", 0);
    LfOccurs(text);
  }

  lemma FindsLf(text: string, p: nat)
    requires p < |text| && text[p] == '\n' && forall i :: 0 <= i < p ==> text[i] != '\n'
    ensures Find(text, "\n", 0) == Some(p)
  {
    hide Find, OccursAt;
    FindIsFirst(text, "\n", 0);
    LfOccurs(text);
    assert OccursAt(text, "\n", p);
  }

  lemma LfOccurs(text: string)
    ensures forall i: nat :: OccursAt(text, "\n", i) <==> i < |text| && text[i] == '\n'
  {
    forall i: nat
      ensures OccursAt(text, "\n", i) <==> i < |text| && text[i] == '\n'
    {
      assert i < |text| ==> text[i..i + 1] == [text[i]];
    }
  }

  lemma CrLfOccurs(text: string, first: nat)
    requires first < |text| && text[first] == '\n' && forall i :: 0 <= i < first ==> text[i] != '\n'
    ensures (exists i: nat :: i < first && OccursAt(text, "\r\n", i)) <==> first > 0 && text[first - 1] == '\r'
  {
    if first > 0 && text[first - 1] == '\r' {
      assert text[first - 1..first + 1] == ['\r', '\n'];
      assert OccursAt(text, "\r\n", first - 1);
    }
    forall i: nat | i < first && OccursAt(text, "\r\n", i)
      ensures i + 1 == first && text[i] == '\r'
    {
      assert text[i..i + 2][0] == '\r' && text[i..i + 2][1] == '\n';
    }
  }

  // ----- Uniform line endings -----

  /** Every line ends with LF and there is no CR. */
  predicate UniformLf(text: string) {
    '\r' !in text
  }

  /** CR and LF occur only as CRLF. */
  predicate UniformCrLf(text: string) {
    if text == "" then true
    else if text[0] == '\r' then |text| >= 2 && text[1] == '\n' && UniformCrLf(text[2..])
    else text[0] != '\n' && UniformCrLf(text[1..])
  }

  // ----- Detection -----

  /** The ending is CRLF exactly when the first LF follows a CR. */
  lemma {:induction false} DetectCons(c: char, text: string)
    ensures DetectLineEnding([c] + text)
         == if c == '\n' then LF
            else if c == '\r' && text != "" && text[0] == '\n' then CRLF
            else DetectLineEnding(text)
  {
    var all := [c] + text;
    FindShift(c, text, "\r\n");
    FindShift(c, text, "\n");
    assert OccursAt(all, "\n", 0) <==> c == '\n' by {
      assert all[0..1] == [c];
    }
    assert OccursAt(all, "\r\n", 0) <==> c == '\r' && text != "" && text[0] == '\n' by {
      if text != "" {
        assert all[0..2] == [c, text[0]];
      }
    }
    if text != "" && text[0] == '\n' {
      assert text[0..1] == "\n";
    }
  }

  lemma OccursShift(c: char, text: string, pattern: string, i: nat)
    ensures OccursAt([c] + text, pattern, i + 1) <==> OccursAt(text, pattern, i)
  {
    if i + |pattern| <= |text| {
      assert ([c] + text)[i + 1..i + 1 + |pattern|] == text[i..i + |pattern|];
    }
  }

  function Shifted(r: Option<nat>): Option<nat> {
    if r.Some? then Some(r.value + 1) else None
  }

  lemma FindShift(c: char, text: string, pattern: string)
    ensures Find([c] + text, pattern, 0)
         == if OccursAt([c] + text, pattern, 0) then Some(0) else Shifted(Find(text, pattern, 0))
  {
    var all := [c] + text;
    var r, s := Find(all, pattern, 0), Find(text, pattern, 0);
    FindIsFirst(all, pattern, 0);
    FindIsFirst(text, pattern, 0);
    if !OccursAt(all, pattern, 0) {
      if r.Some? {
        OccursShift(c, text, pattern, r.value - 1);
      }
      if s.Some? {
        OccursShift(c, text, pattern, s.value);
        forall i | 0 <= i < s.value + 1
          ensures !OccursAt(all, pattern, i)
        {
          if i > 0 { OccursShift(c, text, pattern, i - 1); }
        }
      }
    }
  }

  lemma {:induction false} DetectUniform(text: string)
    ensures UniformLf(text) ==> DetectLineEnding(text) == LF
    ensures UniformCrLf(text) ==> DetectLineEnding(text) == if '\n' in text then CRLF else LF
    ensures UniformCrLf(text) && '\n' !in text ==> UniformLf(text)
  {
    if text != "" {
      assert text == [text[0]] + text[1..];
      DetectCons(text[0], text[1..]);
      if text[0] == '\r' && UniformCrLf(text) {
        assert '\n' == text[1];
      } else {
        DetectUniform(text[1..]);
      }
    }
  }

  // ----- Normalizing and restoring -----

  lemma {:induction false} NormalizeCrFree(text: string)
    requires '\r' !in text
    ensures NormalizeToLf(text) == text
  {
    if text != "" {
      NormalizeCrFree(text[1..]);
      assert text[0] in text;
      assert ReplaceCrLf(text) == [text[0]] + ReplaceCrLf(text[1..]);
      assert ReplaceCrLf(text)[1..] == ReplaceCrLf(text[1..]);
    }
  }

  lemma {:induction false} NormalizeExpanded(text: string)
    requires '\r' !in text
    ensures NormalizeToLf(ExpandLf(text)) == text
    ensures UniformCrLf(ExpandLf(text))
    ensures '\n' in ExpandLf(text) <==> '\n' in text
  {
    if text != "" {
      var rest := ExpandLf(text[1..]);
      var head := if text[0] == '\n' then ['\r', '\n'] else [text[0]];
      NormalizeExpanded(text[1..]);
      assert text[0] in text;
      var all := head + rest;
      assert all[|head|..] == rest;
      assert ReplaceCrLf(all) == [text[0]] + ReplaceCrLf(rest);
      assert ReplaceCrLf(all)[1..] == ReplaceCrLf(rest);
    }
  }

  lemma {:induction false} ExpandNormalized(text: string)
    requires UniformCrLf(text)
    ensures ExpandLf(NormalizeToLf(text)) == text
  {
    if text != "" {
      var n := if text[0] == '\r' then 2 else 1;
      var c := if text[0] == '\r' then '\n' else text[0];
      ExpandNormalized(text[n..]);
      var replaced := ReplaceCrLf(text);
      assert replaced == [c] + ReplaceCrLf(text[n..]);
      assert replaced[1..] == ReplaceCrLf(text[n..]);
      var normal := NormalizeToLf(text);
      assert normal == [c] + NormalizeToLf(text[n..]);
      assert normal[1..] == NormalizeToLf(text[n..]);
      assert text == text[..n] + text[n..];
    }
  }

  // ----- Round trips -----

  /** A file is restored exactly when its line endings are uniform. */
  lemma LoadThenWrite(raw: string)
    ensures var file := Load(raw);
            var (_, content) := StripBom(raw);
            Write(file, file.content) == raw <==> UniformLf(content) || UniformCrLf(content)
  {
    var file := Load(raw);
    var (bom, content) := StripBom(raw);
    var restored := RestoreLineEndings(file.content, file.lineEnding);
    assert raw == bom + content;
    assert Write(file, file.content) == raw <==> restored == content by {
      assert (bom + restored)[|bom|..] == restored && (bom + content)[|bom|..] == content;
    }
    DetectUniform(content);
    NormalizeExpanded(file.content);
    if UniformLf(content) {
      NormalizeCrFree(content);
    } else if UniformCrLf(content) {
      ExpandNormalized(content);
    }
  }

  /** Loading gives back what was written exactly when the text has no CR, its
      first character cannot be taken for a byte-order mark, and it has a line
      ending to recognise CRLF by. */
  lemma WriteThenLoad(file: LoadedFile, text: string)
    requires file.bom == "" || file.bom == [BOM]
    ensures Load(Write(file, text)) == file.(content := text)
       <==> && '\r' !in text
            && (file.bom == [BOM] || !StartsWithBom(text))
            && (file.lineEnding == LF || '\n' in text)
  {
    var body := RestoreLineEndings(text, file.lineEnding);
    var raw := Write(file, text);
    assert StartsWithBom(body) <==> StartsWithBom(text);
    assert file.bom == [BOM] ==> raw[1..] == body;
    assert file.bom == "" ==> raw == body;
    if '\r' !in text {
      NormalizeCrFree(text);
      NormalizeExpanded(text);
      DetectUniform(body);
    }
  }
}
