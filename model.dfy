/**
 * The snapshot document of lc.py as values: entries, codebases and the document,
 * and the text the encoder writes for each (`to_string`).
 */
module Model {
  import opened Text
  import opened Usage

  /** What a fresh LCDocument holds as its instructions: `INSTRUCTIONS_TEXT.strip()`. */
  function DefaultInstructions(): string {
    Strip(InstructionsText)
  }

  /** A FileEntry (path, content, tokens) or a DirectoryEntry (path, tokens).  Both are
      written once, in their constructor, and never changed. */
  datatype Entry =
    | FileEntry(path: string, content: string, tokens: nat)
    | DirectoryEntry(path: string, tokens: nat)

  /** `FileEntry.lines`: `len(content.splitlines()) if content else 0`. */
  function FileLines(content: string): nat {
    if content == [] then 0 else LineCount(content)
  }

  /** No lines for empty content, at least one otherwise, never more than characters;
      with "\n" as the only line boundary, one line per "\n" plus an unterminated last one. */
  lemma FileLinesCount(content: string)
    ensures (FileLines(content) == 0) == (content == [])
    ensures FileLines(content) <= |content|
    ensures OnlyNewlineBreaks(content) ==>
      FileLines(content)
        == CountChar(content, '\n') + (if content != [] && content[|content| - 1] != '\n' then 1 else 0)
  {
    LineCountBounds(content);
    if OnlyNewlineBreaks(content) {
      LineCountNewlines(content);
    }
  }

  /** The value held by a Codebase object: its root path and its entries in order. */
  datatype Snapshot = Snapshot(path: string, entries: seq<Entry>)

  /** The value held by an LCDocument object. */
  datatype Document = Document(instructions: string, codebases: seq<Snapshot>)

  // ---------------------------------------------------------------------------
  // Encoder
  // ---------------------------------------------------------------------------

  /** `sep.join(lines)`. */
  function Join(lines: seq<string>, sep: string): string
    decreases |lines|
  {
    if |lines| == 0 then ""
    else if |lines| == 1 then lines[0]
    else Join(lines[..|lines| - 1], sep) + sep + lines[|lines| - 1]
  }

  /** FileEntry.to_string / DirectoryEntry.to_string: one tag, no escaping. */
  function EncodeEntry(e: Entry): (r: string)
    ensures e.FileEntry? ==> StartsWith(r, "<file path=\"" + e.path) && EndsWith(r, "</file>")
    ensures e.DirectoryEntry? ==>
      StartsWith(r, "<directory path=\"" + e.path) && EndsWith(r, "\"></directory>")
  {
    match e
    case FileEntry(path, content, tokens) =>
      FramedFile("<file path=\"" + path, "\" tokens=\"", DecimalString(tokens), "\">", content, "</file>");
      "<file path=\"" + path + "\" tokens=\"" + DecimalString(tokens) + "\">" + content + "</file>"
    case DirectoryEntry(path, tokens) =>
      Framed3("<directory path=\"" + path, "\" tokens=\"", DecimalString(tokens), "\"></directory>");
      "<directory path=\"" + path + "\" tokens=\"" + DecimalString(tokens) + "\"></directory>"
  }

  /** A text made of pieces starts with its first piece and ends with its last. */
  lemma Framed(p: string, a: string, z: string)
    ensures StartsWith(p + a + z, p) && EndsWith(p + a + z, z)
  {
    var t := p + a + z;
    assert t[..|p|] == p;
    assert t[|t| - |z|..] == z;
  }

  lemma Framed3(p: string, a: string, b: string, z: string)
    ensures StartsWith(p + a + b + z, p) && EndsWith(p + a + b + z, z)
  {
    Framed(p, a + b, z);
    assert p + a + b + z == p + (a + b) + z;
  }

  lemma FramedFile(p: string, a: string, b: string, c: string, d: string, z: string)
    ensures StartsWith(p + a + b + c + d + z, p) && EndsWith(p + a + b + c + d + z, z)
  {
    Framed(p, a + b + c + d, z);
    assert p + a + b + c + d + z == p + (a + b + c + d) + z;
  }

  /** One "\n" and one tag per entry, in order. */
  function EncodeEntries(es: seq<Entry>): string
    decreases |es|
  {
    if es == [] then "" else "\n" + EncodeEntry(es[0]) + EncodeEntries(es[1..])
  }

  /** The header line `<codebase path="…">` of a codebase. */
  function CodebaseHeader(path: string): string {
    "<codebase path=\"" + path + "\">"
  }

  /** Codebase.to_string: the header, one line per entry, then `</codebase>`, joined by "\n". */
  function EncodeCodebase(c: Snapshot): string {
    CodebaseHeader(c.path) + EncodeEntries(c.entries) + "\n</codebase>"
  }

  /** One "\n" and one codebase block per codebase, in order. */
  function EncodeCodebases(cs: seq<Snapshot>): string
    decreases |cs|
  {
    if cs == [] then "" else "\n" + EncodeCodebase(cs[0]) + EncodeCodebases(cs[1..])
  }

  /** The lines `<lc>`, `<instructions>`, the instructions and `</instructions>`, joined by "\n". */
  function DocumentHead(instructions: string): string {
    "<lc>\n<instructions>\n" + instructions + "\n</instructions>"
  }

  /** LCDocument.to_string. */
  function EncodeDocument(d: Document): string {
    DocumentHead(d.instructions) + EncodeCodebases(d.codebases) + "\n</lc>"
  }

  /** A document's text starts with its head: `<lc>` and the instructions block. */
  lemma EncodedHead(d: Document)
    ensures StartsWith(EncodeDocument(d), DocumentHead(d.instructions))
  {
    Framed(DocumentHead(d.instructions), EncodeCodebases(d.codebases), "\n</lc>");
  }

  // ---------------------------------------------------------------------------
  // The encoder read line by line, as the to_string methods build it
  // ---------------------------------------------------------------------------

  lemma JoinSnoc(lines: seq<string>, x: string, sep: string)
    requires lines != []
    ensures Join(lines + [x], sep) == Join(lines, sep) + sep + x
  {
    assert (lines + [x])[..|lines|] == lines;
  }

  lemma EncodeEntriesSnoc(es: seq<Entry>, e: Entry)
    ensures EncodeEntries(es + [e]) == EncodeEntries(es) + "\n" + EncodeEntry(e)
  {
    EncodeEntriesAppend(es, [e]);
    assert [e][1..] == [];
    assert EncodeEntries([e]) == "\n" + EncodeEntry(e);
  }

  lemma EncodeCodebasesSnoc(cs: seq<Snapshot>, c: Snapshot)
    ensures EncodeCodebases(cs + [c]) == EncodeCodebases(cs) + "\n" + EncodeCodebase(c)
  {
    EncodeCodebasesAppend(cs, [c]);
    assert [c][1..] == [];
    assert EncodeCodebases([c]) == "\n" + EncodeCodebase(c);
  }

  lemma {:induction false} EncodeEntriesAppend(a: seq<Entry>, b: seq<Entry>)
    ensures EncodeEntries(a + b) == EncodeEntries(a) + EncodeEntries(b)
    decreases |a|
  {
    if a == [] {
      assert a + b == b;
    } else {
      assert (a + b)[0] == a[0];
      assert (a + b)[1..] == a[1..] + b;
      EncodeEntriesAppend(a[1..], b);
    }
  }

  lemma {:induction false} EncodeCodebasesAppend(a: seq<Snapshot>, b: seq<Snapshot>)
    ensures EncodeCodebases(a + b) == EncodeCodebases(a) + EncodeCodebases(b)
    decreases |a|
  {
    if a == [] {
      assert a + b == b;
    } else {
      assert (a + b)[0] == a[0];
      assert (a + b)[1..] == a[1..] + b;
      EncodeCodebasesAppend(a[1..], b);
    }
  }
}
