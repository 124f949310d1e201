/**
 * The decoder of lc.py: `LCDocument.from_string` and `Codebase.from_string` as
 * functions on the text.  Each regular expression is a matcher anchored at the start
 * of the remaining text; `re.finditer` and `re.search` are scans that try the matcher
 * at every position, left to right, and resume after the end of each match.
 */
module Codec {
  import opened Wrappers
  import opened Text
  import opened Scanner
  import opened Usage
  import opened Model

  /** A decoded value and the text after the match that produced it. */
  datatype Found<T> = Found(value: T, rest: string)

  /** What one codebase match yields: its path attribute and the text up to `</codebase>`. */
  datatype Block = Block(path: string, body: string)

  /** An entry path or a codebase path as the decoder can yield it: `[^"]+`. */
  predicate IsAttribute(s: string) {
    s != [] && '"' !in s
  }

  // ---------------------------------------------------------------------------
  // Codebase.from_string
  // ---------------------------------------------------------------------------

  /** `"\s+tokens="(\d+)` at the start of `t`: the digits, and the text after them. */
  function TokensAttribute(t: string): (r: Option<Cut>)
    ensures r.Some? ==> |r.value.rest| < |t| && r.value.taken != [] && AllDigits(r.value.taken)
  {
    var t1 :- Lit(t, "\"");
    var t2 :- Spaces1(t1);
    var t3 :- Lit(t2, "tokens=\"");
    Digits1(t3)
  }

  /** `<file\s+path="([^"]+)"\s+tokens="(\d+)">(.*?)</file>` (DOTALL) at the start of `t`. */
  function MatchFile(t: string): (r: Option<Found<Entry>>)
    ensures r.Some? ==> StartsWith(t, "<file") && |r.value.rest| < |t|
    ensures r.Some? ==> r.value.value.FileEntry? && IsAttribute(r.value.value.path)
  {
    var t1 :- Lit(t, "<file");
    var t2 :- Spaces1(t1);
    var t3 :- Lit(t2, "path=\"");
    var p :- NonQuote1(t3);
    var d :- TokensAttribute(p.rest);
    var t4 :- Lit(d.rest, "\">");
    var c :- UpTo(t4, "</file>");
    Some(Found(FileEntry(p.taken, c.taken, ParseDecimal(d.taken)), c.rest))
  }

  /** `<directory\s+path="([^"]+)"\s+tokens="(\d+)".*?</directory>` at the start of `t`;
      without DOTALL the `.*?` cannot cross a line feed. */
  function MatchDirectory(t: string): (r: Option<Found<Entry>>)
    ensures r.Some? ==> StartsWith(t, "<directory") && |r.value.rest| < |t|
    ensures r.Some? ==> r.value.value.DirectoryEntry? && IsAttribute(r.value.value.path)
  {
    var t1 :- Lit(t, "<directory");
    var t2 :- Spaces1(t1);
    var t3 :- Lit(t2, "path=\"");
    var p :- NonQuote1(t3);
    var d :- TokensAttribute(p.rest);
    var t4 :- Lit(d.rest, "\"");
    var c :- UpTo(t4, "</directory>");
    if '\n' in c.taken then None
    else Some(Found(DirectoryEntry(p.taken, ParseDecimal(d.taken)), c.rest))
  }

  /** The opening text of the entry pattern. */
  function EntryTag(dir: bool): string {
    if dir then "<directory" else "<file"
  }

  /** The file pattern, or the directory pattern when `dir` holds. */
  function MatchEntry(dir: bool, t: string): (r: Option<Found<Entry>>)
    ensures r.Some? ==> StartsWith(t, EntryTag(dir)) && |r.value.rest| < |t|
    ensures r.Some? ==> r.value.value.DirectoryEntry? == dir && IsAttribute(r.value.value.path)
  {
    if dir then MatchDirectory(t) else MatchFile(t)
  }

  /** `re.finditer` with the entry pattern over `t`: every entry in order of position. */
  function ScanEntries(dir: bool, t: string): (r: seq<Entry>)
    ensures forall k | 0 <= k < |r| :: r[k].DirectoryEntry? == dir && IsAttribute(r[k].path)
    decreases |t|
  {
    if t == [] then []
    else match MatchEntry(dir, t)
      case Some(f) =>
        var rest := ScanEntries(dir, f.rest);
        EntriesCons(dir, f.value, rest);
        [f.value] + rest
      case None => ScanEntries(dir, t[1..])
  }

  lemma EntriesCons(dir: bool, e: Entry, rest: seq<Entry>)
    requires e.DirectoryEntry? == dir && IsAttribute(e.path)
    requires forall k | 0 <= k < |rest| :: rest[k].DirectoryEntry? == dir && IsAttribute(rest[k].path)
    ensures forall k | 0 <= k < |[e] + rest| ::
      ([e] + rest)[k].DirectoryEntry? == dir && IsAttribute(([e] + rest)[k].path)
  {
    forall k | 1 <= k < |[e] + rest| ensures ([e] + rest)[k] == rest[k - 1] {
    }
  }

  /** Codebase.from_string: every file of the body, then every directory of the body. */
  function DecodeCodebase(path: string, body: string): (r: Snapshot)
    ensures r.path == path
    ensures FilesFirst(r.entries)
  {
    var files := ScanEntries(false, body);
    var dirs := ScanEntries(true, body);
    FilesThenDirectories(files, dirs);
    Snapshot(path, files + dirs)
  }

  /** No directory entry stands before a file entry. */
  predicate FilesFirst(es: seq<Entry>) {
    forall i, j | 0 <= i < j < |es| :: es[i].DirectoryEntry? ==> es[j].DirectoryEntry?
  }

  lemma FilesThenDirectories(files: seq<Entry>, dirs: seq<Entry>)
    requires forall k | 0 <= k < |files| :: files[k].FileEntry?
    requires forall k | 0 <= k < |dirs| :: dirs[k].DirectoryEntry?
    ensures FilesFirst(files + dirs)
  {
    var es := files + dirs;
    assert forall k | 0 <= k < |files| :: es[k].FileEntry? by {
      forall k | 0 <= k < |files| ensures es[k].FileEntry? {
        assert es[k] == files[k];
      }
    }
    forall i, j | 0 <= i < j < |es| && es[i].DirectoryEntry?
      ensures es[j].DirectoryEntry?
    {
      assert es[j] == dirs[j - |files|];
    }
  }

  // ---------------------------------------------------------------------------
  // LCDocument.from_string
  // ---------------------------------------------------------------------------

  /** `<codebase\s+path="([^"]+)">(.*?)</codebase>` (DOTALL) at the start of `t`. */
  function MatchCodebase(t: string): (r: Option<Found<Block>>)
    ensures r.Some? ==> StartsWith(t, "<codebase") && |r.value.rest| < |t|
    ensures r.Some? ==> IsAttribute(r.value.value.path)
  {
    var t1 :- Lit(t, "<codebase");
    var t2 :- Spaces1(t1);
    var t3 :- Lit(t2, "path=\"");
    var p :- NonQuote1(t3);
    var t4 :- Lit(p.rest, "\">");
    var c :- UpTo(t4, "</codebase>");
    Some(Found(Block(p.taken, c.taken), c.rest))
  }

  /** `re.finditer` with the codebase pattern over `t`, each block decoded. */
  function ScanCodebases(t: string): (r: seq<Snapshot>)
    ensures forall k | 0 <= k < |r| :: IsAttribute(r[k].path) && FilesFirst(r[k].entries)
    decreases |t|
  {
    if t == [] then []
    else match MatchCodebase(t)
      case Some(f) =>
        var rest := ScanCodebases(f.rest);
        var c := DecodeCodebase(f.value.path, f.value.body);
        CodebasesCons(c, rest);
        [c] + rest
      case None => ScanCodebases(t[1..])
  }

  lemma CodebasesCons(c: Snapshot, rest: seq<Snapshot>)
    requires IsAttribute(c.path) && FilesFirst(c.entries)
    requires forall k | 0 <= k < |rest| :: IsAttribute(rest[k].path) && FilesFirst(rest[k].entries)
    ensures forall k | 0 <= k < |[c] + rest| ::
      IsAttribute(([c] + rest)[k].path) && FilesFirst(([c] + rest)[k].entries)
  {
    forall k | 1 <= k < |[c] + rest| ensures ([c] + rest)[k] == rest[k - 1] {
    }
  }

  /** `<instructions>(.*?)</instructions>` (DOTALL) at the start of `t`: the group. */
  function MatchInstructions(t: string): (r: Option<string>)
    ensures r.Some? ==> StartsWith(t, "<instructions>")
  {
    var t1 :- Lit(t, "<instructions>");
    var c :- UpTo(t1, "</instructions>");
    Some(c.taken)
  }

  /** `re.search` with the instructions pattern: the leftmost match. */
  function SearchInstructions(t: string): Option<string>
    decreases |t|
  {
    if t == [] then None
    else match MatchInstructions(t)
      case Some(s) => Some(s)
      case None => SearchInstructions(t[1..])
  }

  /** The document's instructions: the stripped group of the leftmost instructions
      block, or the default instructions when there is none. */
  function InstructionsOf(content: string): (r: string)
    ensures IsStripped(r)
  {
    match SearchInstructions(content)
    case Some(s) =>
      StripIsStripped(s);
      Strip(s)
    case None =>
      StripIsStripped(InstructionsText);
      DefaultInstructions()
  }

  /** LCDocument.from_string: None unless the text is non-empty and holds `<lc>`;
      otherwise the instructions and every codebase block, in order. */
  function DecodeDocument(content: string): (r: Option<Document>)
    ensures r.Some? <==> content != [] && Contains(content, "<lc>")
    ensures r.Some? ==> IsStripped(r.value.instructions)
    ensures r.Some? ==> forall k | 0 <= k < |r.value.codebases| ::
      IsAttribute(r.value.codebases[k].path) && FilesFirst(r.value.codebases[k].entries)
  {
    if content == [] || !Contains(content, "<lc>") then None
    else Some(Document(InstructionsOf(content), ScanCodebases(content)))
  }
}
