/**
 * What `from_string` makes of the text `to_string` writes.  The encoder escapes
 * nothing, so the round trip holds for documents whose attributes and contents
 * cannot be mistaken for the surrounding tags (`Valid*` below); the decoder also
 * lists every file of a codebase before every directory of it, so a codebase comes
 * back with its entries in that order (`Normalize`).
 */
module RoundTrip {
  import opened Wrappers
  import opened Text
  import opened Scanner
  import opened Usage
  import opened Model
  import opened Codec

  // ---------------------------------------------------------------------------
  // Documents the encoder writes unambiguously
  // ---------------------------------------------------------------------------

  /** An entry path: a non-empty attribute without `"` and without `<`. */
  predicate ValidEntryPath(p: string) {
    IsAttribute(p) && '<' !in p
  }

  /** File contents that cannot close the file or the codebase early, nor open a
      directory tag. */
  predicate ValidContent(c: string) {
    !Contains(c, "</file>") && !Contains(c, "</codebase>") && !Contains(c, "<directory")
  }

  predicate ValidEntry(e: Entry) {
    ValidEntryPath(e.path) && (e.FileEntry? ==> ValidContent(e.content))
  }

  predicate ValidSnapshot(s: Snapshot) {
    IsAttribute(s.path) && forall k | 0 <= k < |s.entries| :: ValidEntry(s.entries[k])
  }

  /** Instructions that come back unchanged: already stripped, without `"` (so no
      codebase tag can start inside them) and without the closing tag. */
  predicate ValidInstructions(i: string) {
    IsStripped(i) && '"' !in i && !Contains(i, "</instructions>")
  }

  predicate ValidDocument(d: Document) {
    && ValidInstructions(d.instructions)
    && forall k | 0 <= k < |d.codebases| :: ValidSnapshot(d.codebases[k])
  }

  // ---------------------------------------------------------------------------
  // The order the decoder gives back
  // ---------------------------------------------------------------------------

  /** The entries of one kind (directories when `dir` holds), in order. */
  function EntriesOfKind(dir: bool, es: seq<Entry>): (r: seq<Entry>)
    ensures |r| <= |es|
    ensures forall k | 0 <= k < |r| :: r[k].DirectoryEntry? == dir && r[k] in es
    decreases |es|
  {
    if es == [] then []
    else (if es[0].DirectoryEntry? == dir then [es[0]] else []) + EntriesOfKind(dir, es[1..])
  }

  /** The snapshot with its files moved before its directories. */
  function Normalize(s: Snapshot): Snapshot {
    Snapshot(s.path, EntriesOfKind(false, s.entries) + EntriesOfKind(true, s.entries))
  }

  function NormalizeAll(cs: seq<Snapshot>): (r: seq<Snapshot>)
    ensures |r| == |cs| && forall k | 0 <= k < |cs| :: r[k] == Normalize(cs[k])
    decreases |cs|
  {
    if cs == [] then [] else [Normalize(cs[0])] + NormalizeAll(cs[1..])
  }

  /** Entries that are all directories: the files are none and the directories all. */
  lemma {:induction false} AllDirectories(es: seq<Entry>)
    requires forall k | 0 <= k < |es| :: es[k].DirectoryEntry?
    ensures EntriesOfKind(false, es) == [] && EntriesOfKind(true, es) == es
    decreases |es|
  {
    if es != [] {
      var t := es[1..];
      assert forall k | 0 <= k < |t| :: t[k] == es[k + 1];
      AllDirectories(t);
      assert EntriesOfKind(false, es) == [] + EntriesOfKind(false, t);
      assert EntriesOfKind(true, es) == [es[0]] + EntriesOfKind(true, t);
      assert es == [es[0]] + t;
    }
  }

  /** Normalizing leaves a snapshot whose files already come first unchanged. */
  lemma {:induction false} NormalizeFilesFirst(es: seq<Entry>)
    requires FilesFirst(es)
    ensures EntriesOfKind(false, es) + EntriesOfKind(true, es) == es
    decreases |es|
  {
    if es != [] {
      if es[0].DirectoryEntry? {
        AllDirectories(es);
      } else {
        FilesFirstTail(es);
        NormalizeFilesFirst(es[1..]);
        var files, dirs := EntriesOfKind(false, es[1..]), EntriesOfKind(true, es[1..]);
        assert EntriesOfKind(false, es) == [es[0]] + files;
        assert EntriesOfKind(true, es) == dirs;
        ConsSplit(es[0], files, dirs, es[1..]);
        assert es == [es[0]] + es[1..];
      }
    }
  }

  lemma ConsSplit(x: Entry, f: seq<Entry>, d: seq<Entry>, t: seq<Entry>)
    requires f + d == t
    ensures [x] + f + d == [x] + t
  {
  }

  lemma FilesFirstTail(es: seq<Entry>)
    requires es != [] && FilesFirst(es)
    ensures FilesFirst(es[1..])
  {
    forall i, j | 0 <= i < j < |es[1..]| && es[1..][i].DirectoryEntry?
      ensures es[1..][j].DirectoryEntry?
    {
      assert es[1..][i] == es[i + 1] && es[1..][j] == es[j + 1];
    }
  }

  // ---------------------------------------------------------------------------
  // Where no tag starts
  // ---------------------------------------------------------------------------

  lemma NoStartTail(x: string, y: string, w: string)
    requires x != [] && NoStart(x, y, w)
    ensures NoStart(x[1..], y, w)
  {
    forall i | 0 <= i < |x[1..]| ensures !StartsWith(x[1..][i..] + y, w) {
      assert x[1..][i..] == x[i + 1..];
    }
  }

  lemma DigitsLtFree(d: string)
    requires AllDigits(d)
    ensures '<' !in d && '"' !in d
  {
    forall k | 0 <= k < |d| ensures d[k] != '<' && d[k] != '"' {
      assert IsDigit(d[k]);
    }
  }

  /** The tags a file entry can hide: none of them starts inside it. */
  predicate TagOutsideFile(w: string) {
    w == "</codebase>" || w == "<directory"
  }

  /** The tags a directory entry can hide. */
  predicate TagOutsideDirectory(w: string) {
    w == "</codebase>" || w == "<file"
  }

  lemma NoTagInFileOpening(p: string, d: string, z: string, w: string)
    requires '<' !in p && '<' !in d && TagOutsideFile(w)
    ensures NoStart("<file path=\"" + p + "\" tokens=\"" + d + "\">", z, w)
  {
    FileTagLetters(w);
    AttributeOpeningNoStart("<file path=\"", p, d, z, w);
  }

  /** The file tag's second character is not that of a tag found outside a file. */
  lemma FileTagLetters(w: string)
    requires TagOutsideFile(w)
    ensures var tag := "<file path=\"";
      '<' !in tag[1..] && |w| >= 2 && w[0] == '<' && w[1] != tag[1]
  {
    assert "<file path=\""[1..] == "file path=\"";
  }

  /** The directory tag's second character is not that of a tag found outside a
      directory. */
  lemma DirectoryTagLetters(w: string)
    requires TagOutsideDirectory(w)
    ensures var tag := "<directory path=\"";
      '<' !in tag[1..] && |w| >= 2 && w[0] == '<' && w[1] != tag[1]
  {
    assert "<directory path=\""[1..] == "directory path=\"";
  }

  /** An opening tag with path and tokens attributes of `<`-free values starts no `w`
      whose second character differs from the tag's. */
  lemma AttributeOpeningNoStart(tag: string, p: string, d: string, z: string, w: string)
    requires |tag| >= 2 && '<' !in tag[1..] && '<' !in p && '<' !in d
    requires |w| >= 2 && w[0] == '<' && w[1] != tag[1]
    ensures NoStart(tag + p + "\" tokens=\"" + d + "\">", z, w)
  {
    assert '<' !in "\" tokens=\"" && '<' !in "\">";
    Regroup(tag, p, "\" tokens=\"", d, "\">");
    OpeningNoStart(tag, p + "\" tokens=\"" + d + "\">", z, w);
  }

  lemma Regroup(a: string, b: string, c: string, d: string, e: string)
    ensures a + b + c + d + e == a + (b + c + d + e)
  {
  }

  /** An opening tag whose second character differs from the second character of `w`,
      and that holds no other `<`, starts no `w`. */
  lemma OpeningNoStart(tag: string, rest: string, z: string, w: string)
    requires |tag| >= 2 && '<' !in tag[1..] && '<' !in rest
    requires |w| >= 2 && w[0] == '<' && w[1] != tag[1]
    ensures NoStart(tag + rest, z, w)
  {
    var a := tag + rest;
    assert a[1..] == tag[1..] + rest;
    TagNoStart(a, z, w);
  }

  /** A tag-like text whose second character differs from that of `w`, and that holds
      no other `<`, starts no `w`. */
  lemma TagNoStart(a: string, z: string, w: string)
    requires |a| >= 2 && '<' !in a[1..]
    requires |w| >= 2 && w[0] == '<' && w[1] != a[1]
    ensures NoStart(a, z, w)
  {
    assert (a + z)[1] == a[1];
    NotStartsWith(a + z, w, 1);
    NoStartHead(a, z, w);
  }

  lemma NoTagInFileClosing(y: string, w: string)
    requires TagOutsideFile(w)
    ensures NoStart("</file>", y, w)
  {
    NotStartsWith("</file>" + y, w, if w == "</codebase>" then 2 else 1);
    NoStartHead("</file>", y, w);
  }

  lemma NoTagInFile(p: string, c: string, d: string, y: string, w: string)
    requires '<' !in p && '<' !in d && ValidContent(c) && TagOutsideFile(w)
    ensures NoStart("<file path=\"" + p + "\" tokens=\"" + d + "\">" + c + "</file>", y, w)
  {
    var a := "<file path=\"" + p + "\" tokens=\"" + d + "\">";
    var b := "</file>";
    NoTagInFileOpening(p, d, c + (b + y), w);
    NoStartContained(c, b + y, w);
    NoTagInFileClosing(y, w);
    NoStartConcat(a, c, b + y, w);
    NoStartConcat(a + c, b, y, w);
  }

  lemma NoTagInDirectoryOpening(p: string, d: string, z: string, w: string)
    requires '<' !in p && '<' !in d && TagOutsideDirectory(w)
    ensures NoStart("<directory path=\"" + p + "\" tokens=\"" + d + "\">", z, w)
  {
    DirectoryTagLetters(w);
    AttributeOpeningNoStart("<directory path=\"", p, d, z, w);
  }

  lemma NoTagInDirectoryClosing(y: string, w: string)
    requires TagOutsideDirectory(w)
    ensures NoStart("</directory>", y, w)
  {
    NotStartsWith("</directory>" + y, w, if w == "</codebase>" then 2 else 1);
    NoStartHead("</directory>", y, w);
  }

  lemma NoTagInDirectory(p: string, d: string, y: string, w: string)
    requires '<' !in p && '<' !in d && TagOutsideDirectory(w)
    ensures NoStart("<directory path=\"" + p + "\" tokens=\"" + d + "\"></directory>", y, w)
  {
    var a := "<directory path=\"" + p + "\" tokens=\"" + d + "\">";
    var b := "</directory>";
    NoTagInDirectoryOpening(p, d, b + y, w);
    NoTagInDirectoryClosing(y, w);
    NoStartConcat(a, b, y, w);
    assert a + b == "<directory path=\"" + p + "\" tokens=\"" + d + "\"></directory>";
  }

  /** Inside an encoded entry no closing codebase tag starts, no file tag starts in a
      directory entry and no directory tag starts in a file entry. */
  lemma NoTagInEntry(e: Entry, y: string, w: string)
    requires ValidEntry(e)
    requires if e.FileEntry? then TagOutsideFile(w) else TagOutsideDirectory(w)
    ensures NoStart(EncodeEntry(e), y, w)
  {
    var d := DecimalString(e.tokens);
    DigitsLtFree(d);
    if e.FileEntry? {
      NoTagInFile(e.path, e.content, d, y, w);
    } else {
      NoTagInDirectory(e.path, d, y, w);
    }
  }

  lemma {:induction false} NoCloseInEntries(es: seq<Entry>, y: string)
    requires forall k | 0 <= k < |es| :: ValidEntry(es[k])
    ensures NoStart(EncodeEntries(es), y, "</codebase>")
    decreases |es|
  {
    var w := "</codebase>";
    if es == [] {
      NoStartEmpty(y, w);
    } else {
      var head := EncodeEntry(es[0]);
      var tail := EncodeEntries(es[1..]);
      assert NoStart(head + tail, y, w) by {
        NoCloseInEntries(es[1..], y);
        NoTagInEntry(es[0], tail + y, w);
        NoStartConcat(head, tail, y, w);
      }
      assert NoStart("\n", head + tail + y, w) by {
        NoStartLtFree("\n", head + tail + y, w);
      }
      NoStartConcat("\n", head + tail, y, w);
      assert EncodeEntries(es) == "\n" + (head + tail);
    }
  }

  // ---------------------------------------------------------------------------
  // Skipping text where no match starts
  // ---------------------------------------------------------------------------

  lemma {:induction false} ScanEntriesSkip(dir: bool, x: string, y: string)
    requires NoStart(x, y, EntryTag(dir))
    ensures ScanEntries(dir, x + y) == ScanEntries(dir, y)
    decreases |x|
  {
    if x == [] {
      assert x + y == y;
    } else {
      assert x[0..] == x;
      assert (x + y)[1..] == x[1..] + y;
      NoStartTail(x, y, EntryTag(dir));
      ScanEntriesSkip(dir, x[1..], y);
    }
  }

  /** No codebase match starts inside `x` when `x + y` is scanned. */
  predicate NoCodebaseMatch(x: string, y: string) {
    forall i | 0 <= i < |x| :: MatchCodebase(x[i..] + y).None?
  }

  lemma NoStartNoCodebaseMatch(x: string, y: string)
    requires NoStart(x, y, "<codebase")
    ensures NoCodebaseMatch(x, y)
  {
  }

  lemma NoCodebaseMatchConcat(a: string, b: string, y: string)
    requires NoCodebaseMatch(a, b + y) && NoCodebaseMatch(b, y)
    ensures NoCodebaseMatch(a + b, y)
  {
    forall i | 0 <= i < |a + b| ensures MatchCodebase((a + b)[i..] + y).None? {
      if i < |a| {
        assert (a + b)[i..] + y == a[i..] + (b + y);
      } else {
        assert (a + b)[i..] + y == b[i - |a|..] + y;
      }
    }
  }

  lemma {:induction false} ScanCodebasesSkip(x: string, y: string)
    requires NoCodebaseMatch(x, y)
    ensures ScanCodebases(x + y) == ScanCodebases(y)
    decreases |x|
  {
    if x == [] {
      assert x + y == y;
    } else {
      assert x[0..] == x;
      assert (x + y)[1..] == x[1..] + y;
      assert NoCodebaseMatch(x[1..], y) by {
        forall i | 0 <= i < |x[1..]| ensures MatchCodebase(x[1..][i..] + y).None? {
          assert x[1..][i..] == x[i + 1..];
        }
      }
      ScanCodebasesSkip(x[1..], y);
    }
  }

  /** The opening `<codebase`, whitespace, `path="` reaches its first `"` without
      passing a `/`. */
  lemma QuoteAfterOpening(ws: string, rest: string)
    requires AllSpaces(ws)
    ensures var t := "<codebase" + (ws + ("path=\"" + rest));
      NonQuoteRun(t) < |t| && '/' !in t[..NonQuoteRun(t)]
  {
    var v := "<codebase" + ws + "path=";
    forall k | 0 <= k < |ws| ensures ws[k] != '"' && ws[k] != '/' {
      assert IsSpace(ws[k]);
    }
    assert "path=\"" + rest == "path=" + ("\"" + rest);
    assert "<codebase" + (ws + ("path=\"" + rest)) == v + ("\"" + rest);
    NonQuoteRunConcat(v, "\"" + rest);
    assert (v + ("\"" + rest))[..|v|] == v;
  }

  lemma OpeningQuote(t: string, t1: string, t2: string, t3: string)
    requires t == "<codebase" + t1
    requires |t2| < |t1| && t2 == t1[|t1| - |t2|..] && AllSpaces(t1[..|t1| - |t2|])
    requires t2 == "path=\"" + t3
    ensures NonQuoteRun(t) < |t| && '/' !in t[..NonQuoteRun(t)]
  {
    var ws := t1[..|t1| - |t2|];
    assert t1 == ws + t2;
    QuoteAfterOpening(ws, t3);
  }

  /** A codebase match reaches its first `"` without passing a `/`. */
  lemma CodebaseMatchQuote(t: string)
    ensures MatchCodebase(t).Some? ==> NonQuoteRun(t) < |t| && '/' !in t[..NonQuoteRun(t)]
  {
    if MatchCodebase(t).Some? {
      var t1 := Lit(t, "<codebase").value;
      var t2 := Spaces1(t1).value;
      OpeningQuote(t, t1, t2, Lit(t2, "path=\"").value);
    }
  }

  /** A region without `"`, followed by a `"`-free text that holds a `/`, starts no
      codebase match: the instructions block of a document is such a region. */
  lemma QuoteBarrier(x: string, u: string, v: string)
    requires '"' !in x && '"' !in u && '/' in u
    ensures NoCodebaseMatch(x, u + v)
  {
    forall i | 0 <= i < |x| ensures MatchCodebase(x[i..] + (u + v)).None? {
      var t := x[i..] + (u + v);
      var n := NonQuoteRun(t);
      assert n >= |x[i..]| + |u| by {
        assert t[..|x[i..]| + |u|] == x[i..] + u;
        assert forall k | 0 <= k < |x[i..]| + |u| :: t[k] != '"';
      }
      var j :| 0 <= j < |u| && u[j] == '/';
      assert t[..n][|x[i..]| + j] == '/';
      CodebaseMatchQuote(t);
    }
  }

  lemma {:induction false} SearchInstructionsSkip(x: string, y: string)
    requires NoStart(x, y, "<instructions>")
    ensures SearchInstructions(x + y) == SearchInstructions(y)
    decreases |x|
  {
    if x == [] {
      assert x + y == y;
    } else {
      assert x[0..] == x;
      assert (x + y)[1..] == x[1..] + y;
      NoStartTail(x, y, "<instructions>");
      SearchInstructionsSkip(x[1..], y);
    }
  }

  // ---------------------------------------------------------------------------
  // Each pattern on the text of the value it encodes
  // ---------------------------------------------------------------------------

  /** `tag\s+path="([^"]+)` on `tag`, one space, `path="`, the path and the rest. */
  lemma PathEncoded(tag: string, p: string, rest: string)
    requires IsAttribute(p) && rest != [] && rest[0] == '"'
    ensures Lit(tag + (" " + ("path=\"" + (p + rest))), tag) == Some(" " + ("path=\"" + (p + rest)))
    ensures Spaces1(" " + ("path=\"" + (p + rest))) == Some("path=\"" + (p + rest))
    ensures Lit("path=\"" + (p + rest), "path=\"") == Some(p + rest)
    ensures NonQuote1(p + rest) == Some(Cut(p, rest))
  {
    LitConcat(tag, " " + ("path=\"" + (p + rest)));
    assert IsSpace(' ');
    Spaces1Concat(" ", "path=\"" + (p + rest));
    LitConcat("path=\"", p + rest);
    NonQuote1Concat(p, rest);
  }

  /** `"\s+tokens="(\d+)` on the text the encoder writes after a path. */
  lemma TokensEncoded(n: nat, rest: string)
    requires rest != [] && !IsDigit(rest[0])
    ensures TokensAttribute("\"" + (" " + ("tokens=\"" + (DecimalString(n) + rest))))
         == Some(Cut(DecimalString(n), rest))
  {
    var d := DecimalString(n);
    LitConcat("\"", " " + ("tokens=\"" + (d + rest)));
    assert IsSpace(' ');
    Spaces1Concat(" ", "tokens=\"" + (d + rest));
    LitConcat("tokens=\"", d + rest);
    Digits1Concat(d, rest);
  }

  lemma MatchFileSteps(t: string, t1: string, t2: string, t3: string, p: Cut, d: Cut,
                       t4: string, c: Cut)
    requires Lit(t, "<file") == Some(t1) && Spaces1(t1) == Some(t2)
    requires Lit(t2, "path=\"") == Some(t3) && NonQuote1(t3) == Some(p)
    requires TokensAttribute(p.rest) == Some(d) && Lit(d.rest, "\">") == Some(t4)
    requires UpTo(t4, "</file>") == Some(c)
    ensures MatchFile(t) == Some(Found(FileEntry(p.taken, c.taken, ParseDecimal(d.taken)), c.rest))
  {
  }

  lemma MatchDirectorySteps(t: string, t1: string, t2: string, t3: string, p: Cut, d: Cut,
                            t4: string, c: Cut)
    requires Lit(t, "<directory") == Some(t1) && Spaces1(t1) == Some(t2)
    requires Lit(t2, "path=\"") == Some(t3) && NonQuote1(t3) == Some(p)
    requires TokensAttribute(p.rest) == Some(d) && Lit(d.rest, "\"") == Some(t4)
    requires UpTo(t4, "</directory>") == Some(c) && '\n' !in c.taken
    ensures MatchDirectory(t) == Some(Found(DirectoryEntry(p.taken, ParseDecimal(d.taken)), c.rest))
  {
  }

  /** The text of a file entry, cut where the file pattern's pieces meet. */
  lemma FileText(e: Entry, y: string)
    requires e.FileEntry?
    ensures EncodeEntry(e) + y
         == "<file" + (" " + ("path=\"" + (e.path + ("\"" + (" " + ("tokens=\""
            + (DecimalString(e.tokens) + ("\">" + (e.content + ("</file>" + y))))))))))
  {
    FilePieces(e.path, DecimalString(e.tokens), e.content, y);
  }

  lemma FilePieces(p: string, d: string, c: string, y: string)
    ensures "<file path=\"" + p + "\" tokens=\"" + d + "\">" + c + "</file>" + y
         == "<file" + (" " + ("path=\"" + (p + ("\"" + (" " + ("tokens=\""
            + (d + ("\">" + (c + ("</file>" + y))))))))))
  {
  }

  /** The text of a directory entry, cut where the directory pattern's pieces meet. */
  lemma DirectoryText(e: Entry, y: string)
    requires e.DirectoryEntry?
    ensures EncodeEntry(e) + y
         == "<directory" + (" " + ("path=\"" + (e.path + ("\"" + (" " + ("tokens=\""
            + (DecimalString(e.tokens) + ("\"" + (">" + ("</directory>" + y))))))))))
  {
    DirectoryPieces(e.path, DecimalString(e.tokens), y);
  }

  lemma DirectoryPieces(p: string, d: string, y: string)
    ensures "<directory path=\"" + p + "\" tokens=\"" + d + "\"></directory>" + y
         == "<directory" + (" " + ("path=\"" + (p + ("\"" + (" " + ("tokens=\""
            + (d + ("\"" + (">" + ("</directory>" + y))))))))))
  {
  }

  lemma UpToFileEnd(c: string, y: string)
    requires !Contains(c, "</file>")
    ensures UpTo(c + ("</file>" + y), "</file>") == Some(Cut(c, y))
  {
    NoStartContained(c, "</file>" + y, "</file>");
    UpToFirstNested(c, "</file>", y);
  }

  lemma UpToDirectoryEnd(y: string)
    ensures UpTo(">" + ("</directory>" + y), "</directory>") == Some(Cut(">", y))
  {
    NoStartLtFree(">", "</directory>" + y, "</directory>");
    UpToFirstNested(">", "</directory>", y);
  }

  lemma MatchFileEncoded(e: Entry, y: string)
    requires e.FileEntry? && ValidEntry(e)
    ensures MatchFile(EncodeEntry(e) + y) == Some(Found(e, y))
  {
    var d := DecimalString(e.tokens);
    var body := e.content + ("</file>" + y);
    var afterDigits := "\">" + body;
    var afterPath := "\"" + (" " + ("tokens=\"" + (d + afterDigits)));
    var t3 := e.path + afterPath;
    var t2 := "path=\"" + t3;
    var t1 := " " + t2;
    FileText(e, y);
    PathEncoded("<file", e.path, afterPath);
    TokensEncoded(e.tokens, afterDigits);
    LitConcat("\">", body);
    UpToFileEnd(e.content, y);
    MatchFileSteps("<file" + t1, t1, t2, t3, Cut(e.path, afterPath), Cut(d, afterDigits), body,
      Cut(e.content, y));
    ParseDecimalString(e.tokens);
  }

  lemma MatchDirectoryEncoded(e: Entry, y: string)
    requires e.DirectoryEntry? && ValidEntry(e)
    ensures MatchDirectory(EncodeEntry(e) + y) == Some(Found(e, y))
  {
    var d := DecimalString(e.tokens);
    var body := ">" + ("</directory>" + y);
    var afterDigits := "\"" + body;
    var afterPath := "\"" + (" " + ("tokens=\"" + (d + afterDigits)));
    var t3 := e.path + afterPath;
    var t2 := "path=\"" + t3;
    var t1 := " " + t2;
    DirectoryText(e, y);
    PathEncoded("<directory", e.path, afterPath);
    TokensEncoded(e.tokens, afterDigits);
    LitConcat("\"", body);
    UpToDirectoryEnd(y);
    MatchDirectorySteps("<directory" + t1, t1, t2, t3, Cut(e.path, afterPath), Cut(d, afterDigits),
      body, Cut(">", y));
    ParseDecimalString(e.tokens);
  }

  lemma MatchEntryEncoded(e: Entry, y: string)
    requires ValidEntry(e)
    ensures MatchEntry(e.DirectoryEntry?, EncodeEntry(e) + y) == Some(Found(e, y))
  {
    if e.DirectoryEntry? {
      MatchDirectoryEncoded(e, y);
    } else {
      MatchFileEncoded(e, y);
    }
  }

  lemma ScanEntriesNewline(dir: bool, x: string)
    ensures ScanEntries(dir, "\n" + x) == ScanEntries(dir, x)
  {
    NoStartLtFree("\n", x, EntryTag(dir));
    ScanEntriesSkip(dir, "\n", x);
  }

  lemma ScanEntriesFound(dir: bool, t: string, f: Found<Entry>)
    requires t != [] && MatchEntry(dir, t) == Some(f)
    ensures ScanEntries(dir, t) == [f.value] + ScanEntries(dir, f.rest)
  {
  }

  lemma EntriesText(es: seq<Entry>)
    requires es != []
    ensures EncodeEntries(es) + "\n" == "\n" + (EncodeEntry(es[0]) + (EncodeEntries(es[1..]) + "\n"))
  {
  }

  /** Scanning the body of an encoded codebase finds exactly its entries of one kind. */
  lemma {:induction false} ScanEncodedEntries(dir: bool, es: seq<Entry>)
    requires forall k | 0 <= k < |es| :: ValidEntry(es[k])
    ensures ScanEntries(dir, EncodeEntries(es) + "\n") == EntriesOfKind(dir, es)
    decreases |es|
  {
    if es == [] {
      ScanEntriesNewline(dir, []);
      assert EncodeEntries(es) + "\n" == "\n" + [];
    } else {
      var e := es[0];
      var rest := EncodeEntries(es[1..]) + "\n";
      EntriesText(es);
      ScanEntriesNewline(dir, EncodeEntry(e) + rest);
      ScanEncodedEntries(dir, es[1..]);
      if e.DirectoryEntry? == dir {
        MatchEntryEncoded(e, rest);
        ScanEntriesFound(dir, EncodeEntry(e) + rest, Found(e, rest));
      } else {
        NoTagInEntry(e, rest, EntryTag(dir));
        ScanEntriesSkip(dir, EncodeEntry(e), rest);
      }
    }
  }

  lemma DecodeEncodedCodebase(c: Snapshot)
    requires ValidSnapshot(c)
    ensures DecodeCodebase(c.path, EncodeEntries(c.entries) + "\n") == Normalize(c)
  {
    ScanEncodedEntries(false, c.entries);
    ScanEncodedEntries(true, c.entries);
  }

  lemma CodebaseText(c: Snapshot, y: string)
    ensures EncodeCodebase(c) + y
         == "<codebase" + (" " + ("path=\"" + (c.path + ("\">"
            + ((EncodeEntries(c.entries) + "\n") + ("</codebase>" + y))))))
  {
    CodebasePieces(c.path, EncodeEntries(c.entries), y);
  }

  lemma CodebasePieces(p: string, b: string, y: string)
    ensures "<codebase path=\"" + p + "\">" + b + "\n</codebase>" + y
         == "<codebase" + (" " + ("path=\"" + (p + ("\">" + ((b + "\n") + ("</codebase>" + y))))))
  {
  }

  lemma UpToCodebaseEnd(es: seq<Entry>, y: string)
    requires forall k | 0 <= k < |es| :: ValidEntry(es[k])
    ensures UpTo((EncodeEntries(es) + "\n") + ("</codebase>" + y), "</codebase>")
         == Some(Cut(EncodeEntries(es) + "\n", y))
  {
    var w := "</codebase>";
    NoCloseInEntries(es, "\n" + (w + y));
    LineEndNoStart(EncodeEntries(es), w + y, w);
    UpToFirstNested(EncodeEntries(es) + "\n", w, y);
  }

  /** A tag that starts nowhere in `a` starts nowhere in `a` followed by a line feed. */
  lemma LineEndNoStart(a: string, z: string, w: string)
    requires w != [] && w[0] == '<' && NoStart(a, "\n" + z, w)
    ensures NoStart(a + "\n", z, w)
  {
    NoStartLtFree("\n", z, w);
    NoStartConcat(a, "\n", z, w);
  }

  lemma MatchCodebaseSteps(t: string, t1: string, t2: string, t3: string, p: Cut, t4: string,
                           c: Cut)
    requires Lit(t, "<codebase") == Some(t1) && Spaces1(t1) == Some(t2)
    requires Lit(t2, "path=\"") == Some(t3) && NonQuote1(t3) == Some(p)
    requires Lit(p.rest, "\">") == Some(t4) && UpTo(t4, "</codebase>") == Some(c)
    ensures MatchCodebase(t) == Some(Found(Block(p.taken, c.taken), c.rest))
  {
  }

  lemma MatchCodebaseEncoded(c: Snapshot, y: string)
    requires ValidSnapshot(c)
    ensures MatchCodebase(EncodeCodebase(c) + y)
         == Some(Found(Block(c.path, EncodeEntries(c.entries) + "\n"), y))
  {
    var body := EncodeEntries(c.entries) + "\n";
    var t4 := body + ("</codebase>" + y);
    var afterPath := "\">" + t4;
    var t3 := c.path + afterPath;
    var t2 := "path=\"" + t3;
    var t1 := " " + t2;
    CodebaseText(c, y);
    PathEncoded("<codebase", c.path, afterPath);
    LitConcat("\">", t4);
    UpToCodebaseEnd(c.entries, y);
    MatchCodebaseSteps("<codebase" + t1, t1, t2, t3, Cut(c.path, afterPath), t4, Cut(body, y));
  }

  lemma ScanCodebasesNewline(x: string)
    ensures ScanCodebases("\n" + x) == ScanCodebases(x)
  {
    NoStartLtFree("\n", x, "<codebase");
    NoStartNoCodebaseMatch("\n", x);
    ScanCodebasesSkip("\n", x);
  }

  lemma ScanCodebasesFound(t: string, f: Found<Block>)
    requires t != [] && MatchCodebase(t) == Some(f)
    ensures ScanCodebases(t) == [DecodeCodebase(f.value.path, f.value.body)] + ScanCodebases(f.rest)
  {
  }

  lemma ScanCodebasesEnd()
    ensures ScanCodebases("\n</lc>") == []
  {
    var w := "<codebase";
    assert NoStart("</lc>", [], w) by {
      NotStartsWith("</lc>", w, 1);
      assert "</lc>" + [] == "</lc>";
      NoStartHead("</lc>", [], w);
    }
    NoStartLtFree("\n", "</lc>", w);
    NoStartConcat("\n", "</lc>", [], w);
    NoStartNoCodebaseMatch("\n</lc>", []);
    assert "\n" + "</lc>" == "\n</lc>";
    assert "\n</lc>" + [] == "\n</lc>";
    ScanCodebasesSkip("\n</lc>", []);
  }

  lemma CodebasesText(cs: seq<Snapshot>)
    requires cs != []
    ensures EncodeCodebases(cs) + "\n</lc>"
         == "\n" + (EncodeCodebase(cs[0]) + (EncodeCodebases(cs[1..]) + "\n</lc>"))
  {
  }

  /** Scanning the codebase blocks of an encoded document finds each codebase. */
  lemma {:induction false} ScanEncodedCodebases(cs: seq<Snapshot>)
    requires forall k | 0 <= k < |cs| :: ValidSnapshot(cs[k])
    ensures ScanCodebases(EncodeCodebases(cs) + "\n</lc>") == NormalizeAll(cs)
    decreases |cs|
  {
    if cs == [] {
      ScanCodebasesEnd();
      assert EncodeCodebases(cs) + "\n</lc>" == "\n</lc>";
    } else {
      var c := cs[0];
      var rest := EncodeCodebases(cs[1..]) + "\n</lc>";
      CodebasesText(cs);
      ScanCodebasesNewline(EncodeCodebase(c) + rest);
      MatchCodebaseEncoded(c, rest);
      ScanCodebasesFound(EncodeCodebase(c) + rest,
        Found(Block(c.path, EncodeEntries(c.entries) + "\n"), rest));
      DecodeEncodedCodebase(c);
      ScanEncodedCodebases(cs[1..]);
    }
  }

  lemma NoCodebaseInClose(y: string)
    ensures NoCodebaseMatch("\n</instructions>", y)
  {
    var w := "<codebase";
    assert NoStart("</instructions>", y, w) by {
      NotStartsWith("</instructions>" + y, w, 1);
      NoStartHead("</instructions>", y, w);
    }
    NoStartLtFree("\n", "</instructions>" + y, w);
    NoStartConcat("\n", "</instructions>", y, w);
    assert "\n</instructions>" == "\n" + "</instructions>";
    NoStartNoCodebaseMatch("\n</instructions>", y);
  }

  lemma NoCodebaseInOpen(y: string)
    ensures NoCodebaseMatch("<lc>\n<instructions>\n", y)
  {
    var w, lc, ins := "<codebase", "<lc>\n", "<instructions>\n";
    assert w[1] == 'c' && lc[1] == 'l' && ins[1] == 'i';
    assert lc[1..] == "lc>\n" && ins[1..] == "instructions>\n";
    TagNoStart(ins, y, w);
    TagNoStart(lc, ins + y, w);
    NoStartConcat(lc, ins, y, w);
    OpenLines();
    NoStartNoCodebaseMatch("<lc>\n<instructions>\n", y);
  }

  lemma OpenLines()
    ensures "<lc>\n" + "<instructions>\n" == "<lc>\n<instructions>\n"
  {
  }

  /** The head of an encoded document starts no codebase match. */
  lemma NoCodebaseInHead(i: string, y: string)
    requires '"' !in i
    ensures NoCodebaseMatch(DocumentHead(i), y)
  {
    var close := "\n</instructions>";
    var open := "<lc>\n<instructions>\n";
    NoCodebaseInClose(y);
    QuoteBarrier(i, close, y);
    NoCodebaseMatchConcat(i, close, y);
    NoCodebaseInOpen((i + close) + y);
    NoCodebaseMatchConcat(open, i + close, y);
    assert DocumentHead(i) == open + (i + close);
  }

  lemma HeadText(i: string, y: string)
    ensures DocumentHead(i) + y
         == "<lc>\n" + ("<instructions>" + (("\n" + i + "\n") + ("</instructions>" + y)))
  {
  }

  lemma UpToInstructionsEnd(i: string, y: string)
    requires !Contains(i, "</instructions>")
    ensures UpTo(("\n" + i + "\n") + ("</instructions>" + y), "</instructions>")
         == Some(Cut("\n" + i + "\n", y))
  {
    var w := "</instructions>";
    var m := "\n" + i + "\n";
    assert w[0] == '<' && w[1..] == "/instructions>";
    LineFramedNoStart(i, w + y, w);
    UpToFirstNested(m, w, y);
  }

  /** A tag that does not occur in `i`, and holds no line feed, starts nowhere in
      `i` framed by line feeds. */
  lemma LineFramedNoStart(i: string, z: string, w: string)
    requires w != [] && w[0] == '<' && '\n' !in w[1..] && !Contains(i, w)
    ensures NoStart("\n" + i + "\n", z, w)
  {
    NoStartLtFree("\n", i + ("\n" + z), w);
    NoStartContained(i, "\n" + z, w);
    NoStartLtFree("\n", z, w);
    NoStartConcat(i, "\n", z, w);
    assert i + "\n" + z == i + ("\n" + z);
    NoStartConcat("\n", i + "\n", z, w);
    assert "\n" + i + "\n" == "\n" + (i + "\n");
  }

  lemma MatchInstructionsSteps(t: string, t1: string, c: Cut)
    requires Lit(t, "<instructions>") == Some(t1) && UpTo(t1, "</instructions>") == Some(c)
    ensures MatchInstructions(t) == Some(c.taken)
  {
  }

  lemma SearchInstructionsFound(t: string)
    requires t != [] && MatchInstructions(t).Some?
    ensures SearchInstructions(t) == MatchInstructions(t)
  {
  }

  /** The instructions search of an encoded document finds the instructions, with the
      line feeds around them. */
  lemma SearchEncodedInstructions(i: string, y: string)
    requires !Contains(i, "</instructions>")
    ensures SearchInstructions(DocumentHead(i) + y) == Some("\n" + i + "\n")
  {
    var m := "\n" + i + "\n";
    var t1 := m + ("</instructions>" + y);
    var t := "<instructions>" + t1;
    HeadText(i, y);
    LitConcat("<instructions>", t1);
    UpToInstructionsEnd(i, y);
    MatchInstructionsSteps(t, t1, Cut(m, y));
    SearchInstructionsFound(t);
    LcOpeningNoInstructions(t);
    SearchInstructionsSkip("<lc>\n", t);
  }

  /** The instructions tag cannot start inside the opening `<lc>` line. */
  lemma LcOpeningNoInstructions(t: string)
    ensures NoStart("<lc>\n", t, "<instructions>")
  {
    var h := "<lc>\n" + t;
    assert h[1] == 'l';
    NotStartsWith(h, "<instructions>", 1);
    NoStartHead("<lc>\n", t, "<instructions>");
  }

  // ---------------------------------------------------------------------------
  // The round trip
  // ---------------------------------------------------------------------------

  /** from_string(to_string(d)) gives back `d`'s instructions and codebases, each
      codebase with its files before its directories. */
  lemma DocumentText(d: Document)
    ensures EncodeDocument(d) == DocumentHead(d.instructions) + (EncodeCodebases(d.codebases) + "\n</lc>")
  {
  }

  lemma HeadHoldsLc(i: string, y: string)
    ensures DocumentHead(i) + y != [] && Contains(DocumentHead(i) + y, "<lc>")
  {
    var t := DocumentHead(i) + y;
    assert t == "<lc>" + t[4..];
    StartsWithConcat("<lc>", t[4..]);
    assert t[0..] == t;
  }

  lemma InstructionsOfEncoded(i: string, y: string)
    requires ValidInstructions(i)
    ensures InstructionsOf(DocumentHead(i) + y) == i
  {
    SearchEncodedInstructions(i, y);
    assert AllSpaces("\n") by {
      assert IsSpace('\n');
    }
    StripPadded("\n", i, "\n");
  }

  lemma ScanEncodedDocument(d: Document)
    requires ValidDocument(d)
    ensures ScanCodebases(EncodeDocument(d)) == NormalizeAll(d.codebases)
  {
    var y := EncodeCodebases(d.codebases) + "\n</lc>";
    DocumentText(d);
    NoCodebaseInHead(d.instructions, y);
    ScanCodebasesSkip(DocumentHead(d.instructions), y);
    ScanEncodedCodebases(d.codebases);
  }

  /** from_string(to_string(d)) gives back `d`'s instructions and codebases, each
      codebase with its files before its directories. */
  lemma DecodeEncoded(d: Document)
    requires ValidDocument(d)
    ensures DecodeDocument(EncodeDocument(d))
         == Some(Document(d.instructions, NormalizeAll(d.codebases)))
  {
    var y := EncodeCodebases(d.codebases) + "\n</lc>";
    DocumentText(d);
    HeadHoldsLc(d.instructions, y);
    InstructionsOfEncoded(d.instructions, y);
    ScanEncodedDocument(d);
  }

  /** A valid document whose codebases list their files first comes back unchanged. */
  lemma RoundTripExact(d: Document)
    requires ValidDocument(d)
    requires forall k | 0 <= k < |d.codebases| :: FilesFirst(d.codebases[k].entries)
    ensures DecodeDocument(EncodeDocument(d)) == Some(d)
  {
    DecodeEncoded(d);
    forall k | 0 <= k < |d.codebases| ensures Normalize(d.codebases[k]) == d.codebases[k] {
      NormalizeFilesFirst(d.codebases[k].entries);
    }
    assert NormalizeAll(d.codebases) == d.codebases;
  }

  /** A document decoded from any text lists the files of each codebase first, so
      normalizing changes nothing in it. */
  lemma DecodedIsNormal(content: string)
    requires DecodeDocument(content).Some?
    ensures NormalizeAll(DecodeDocument(content).value.codebases)
         == DecodeDocument(content).value.codebases
  {
    var cs := DecodeDocument(content).value.codebases;
    forall k | 0 <= k < |cs| ensures Normalize(cs[k]) == cs[k] {
      NormalizeFilesFirst(cs[k].entries);
    }
  }

  /** A slice keeps no character its source lacks. */
  lemma SliceKeeps(s: string, i: nat, j: nat, c: char)
    requires i <= j <= |s| && c !in s
    ensures c !in s[i..j]
  {
  }

  /** A stripped text keeps no character its source lacks. */
  lemma StripKeeps(s: string, c: char)
    requires c !in s
    ensures c !in Strip(s)
  {
    var l := StripLeft(s);
    SliceKeeps(s, |s| - |l|, |s|, c);
    assert l == s[|s| - |l|..|s|];
    SliceKeeps(l, 0, |StripRight(l)|, c);
    assert StripRight(l) == l[0..|StripRight(l)|];
  }

  /** The default instructions survive the round trip. */
  lemma DefaultInstructionsValid()
    ensures ValidInstructions(DefaultInstructions())
  {
    InstructionsTextPlain();
    PlainValid(InstructionsText);
  }

  /** Stripped text free of `"` and `/` is valid instructions. */
  lemma PlainValid(s: string)
    requires Plain(s)
    ensures ValidInstructions(Strip(s))
  {
    PlainLacks(s);
    StripIsStripped(s);
    StripKeeps(s, '"');
    StripKeeps(s, '/');
    SlashFreeValid(Strip(s));
  }

  /** Stripped text without `"` and `/` cannot hold the closing instructions tag. */
  lemma SlashFreeValid(t: string)
    requires IsStripped(t) && '"' !in t && '/' !in t
    ensures ValidInstructions(t)
  {
    MissingChar(t, "</instructions>", 1);
  }

  /** A text that lacks one character of `w` does not contain `w`. */
  lemma MissingChar(t: string, w: string, k: nat)
    requires k < |w| && w[k] !in t
    ensures !Contains(t, w)
  {
    forall i | 0 <= i <= |t| ensures !StartsWith(t[i..], w) {
      if i + |w| <= |t| {
        assert t[i..][k] == t[i + k];
        NotStartsWith(t[i..], w, k);
      }
    }
  }
}
