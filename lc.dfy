/**
 * The objects of lc.py: `Codebase` and `LCDocument` with the methods that build and
 * read them, `SimpleGenerator.generate` and `get_stats_from_content`.  Each method
 * is proved against the value functions of the other modules.
 */
module Lc {
  import opened Wrappers
  import opened Text
  import opened Model
  import opened Codec
  import opened Merge
  import opened Statistics
  import opened Assembly

  /** A codebase: a root path and its entries, appended one at a time. */
  class Codebase {
    var path: string
    var entries: seq<Entry>

    /** The value this object holds. */
    function Value(): Snapshot
      reads this
    {
      Snapshot(path, entries)
    }

    constructor (path: string)
      ensures this.path == path && entries == []
    {
      this.path := path;
      entries := [];
    }

    method AddEntry(entry: Entry)
      modifies this
      ensures path == old(path) && entries == old(entries) + [entry]
    {
      entries := entries + [entry];
    }

    /** Codebase.to_string: the header, one line per entry, `</codebase>`. */
    method ToString() returns (s: string)
      ensures s == EncodeCodebase(Value())
    {
      var lines := [CodebaseHeader(path)];
      var i := 0;
      while i < |entries|
        invariant 0 <= i <= |entries| && lines != []
        invariant Join(lines, "\n") == CodebaseHeader(path) + EncodeEntries(entries[..i])
      {
        EntryLine(lines, CodebaseHeader(path), entries, i);
        lines := lines + [EncodeEntry(entries[i])];
        i := i + 1;
      }
      assert entries[..i] == entries;
      CodebaseClose(lines, Snapshot(path, entries));
      lines := lines + ["</codebase>"];
      s := Join(lines, "\n");
    }

    /** Codebase.from_string: every file match of the body, then every directory match. */
    static method FromString(path: string, content: string) returns (c: Codebase)
      ensures fresh(c) && c.Value() == DecodeCodebase(path, content)
    {
      c := new Codebase(path);
      var t := content;
      while t != []
        invariant fresh(c) && c.path == path
        invariant c.entries + ScanEntries(false, t) == ScanEntries(false, content)
        decreases |t|
      {
        FileMatchStep(t, c.entries, ScanEntries(false, content));
        match MatchFile(t)
        case Some(f) =>
          c.AddEntry(f.value);
          t := f.rest;
        case None =>
          t := t[1..];
      }
      ghost var files := c.entries;
      assert files + ScanEntries(false, []) == ScanEntries(false, content);
      t := content;
      while t != []
        invariant fresh(c) && c.path == path
        invariant c.entries + ScanEntries(true, t) == files + ScanEntries(true, content)
        decreases |t|
      {
        DirectoryMatchStep(t, c.entries, files + ScanEntries(true, content));
        match MatchDirectory(t)
        case Some(f) =>
          c.AddEntry(f.value);
          t := f.rest;
        case None =>
          t := t[1..];
      }
      DecodedParts(path, content, files, c.entries);
    }
  }

  /** The values of a list of codebase objects, in order. */
  function Snapshots(cs: seq<Codebase>): (r: seq<Snapshot>)
    reads cs
    ensures |r| == |cs| && forall k | 0 <= k < |cs| :: r[k] == cs[k].Value()
    decreases |cs|
  {
    if cs == [] then [] else [cs[0].Value()] + Snapshots(cs[1..])
  }

  lemma AppendAssoc(a: seq<Codebase>, b: seq<Codebase>, c: seq<Codebase>)
    ensures a + b + c == a + (b + c)
  {
  }

  lemma SnapshotsSnoc(cs: seq<Codebase>, c: Codebase)
    ensures Snapshots(cs + [c]) == Snapshots(cs) + [c.Value()]
  {
  }

  lemma SnapshotsUpdate(cs: seq<Codebase>, i: nat, c: Codebase)
    requires i < |cs|
    ensures Snapshots(cs[i := c]) == Snapshots(cs)[i := c.Value()]
  {
  }

  /** A document: its instructions and the codebase objects it holds. */
  class LCDocument {
    var instructions: string
    var codebases: seq<Codebase>

    /** The value this object holds. */
    function Value(): Document
      reads this, codebases
    {
      Document(instructions, Snapshots(codebases))
    }

    constructor ()
      ensures instructions == DefaultInstructions() && codebases == []
    {
      codebases := [];
      instructions := DefaultInstructions();
    }

    /** LCDocument.add_or_update_codebase: the object takes the place of the first
        codebase with its path, or is appended when there is none. */
    method AddOrUpdateCodebase(codebase: Codebase)
      modifies this
      ensures instructions == old(instructions)
      ensures codebases == match IndexOfPath(old(Snapshots(codebases)), codebase.path)
        case Some(i) => old(codebases)[i := codebase]
        case None => old(codebases) + [codebase]
      ensures Snapshots(codebases) == AddOrUpdate(old(Snapshots(codebases)), codebase.Value())
    {
      ghost var before := Snapshots(codebases);
      ghost var held := codebases;
      var i := 0;
      while i < |codebases| && codebases[i].path != codebase.path
        invariant 0 <= i <= |codebases|
        invariant forall j | 0 <= j < i :: before[j].path != codebase.path
      {
        i := i + 1;
      }
      if i < |codebases| {
        FirstWithPath(before, codebase.path, i);
        codebases := codebases[i := codebase];
        SnapshotsUpdate(held, i, codebase);
      } else {
        codebases := codebases + [codebase];
        SnapshotsSnoc(held, codebase);
      }
    }

    /** LCDocument.to_string. */
    method ToString() returns (s: string)
      ensures s == EncodeDocument(Value())
    {
      var lines := ["<lc>", "<instructions>", instructions, "</instructions>"];
      HeadLines(instructions);
      ghost var snapshots := Snapshots(codebases);
      var i := 0;
      while i < |codebases|
        invariant 0 <= i <= |codebases| && lines != []
        invariant Join(lines, "\n") == DocumentHead(instructions) + EncodeCodebases(snapshots[..i])
      {
        var text := codebases[i].ToString();
        CodebaseBlockLine(lines, DocumentHead(instructions), snapshots, i, text);
        lines := lines + [text];
        i := i + 1;
      }
      DocumentClose(lines, Document(instructions, snapshots));
      lines := lines + ["</lc>"];
      s := Join(lines, "\n");
    }

    /** LCDocument.from_string: null unless the text is non-empty and holds `<lc>`. */
    static method FromString(content: string) returns (doc: LCDocument?)
      ensures doc == null <==> DecodeDocument(content).None?
      ensures doc != null ==> fresh(doc) && doc.Value() == DecodeDocument(content).value
    {
      if content == [] || !Contains(content, "<lc>") {
        return null;
      }
      doc := new LCDocument();
      var found := SearchInstructions(content);
      if found.Some? {
        doc.instructions := Strip(found.value);
      }
      InstructionsFound(content, found);
      ghost var instructions := doc.instructions;
      assert Snapshots(doc.codebases) == [];
      doc.ReadCodebases(content);
      DocumentParts(content, instructions, Snapshots(doc.codebases));
    }

    /** The `re.finditer` loop of LCDocument.from_string: one codebase object is
        appended per codebase block of the text, in order. */
    method ReadCodebases(content: string)
      modifies this
      ensures instructions == old(instructions)
      ensures Snapshots(codebases) == old(Snapshots(codebases)) + ScanCodebases(content)
      ensures |old(codebases)| <= |codebases| && codebases[..|old(codebases)|] == old(codebases)
      ensures forall k | |old(codebases)| <= k < |codebases| :: fresh(codebases[k])
    {
      ghost var start := Snapshots(codebases);
      ghost var added: seq<Codebase> := [];
      var t := content;
      while t != []
        invariant instructions == old(instructions)
        invariant codebases == old(codebases) + added
        invariant forall k | 0 <= k < |added| :: fresh(added[k])
        invariant Snapshots(codebases) + ScanCodebases(t) == start + ScanCodebases(content)
        decreases |t|
      {
        var rest, more := ReadAt(t);
        AppendAssoc(old(codebases), added, more);
        added := added + more;
        t := rest;
      }
      assert codebases[..|old(codebases)|] == old(codebases);
      forall k | |old(codebases)| <= k < |codebases|
        ensures fresh(codebases[k])
      {
        assert codebases[k] == added[k - |old(codebases)|];
      }
    }

    /** One position of that loop: a codebase block starting there is decoded and its
        object appended, and the scan goes on after the block; otherwise it goes on one
        character later. */
    method ReadAt(t: string) returns (rest: string, ghost more: seq<Codebase>)
      requires t != []
      modifies this
      ensures |rest| < |t| && instructions == old(instructions)
      ensures codebases == old(codebases) + more && forall k | 0 <= k < |more| :: fresh(more[k])
      ensures Snapshots(codebases) + ScanCodebases(rest)
           == old(Snapshots(codebases)) + ScanCodebases(t)
    {
      ghost var done := Snapshots(codebases);
      CodebaseMatchStep(t, done, done + ScanCodebases(t));
      match MatchCodebase(t)
      case Some(f) =>
        var codebase := AppendDecoded(f.value.path, f.value.body);
        more := [codebase];
        rest := f.rest;
      case None =>
        more := [];
        rest := t[1..];
    }

    /** One step of that loop: the block is decoded into a new codebase object, which
        is appended. */
    method AppendDecoded(path: string, body: string) returns (codebase: Codebase)
      modifies this
      ensures instructions == old(instructions)
      ensures fresh(codebase) && codebases == old(codebases) + [codebase]
      ensures Snapshots(codebases) == old(Snapshots(codebases)) + [DecodeCodebase(path, body)]
    {
      ghost var held := codebases;
      ghost var done := Snapshots(codebases);
      codebase := Codebase.FromString(path, body);
      codebases := codebases + [codebase];
      assert Snapshots(held) == done;
      SnapshotsSnoc(held, codebase);
    }
  }

  // ---------------------------------------------------------------------------
  // One step of each loop above
  // ---------------------------------------------------------------------------

  lemma DecodedParts(path: string, content: string, files: seq<Entry>, es: seq<Entry>)
    requires files + ScanEntries(false, []) == ScanEntries(false, content)
    requires es + ScanEntries(true, []) == files + ScanEntries(true, content)
    ensures Snapshot(path, es) == DecodeCodebase(path, content)
  {
    assert files + [] == files;
    assert es + [] == es;
  }

  lemma InstructionsFound(content: string, found: Option<string>)
    requires found == SearchInstructions(content)
    ensures InstructionsOf(content) == if found.Some? then Strip(found.value) else DefaultInstructions()
  {
  }

  lemma DocumentParts(content: string, instructions: string, cs: seq<Snapshot>)
    requires content != [] && Contains(content, "<lc>")
    requires instructions == InstructionsOf(content)
    requires cs == [] + ScanCodebases(content)
    ensures DecodeDocument(content) == Some(Document(instructions, cs))
  {
    assert [] + ScanCodebases(content) == ScanCodebases(content);
  }

  /** Appending line `x` to lines that join to `head + done` gives `head + next`,
      where `next` is `done` followed by "\n" and `x`. */
  lemma LineAfter(lines: seq<string>, head: string, done: string, x: string, next: string)
    requires lines != [] && Join(lines, "\n") == head + done
    requires next == done + "\n" + x
    ensures Join(lines + [x], "\n") == head + next
  {
    JoinSnoc(lines, x, "\n");
  }

  lemma EntriesPrefix(es: seq<Entry>, i: nat)
    requires i < |es|
    ensures EncodeEntries(es[..i + 1]) == EncodeEntries(es[..i]) + "\n" + EncodeEntry(es[i])
  {
    assert es[..i + 1] == es[..i] + [es[i]];
    EncodeEntriesSnoc(es[..i], es[i]);
  }

  lemma EntryLine(lines: seq<string>, head: string, es: seq<Entry>, i: nat)
    requires i < |es| && lines != []
    requires Join(lines, "\n") == head + EncodeEntries(es[..i])
    ensures Join(lines + [EncodeEntry(es[i])], "\n") == head + EncodeEntries(es[..i + 1])
  {
    EntriesPrefix(es, i);
    LineAfter(lines, head, EncodeEntries(es[..i]), EncodeEntry(es[i]), EncodeEntries(es[..i + 1]));
  }

  lemma CodebaseClose(lines: seq<string>, c: Snapshot)
    requires lines != [] && Join(lines, "\n") == CodebaseHeader(c.path) + EncodeEntries(c.entries)
    ensures Join(lines + ["</codebase>"], "\n") == EncodeCodebase(c)
  {
    LastLine(lines, CodebaseHeader(c.path) + EncodeEntries(c.entries), "</codebase>", "\n");
    CloseTagLine();
  }

  lemma CloseTagLine()
    ensures "\n" + "</codebase>" == "\n</codebase>"
  {
  }

  /** Appending a last line to lines that join to `text`. */
  lemma LastLine(lines: seq<string>, text: string, last: string, sep: string)
    requires lines != [] && Join(lines, sep) == text
    ensures Join(lines + [last], sep) == text + (sep + last)
  {
    JoinSnoc(lines, last, sep);
  }

  lemma CodebasesPrefix(cs: seq<Snapshot>, i: nat)
    requires i < |cs|
    ensures EncodeCodebases(cs[..i + 1]) == EncodeCodebases(cs[..i]) + "\n" + EncodeCodebase(cs[i])
  {
    assert cs[..i + 1] == cs[..i] + [cs[i]];
    EncodeCodebasesSnoc(cs[..i], cs[i]);
  }

  lemma CodebaseBlockLine(lines: seq<string>, head: string, cs: seq<Snapshot>, i: nat, text: string)
    requires i < |cs| && lines != [] && text == EncodeCodebase(cs[i])
    requires Join(lines, "\n") == head + EncodeCodebases(cs[..i])
    ensures Join(lines + [text], "\n") == head + EncodeCodebases(cs[..i + 1])
  {
    CodebasesPrefix(cs, i);
    LineAfter(lines, head, EncodeCodebases(cs[..i]), text, EncodeCodebases(cs[..i + 1]));
  }

  lemma DocumentClose(lines: seq<string>, d: Document)
    requires lines != []
    requires Join(lines, "\n") == DocumentHead(d.instructions) + EncodeCodebases(d.codebases[..|d.codebases|])
    ensures Join(lines + ["</lc>"], "\n") == EncodeDocument(d)
  {
    JoinSnoc(lines, "</lc>", "\n");
    assert d.codebases[..|d.codebases|] == d.codebases;
  }

  lemma FileMatchStep(t: string, done: seq<Entry>, all: seq<Entry>)
    requires t != [] && done + ScanEntries(false, t) == all
    ensures MatchFile(t).Some? ==>
      done + [MatchFile(t).value.value] + ScanEntries(false, MatchFile(t).value.rest) == all
    ensures MatchFile(t).None? ==> done + ScanEntries(false, t[1..]) == all
  {
    assert MatchEntry(false, t) == MatchFile(t);
  }

  lemma DirectoryMatchStep(t: string, done: seq<Entry>, all: seq<Entry>)
    requires t != [] && done + ScanEntries(true, t) == all
    ensures MatchDirectory(t).Some? ==>
      done + [MatchDirectory(t).value.value] + ScanEntries(true, MatchDirectory(t).value.rest) == all
    ensures MatchDirectory(t).None? ==> done + ScanEntries(true, t[1..]) == all
  {
    assert MatchEntry(true, t) == MatchDirectory(t);
  }

  lemma CodebaseMatchStep(t: string, done: seq<Snapshot>, all: seq<Snapshot>)
    requires t != [] && done + ScanCodebases(t) == all
    ensures MatchCodebase(t).Some? ==>
      var f := MatchCodebase(t).value;
      done + [DecodeCodebase(f.value.path, f.value.body)] + ScanCodebases(f.rest) == all
    ensures MatchCodebase(t).None? ==> done + ScanCodebases(t[1..]) == all
  {
  }

  lemma CountEntry(counted: seq<Entry>, before: seq<Entry>, es: seq<Entry>, j: nat)
    requires j < |es| && counted == before + es[..j]
    ensures counted + [es[j]] == before + es[..j + 1]
    ensures TokenSum(counted + [es[j]]) == TokenSum(counted) + es[j].tokens
    ensures LineSum(counted + [es[j]]) == LineSum(counted) + EntryLines(es[j])
  {
    SumsAppend(counted, [es[j]]);
    assert es[..j + 1] == es[..j] + [es[j]];
  }

  lemma CountCodebase(cs: seq<Snapshot>, i: nat, counted: seq<Entry>)
    requires i < |cs| && counted == AllEntries(cs[..i]) + cs[i].entries[..|cs[i].entries|]
    ensures counted == AllEntries(cs[..i + 1])
  {
    AllEntriesSnoc(cs[..i], cs[i]);
    assert cs[..i + 1] == cs[..i] + [cs[i]];
    assert cs[i].entries[..|cs[i].entries|] == cs[i].entries;
  }

  /** An index where the path first appears is the one `IndexOfPath` finds. */
  lemma FirstWithPath(cs: seq<Snapshot>, path: string, i: nat)
    requires i < |cs| && cs[i].path == path
    requires forall j | 0 <= j < i :: cs[j].path != path
    ensures IndexOfPath(cs, path) == Some(i)
  {
  }

  /** The four head lines joined by "\n" are the document head. */
  lemma HeadLines(instructions: string)
    ensures Join(["<lc>", "<instructions>", instructions, "</instructions>"], "\n")
         == DocumentHead(instructions)
  {
    JoinFour("<lc>", "<instructions>", instructions, "</instructions>", "\n");
    assert "<lc>" + "\n" + "<instructions>" + "\n" == "<lc>\n<instructions>\n";
    assert "\n" + "</instructions>" == "\n</instructions>";
  }

  /** Four lines joined by a separator: the first two with their separators, the
      third, then a separator and the fourth. */
  lemma JoinFour(a: string, b: string, c: string, d: string, sep: string)
    ensures Join([a, b, c, d], sep) == (a + sep + b + sep) + c + (sep + d)
  {
    var lines := [a, b, c, d];
    assert lines[..1] == [a];
    assert lines[..2] == [a] + [b];
    JoinSnoc([a], b, sep);
    assert lines[..3] == lines[..2] + [c];
    JoinSnoc(lines[..2], c, sep);
    assert lines == lines[..3] + [d];
    JoinSnoc(lines[..3], d, sep);
  }

  lemma GeneratedSnoc(records: seq<Record>, i: nat, directoryOnly: bool)
    requires i < |records|
    ensures GeneratedEntries(records[..i + 1], directoryOnly)
         == GeneratedEntries(records[..i], directoryOnly) + [ToEntry(records[i], directoryOnly)]
  {
    assert records[..i + 1][..i] == records[..i];
  }

  /** SimpleGenerator.generate: one codebase keyed by `pwd`, one entry per record, in
      a fresh document. */
  method Generate(records: seq<Record>, pwd: string, directoryOnly: bool) returns (s: string)
    ensures s == EncodeDocument(GeneratedDocument(records, pwd, directoryOnly))
  {
    var codebase := new Codebase(pwd);
    var i := 0;
    while i < |records|
      invariant 0 <= i <= |records|
      invariant codebase.Value() == Snapshot(pwd, GeneratedEntries(records[..i], directoryOnly))
    {
      var entry := records[i];
      if directoryOnly {
        codebase.AddEntry(DirectoryEntry(entry.path, entry.tokens));
      } else {
        codebase.AddEntry(FileEntry(entry.path, entry.content, entry.tokens));
      }
      GeneratedSnoc(records, i, directoryOnly);
      i := i + 1;
    }
    assert records[..i] == records;
    ghost var generated := codebase.Value();
    var doc := new LCDocument();
    doc.AddOrUpdateCodebase(codebase);
    assert AddOrUpdate([], generated) == [generated];
    s := doc.ToString();
  }

  /** get_stats_from_content: the decoded document's entries, tokens and file lines;
      all zeros when the text is not a document. */
  method GetStatsFromContent(content: string, directoryOnly: bool) returns (stats: Stats)
    ensures stats == StatsOf(DecodeDocument(content), directoryOnly)
  {
    var doc := LCDocument.FromString(content);
    if doc == null {
      return Stats(0, 0, 0, false);
    }
    stats := Tally(doc, DecodeDocument(content).value, directoryOnly);
  }

  /** The counting loops of get_stats_from_content over a document object: one per
      entry, its tokens, and the lines of its file entries. */
  method Tally(doc: LCDocument, ghost d: Document, directoryOnly: bool) returns (stats: Stats)
    requires doc.Value() == d
    ensures stats == StatsOf(Some(d), directoryOnly)
  {
    var totalFiles, totalTokens, totalLines := 0, 0, 0;
    var hasTokenErrors := false;
    ghost var snapshots := Snapshots(doc.codebases);
    ghost var counted: seq<Entry> := [];
    var i := 0;
    while i < |doc.codebases|
      invariant 0 <= i <= |doc.codebases|
      invariant counted == AllEntries(snapshots[..i])
      invariant totalFiles == |counted| && totalTokens == TokenSum(counted)
      invariant totalLines == LineSum(counted)
    {
      var entries := doc.codebases[i].entries;
      var j := 0;
      while j < |entries|
        invariant 0 <= j <= |entries|
        invariant counted == AllEntries(snapshots[..i]) + entries[..j]
        invariant totalFiles == |counted| && totalTokens == TokenSum(counted)
        invariant totalLines == LineSum(counted)
      {
        var entry := entries[j];
        totalFiles := totalFiles + 1;
        totalTokens := totalTokens + entry.tokens;
        if entry.FileEntry? {
          totalLines := totalLines + FileLines(entry.content);
        }
        CountEntry(counted, AllEntries(snapshots[..i]), entries, j);
        counted := counted + [entry];
        j := j + 1;
      }
      CountCodebase(snapshots, i, counted);
      i := i + 1;
    }
    assert snapshots[..i] == snapshots;
    stats := Stats(totalFiles, totalTokens, if !directoryOnly then totalLines else 0, hasTokenErrors);
  }
}
