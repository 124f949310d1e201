/**
 * How lc.py assembles its output: `SimpleGenerator.generate` turns the traversal
 * records into a one-codebase document, and `main` folds that document into the
 * document already on the clipboard, if there is one.
 */
module Assembly {
  import opened Wrappers
  import opened Text
  import opened Model
  import opened Codec
  import opened RoundTrip
  import opened Merge
  import opened Statistics

  /** One traversal record: `{"path", "content", "lines", "tokens"}`. */
  datatype Record = Record(path: string, content: string, lines: nat, tokens: nat)

  /** The entry `generate` makes of a record. */
  function ToEntry(r: Record, directoryOnly: bool): Entry {
    if directoryOnly then DirectoryEntry(r.path, r.tokens)
    else FileEntry(r.path, r.content, r.tokens)
  }

  /** The entries of the generated codebase, in record order: directories in
      directory-only mode, files otherwise. */
  function GeneratedEntries(records: seq<Record>, directoryOnly: bool): (es: seq<Entry>)
    ensures |es| == |records|
    ensures forall k | 0 <= k < |es| ::
      && es[k].path == records[k].path && es[k].tokens == records[k].tokens
      && es[k].DirectoryEntry? == directoryOnly
      && (es[k].FileEntry? ==> es[k].content == records[k].content)
  {
    seq(|records|, k requires 0 <= k < |records| => ToEntry(records[k], directoryOnly))
  }

  /** The document `generate` writes: the default instructions and one codebase keyed
      by the working directory. */
  function GeneratedDocument(records: seq<Record>, pwd: string, directoryOnly: bool): Document {
    Document(DefaultInstructions(), [Snapshot(pwd, GeneratedEntries(records, directoryOnly))])
  }

  /** A record the encoder writes unambiguously in the given mode. */
  predicate ValidRecord(r: Record, directoryOnly: bool) {
    ValidEntryPath(r.path) && (!directoryOnly ==> ValidContent(r.content))
  }

  predicate ValidRecords(records: seq<Record>, directoryOnly: bool) {
    forall k | 0 <= k < |records| :: ValidRecord(records[k], directoryOnly)
  }

  /** The text `main` puts on the clipboard: when the clipboard holds a document and the
      new text decodes to a document with a codebase, the existing document with that
      codebase added or updated; otherwise the new text as it is. */
  function MergeClipboard(clipboard: string, generated: string): (r: string)
    ensures DecodeDocument(clipboard).None? || DecodeDocument(generated).None? ==> r == generated
    ensures r == generated
      || (DecodeDocument(clipboard).Some?
          && StartsWith(r, DocumentHead(DecodeDocument(clipboard).value.instructions)))
  {
    match DecodeDocument(clipboard)
    case None => generated
    case Some(existing) =>
      match DecodeDocument(generated)
      case None => generated
      case Some(incoming) =>
        if incoming.codebases == [] then generated
        else
          var merged := Document(existing.instructions,
                                 AddOrUpdate(existing.codebases, incoming.codebases[0]));
          EncodedHead(merged);
          EncodeDocument(merged)
  }

  // ---------------------------------------------------------------------------
  // The generated document
  // ---------------------------------------------------------------------------

  /** Entries of one kind are in files-first order. */
  lemma OneKind(es: seq<Entry>, dir: bool)
    requires forall k | 0 <= k < |es| :: es[k].DirectoryEntry? == dir
    ensures FilesFirst(es)
  {
  }

  /** The generated text decodes to the generated document, unchanged. */
  lemma GeneratedDecodes(records: seq<Record>, pwd: string, directoryOnly: bool)
    requires IsAttribute(pwd) && ValidRecords(records, directoryOnly)
    ensures var g := GeneratedDocument(records, pwd, directoryOnly);
      DecodeDocument(EncodeDocument(g)) == Some(g)
  {
    DefaultInstructionsValid();
    GeneratedStable(records, pwd, directoryOnly);
    StableDecodes(DefaultInstructions(), GeneratedDocument(records, pwd, directoryOnly).codebases);
  }

  /** Sum of the record tokens. */
  function RecordTokens(records: seq<Record>): nat
    decreases |records|
  {
    if records == [] then 0 else records[0].tokens + RecordTokens(records[1..])
  }

  /** Sum of the lines of the record contents, counted as `FileEntry` counts them. */
  function RecordLines(records: seq<Record>): nat
    decreases |records|
  {
    if records == [] then 0 else FileLines(records[0].content) + RecordLines(records[1..])
  }

  lemma {:induction false} GeneratedTotals(records: seq<Record>, directoryOnly: bool)
    ensures var es := GeneratedEntries(records, directoryOnly);
      TokenSum(es) == RecordTokens(records)
      && (!directoryOnly ==> LineSum(es) == RecordLines(records))
    decreases |records|
  {
    if records != [] {
      GeneratedTotals(records[1..], directoryOnly);
      assert GeneratedEntries(records, directoryOnly)[1..]
          == GeneratedEntries(records[1..], directoryOnly);
    }
  }

  /** The statistics of the generated text: one entry per record, the record tokens,
      and the lines of the record contents (recomputed from the content), or none in
      directory-only mode. */
  lemma GeneratedStats(records: seq<Record>, pwd: string, directoryOnly: bool)
    requires IsAttribute(pwd) && ValidRecords(records, directoryOnly)
    ensures StatsOf(DecodeDocument(EncodeDocument(GeneratedDocument(records, pwd, directoryOnly))),
                    directoryOnly)
         == Stats(|records|, RecordTokens(records),
                  if directoryOnly then 0 else RecordLines(records), false)
  {
    GeneratedDecodes(records, pwd, directoryOnly);
    GeneratedTotals(records, directoryOnly);
    AllEntriesSingle(Snapshot(pwd, GeneratedEntries(records, directoryOnly)));
  }

  // ---------------------------------------------------------------------------
  // The clipboard merge
  // ---------------------------------------------------------------------------

  /** An empty clipboard, or one without `<lc>`, is replaced by the new text. */
  lemma MergeIntoNonDocument(clipboard: string, generated: string)
    requires clipboard == [] || !Contains(clipboard, "<lc>")
    ensures MergeClipboard(clipboard, generated) == generated
  {
  }

  /** Normalized valid codebases are valid and files-first. */
  lemma NormalizeValid(s: Snapshot)
    requires ValidSnapshot(s)
    ensures ValidSnapshot(Normalize(s)) && FilesFirst(Normalize(s).entries)
  {
    var files, dirs := EntriesOfKind(false, s.entries), EntriesOfKind(true, s.entries);
    FilesThenDirectories(files, dirs);
    var n := Normalize(s).entries;
    forall k | 0 <= k < |n| ensures ValidEntry(n[k]) {
      if k < |files| {
        assert n[k] == files[k];
      } else {
        assert n[k] == dirs[k - |files|];
      }
    }
  }

  /** Codebases the decoder gives back unchanged. */
  predicate Stable(cs: seq<Snapshot>) {
    forall k | 0 <= k < |cs| :: ValidSnapshot(cs[k]) && FilesFirst(cs[k].entries)
  }

  lemma StableDecodes(i: string, cs: seq<Snapshot>)
    requires ValidInstructions(i) && Stable(cs)
    ensures DecodeDocument(EncodeDocument(Document(i, cs))) == Some(Document(i, cs))
  {
    RoundTripExact(Document(i, cs));
  }

  lemma StableMerge(cs: seq<Snapshot>, c: Snapshot)
    requires Stable(cs) && Stable([c])
    ensures Stable(AddOrUpdate(cs, c))
  {
    AddOrUpdateFrom(cs, c);
    assert ValidSnapshot([c][0]) && FilesFirst([c][0].entries);
  }

  lemma StableNormalized(cs: seq<Snapshot>)
    requires forall k | 0 <= k < |cs| :: ValidSnapshot(cs[k])
    ensures Stable(NormalizeAll(cs))
  {
    forall k | 0 <= k < |cs| ensures ValidSnapshot(NormalizeAll(cs)[k])
      && FilesFirst(NormalizeAll(cs)[k].entries)
    {
      NormalizeValid(cs[k]);
    }
  }

  /** Folding a decoded capture into a decoded clipboard document whose codebases
      the decoder gives back unchanged. */
  lemma MergeDecoded(clipboard: string, generated: string, existing: Document, incoming: Document)
    requires DecodeDocument(clipboard) == Some(existing)
    requires DecodeDocument(generated) == Some(incoming) && |incoming.codebases| == 1
    requires ValidInstructions(existing.instructions)
    requires Stable(existing.codebases) && Stable(incoming.codebases)
    ensures DecodeDocument(MergeClipboard(clipboard, generated))
         == Some(Document(existing.instructions,
                          AddOrUpdate(existing.codebases, incoming.codebases[0])))
  {
    assert incoming.codebases == [incoming.codebases[0]];
    StableMerge(existing.codebases, incoming.codebases[0]);
    StableDecodes(existing.instructions, AddOrUpdate(existing.codebases, incoming.codebases[0]));
  }

  /** Folding a generated capture into a document on the clipboard: the result decodes
      to the clipboard's instructions and its codebases (files first) with the new
      codebase added or put in place of the one with the same path. */
  lemma MergeGenerated(d: Document, records: seq<Record>, pwd: string, directoryOnly: bool)
    requires ValidDocument(d)
    requires IsAttribute(pwd) && ValidRecords(records, directoryOnly)
    ensures var g := GeneratedDocument(records, pwd, directoryOnly);
      DecodeDocument(MergeClipboard(EncodeDocument(d), EncodeDocument(g)))
        == Some(Document(d.instructions, AddOrUpdate(NormalizeAll(d.codebases), g.codebases[0])))
  {
    var g := GeneratedDocument(records, pwd, directoryOnly);
    DecodeEncoded(d);
    GeneratedDecodes(records, pwd, directoryOnly);
    StableNormalized(d.codebases);
    GeneratedStable(records, pwd, directoryOnly);
    MergeDecoded(EncodeDocument(d), EncodeDocument(g),
                 Document(d.instructions, NormalizeAll(d.codebases)), g);
  }

  lemma GeneratedStable(records: seq<Record>, pwd: string, directoryOnly: bool)
    requires IsAttribute(pwd) && ValidRecords(records, directoryOnly)
    ensures Stable(GeneratedDocument(records, pwd, directoryOnly).codebases)
  {
    OneKind(GeneratedEntries(records, directoryOnly), directoryOnly);
  }

  /** Copying the same capture twice leaves the clipboard as copying it once did. */
  lemma MergeTwice(d: Document, records: seq<Record>, pwd: string, directoryOnly: bool)
    requires ValidDocument(d)
    requires IsAttribute(pwd) && ValidRecords(records, directoryOnly)
    ensures var generated := EncodeDocument(GeneratedDocument(records, pwd, directoryOnly));
      var once := MergeClipboard(EncodeDocument(d), generated);
      MergeClipboard(once, generated) == once
  {
    var g := GeneratedDocument(records, pwd, directoryOnly);
    var generated := EncodeDocument(g);
    var c := g.codebases[0];
    var merged := AddOrUpdate(NormalizeAll(d.codebases), c);
    var once := EncodeDocument(Document(d.instructions, merged));
    DecodeEncoded(d);
    GeneratedDecodes(records, pwd, directoryOnly);
    MergeStep(EncodeDocument(d), generated, d.instructions, NormalizeAll(d.codebases), c);
    MergeGenerated(d, records, pwd, directoryOnly);
    MergeStep(once, generated, d.instructions, merged, c);
    AddOrUpdateIdempotent(NormalizeAll(d.codebases), c);
  }

  /** The merge on decoded values: a clipboard document and a capture of one codebase. */
  lemma MergeStep(clipboard: string, generated: string, i: string, cs: seq<Snapshot>, c: Snapshot)
    requires DecodeDocument(clipboard) == Some(Document(i, cs))
    requires DecodeDocument(generated).Some? && DecodeDocument(generated).value.codebases == [c]
    ensures MergeClipboard(clipboard, generated) == EncodeDocument(Document(i, AddOrUpdate(cs, c)))
  {
  }
}
