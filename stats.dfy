/**
 * What `get_stats_from_content` reports about a document: how many entries it holds,
 * their tokens, and the lines of its file entries.
 */
module Statistics {
  import opened Wrappers
  import opened Text
  import opened Model
  import opened Codec
  import opened RoundTrip

  /** The dictionary `get_stats_from_content` returns. */
  datatype Stats = Stats(files: nat, tokens: nat, lines: nat, hasTokenErrors: bool)

  /** The lines an entry adds: `FileEntry.lines` for a file, none for a directory. */
  function EntryLines(e: Entry): nat {
    if e.FileEntry? then FileLines(e.content) else 0
  }

  function TokenSum(es: seq<Entry>): nat
    decreases |es|
  {
    if es == [] then 0 else es[0].tokens + TokenSum(es[1..])
  }

  function LineSum(es: seq<Entry>): nat
    decreases |es|
  {
    if es == [] then 0 else EntryLines(es[0]) + LineSum(es[1..])
  }

  /** Every entry of every codebase, codebase by codebase. */
  function AllEntries(cs: seq<Snapshot>): seq<Entry>
    decreases |cs|
  {
    if cs == [] then [] else cs[0].entries + AllEntries(cs[1..])
  }

  /** The statistics of a decoded document, or all zeros when there is none. */
  function StatsOf(doc: Option<Document>, directoryOnly: bool): Stats {
    match doc
    case None => Stats(0, 0, 0, false)
    case Some(d) =>
      var es := AllEntries(d.codebases);
      Stats(|es|, TokenSum(es), if directoryOnly then 0 else LineSum(es), false)
  }

  /** Text that is not a document has all-zero statistics; a document never reports
      token errors, and reports no lines in directory-only mode. */
  lemma StatsOfText(content: string, directoryOnly: bool)
    ensures content == [] || !Contains(content, "<lc>")
      ==> StatsOf(DecodeDocument(content), directoryOnly) == Stats(0, 0, 0, false)
    ensures !StatsOf(DecodeDocument(content), directoryOnly).hasTokenErrors
    ensures directoryOnly ==> StatsOf(DecodeDocument(content), directoryOnly).lines == 0
  {
  }

  /** Two entry lists that count the same entries, tokens and lines. */
  predicate SameTotals(a: seq<Entry>, b: seq<Entry>) {
    |a| == |b| && TokenSum(a) == TokenSum(b) && LineSum(a) == LineSum(b)
  }

  lemma {:induction false} SumsAppend(a: seq<Entry>, b: seq<Entry>)
    ensures TokenSum(a + b) == TokenSum(a) + TokenSum(b)
    ensures LineSum(a + b) == LineSum(a) + LineSum(b)
    decreases |a|
  {
    if a == [] {
      assert a + b == b;
    } else {
      assert (a + b)[0] == a[0];
      assert (a + b)[1..] == a[1..] + b;
      SumsAppend(a[1..], b);
    }
  }

  lemma {:induction false} AllEntriesSnoc(cs: seq<Snapshot>, c: Snapshot)
    ensures AllEntries(cs + [c]) == AllEntries(cs) + c.entries
    decreases |cs|
  {
    if cs == [] {
      assert cs + [c] == [c];
      assert [c][1..] == [];
    } else {
      assert (cs + [c])[0] == cs[0];
      assert (cs + [c])[1..] == cs[1..] + [c];
      AllEntriesSnoc(cs[1..], c);
    }
  }

  lemma AllEntriesSingle(c: Snapshot)
    ensures AllEntries([c]) == c.entries
  {
    assert [c][1..] == [];
    assert c.entries + [] == c.entries;
  }

  /** Splitting entries into files and directories loses no entry, token or line. */
  lemma {:induction false} PartitionTotals(es: seq<Entry>)
    ensures var files, dirs := EntriesOfKind(false, es), EntriesOfKind(true, es);
      && |files| + |dirs| == |es|
      && TokenSum(files) + TokenSum(dirs) == TokenSum(es)
      && LineSum(files) + LineSum(dirs) == LineSum(es)
    decreases |es|
  {
    if es != [] {
      PartitionTotals(es[1..]);
      var head := [es[0]];
      var files, dirs := EntriesOfKind(false, es[1..]), EntriesOfKind(true, es[1..]);
      if es[0].DirectoryEntry? {
        assert EntriesOfKind(false, es) == files;
        assert EntriesOfKind(true, es) == head + dirs;
        SumsAppend(head, dirs);
      } else {
        assert EntriesOfKind(false, es) == head + files;
        assert EntriesOfKind(true, es) == dirs;
        SumsAppend(head, files);
      }
    }
  }

  /** Reordering each codebase files-first keeps the document's totals. */
  lemma {:induction false} NormalizeAllTotals(cs: seq<Snapshot>)
    ensures SameTotals(AllEntries(NormalizeAll(cs)), AllEntries(cs))
    decreases |cs|
  {
    if cs != [] {
      NormalizeAllTotals(cs[1..]);
      var es := cs[0].entries;
      var n := Normalize(cs[0]).entries;
      PartitionTotals(es);
      SumsAppend(EntriesOfKind(false, es), EntriesOfKind(true, es));
      assert NormalizeAll(cs)[1..] == NormalizeAll(cs[1..]);
      SumsAppend(n, AllEntries(NormalizeAll(cs[1..])));
      SumsAppend(es, AllEntries(cs[1..]));
    }
  }

  /** The statistics of an encoded document are the totals of the document itself:
      the decoder reorders entries but loses none. */
  lemma StatsOfEncoded(d: Document, directoryOnly: bool)
    requires ValidDocument(d)
    ensures var es := AllEntries(d.codebases);
      StatsOf(DecodeDocument(EncodeDocument(d)), directoryOnly)
        == Stats(|es|, TokenSum(es), if directoryOnly then 0 else LineSum(es), false)
  {
    DecodeEncoded(d);
    NormalizeAllTotals(d.codebases);
  }
}
