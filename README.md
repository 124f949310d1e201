# lc.py snapshot documents in Dafny

lc.py copies a codebase to the clipboard as one text document:

```
<lc>
<instructions>
...
</instructions>
<codebase path="...">
<file path="..." tokens="N">content</file>
<directory path="..." tokens="N"></directory>
</codebase>
</lc>
```

This project models the core of that program: the document objects and the text format
(`LCDocument`, `Codebase`, `FileEntry`, `DirectoryEntry` and their `to_string` /
`from_string`), how `SimpleGenerator.generate` builds a document from traversal records,
how `main` merges a new capture into the document already on the clipboard, how
`get_stats_from_content` counts a document, which files count as binary
(`_is_binary_file`), and how `parse_ignore_file` reads an ignore file.

The model has three layers.

- Value layer. `Model.Entry`, `Model.Snapshot` (the value of a `Codebase`) and
  `Model.Document` (the value of an `LCDocument`) are datatypes. `Model.EncodeDocument`
  writes the text.
- Decoder. `Codec.DecodeDocument` reads the text. It models each regular expression of
  `from_string` as a deterministic matcher anchored at a position (module `Scanner`).
  `re.finditer` becomes a scan that either matches at the current position or drops one
  character.
- Class layer. The classes `Lc.Codebase` and `Lc.LCDocument` hold the same fields as the
  Python objects. Their methods use the source's loops. Each method is proved against the
  value functions.

The central result is `RoundTrip.DecodeEncoded`. For a document whose paths, contents and
instructions cannot be mistaken for markup, `from_string(to_string(d))` gives back `d`'s
instructions and codebases. The only change is that each codebase lists its files before
its directories. This is because `Codebase.from_string` collects all file matches first
and all directory matches second.

## Model

| member | source | states |
|---|---|---|
| Lc.Codebase.constructor | lc.py:167-169 | a new codebase has the given path and no entries |
| Lc.Codebase.AddEntry | lc.py:171-172 | the entry is appended; path and earlier entries unchanged |
| Lc.Codebase.ToString | lc.py:174-180 | the loop builds exactly the encoder's text for the codebase value (header, one line per entry, closing tag, joined by "\n") |
| Lc.Codebase.FromString | lc.py:182-203 | the two `finditer` loops yield a fresh codebase whose value is the decoder's: the path, every file match in order, then every directory match in order |
| Lc.LCDocument.constructor | lc.py:117-119 | a new document holds the stripped default instructions and no codebases |
| Lc.LCDocument.AddOrUpdateCodebase | lc.py:121-126 | the object replaces the first codebase with its path, or is appended when none has it; instructions unchanged; the values follow `Merge.AddOrUpdate` |
| Lc.LCDocument.ToString | lc.py:128-139 | the text built line by line is the encoding of the document's value |
| Lc.LCDocument.FromString | lc.py:141-163 | null exactly when the text is empty or lacks `<lc>`; otherwise a fresh document whose value is the decoded document |
| Lc.LCDocument.ReadCodebases | lc.py:156-161 | the codebase objects already held stay in place; one fresh object is appended per codebase block, in order, each decoded from its block; instructions unchanged |
| Lc.LCDocument.ReadAt | lc.py:156-161 | one position of the `finditer` scan: a block starting there appends a fresh object decoded from it and the scan resumes after the block, otherwise one character later; the values so far plus the rest of the scan are unchanged |
| Lc.LCDocument.AppendDecoded | lc.py:158-161 | a fresh codebase object decoded from the block's path and body is appended; nothing else changes |
| Lc.Generate | lc.py:308-325 | the text is the encoding of a fresh document with the default instructions and one codebase keyed by `pwd`, holding one entry per record |
| Lc.GetStatsFromContent | lc.py:366-388 | the statistics are those of the decoded document; all zeros when the text is not a document |
| Lc.Tally | lc.py:371-388 | the nested loops count every entry, sum its tokens and sum the lines of file entries; lines are reported as 0 in directory-only mode |
| Merge.IndexOfPath | lc.py:121-124 | the result is the first index with the path; None exactly when no codebase has it |
| Merge.AddOrUpdateReplaces | lc.py:121-124 | a present path: the new codebase takes the first such index; length and all other codebases unchanged |
| Merge.AddOrUpdateAppends | lc.py:126 | a new path: the codebase is appended and every earlier codebase keeps its index |
| Merge.AddOrUpdatePaths | lc.py:121-126 | the paths afterwards are the old paths plus the new codebase's path |
| Merge.AddOrUpdateIdempotent | lc.py:121-126 | adding the same codebase twice has the effect of adding it once |
| Merge.AddOrUpdateUnique | lc.py:121-126 | distinct paths stay distinct |
| Merge.AddOrUpdateFrom | lc.py:121-126 | every codebase afterwards is the new one or was there before |
| Model.EncodeEntry | lc.py:213-223 | `FileEntry.to_string` writes a tag starting `<file path="` and the path and ending in `</file>`; `DirectoryEntry.to_string` one starting `<directory path="` and the path and ending in `"></directory>` |
| Codec.TokensAttribute | lc.py:187 | the tokens group is a non-empty run of digits and the match consumes text |
| Codec.MatchFile | lc.py:187 | a file match starts with `<file`, consumes text and yields a file entry with a non-empty, quote-free path |
| Codec.MatchDirectory | lc.py:196 | a directory match starts with `<directory`, consumes text and yields a directory entry with a non-empty, quote-free path |
| Codec.MatchEntry | lc.py:187-196 | the file or directory pattern, by the flag; the entry's kind follows the flag |
| Codec.ScanEntries | lc.py:188-201 | every entry found by `finditer` has the scanned kind and a valid attribute path |
| Codec.DecodeCodebase | lc.py:182-203 | the codebase keeps its path and lists its files before its directories |
| Codec.MatchCodebase | lc.py:156 | a codebase match starts with `<codebase`, consumes text and has a non-empty, quote-free path |
| Codec.ScanCodebases | lc.py:156-161 | every decoded codebase has a valid path and lists files first |
| Codec.MatchInstructions | lc.py:149-151 | an instructions match starts with `<instructions>` |
| Codec.InstructionsOf | lc.py:149-153 | the instructions are stripped, whether they come from the text or are the default |
| Codec.DecodeDocument | lc.py:141-163 | a document exactly when the text is non-empty and contains `<lc>`; its instructions are stripped, and its codebases have valid paths and list files first |
| RoundTrip.DecodeEncoded | lc.py:141-163 | decoding the encoding of a valid document gives its instructions and its codebases, files first |
| RoundTrip.RoundTripExact | lc.py:141-163 | a valid document whose codebases already list files first is decoded unchanged |
| RoundTrip.DecodedIsNormal | lc.py:182-203 | any decoded document is already in files-first order |
| RoundTrip.MatchFileEncoded | lc.py:213-214 | the file pattern reads back exactly the file entry its `to_string` wrote, and stops right after `</file>` |
| RoundTrip.MatchDirectoryEncoded | lc.py:222-223 | the directory pattern reads back exactly the directory entry its `to_string` wrote |
| RoundTrip.QuoteBarrier | lc.py:156 | no codebase match can start inside a quote-free region that is followed by a `/` before any quote |
| RoundTrip.DefaultInstructionsValid | lc.py:29-35 | the default instructions survive the round trip |
| Usage.InstructionsTextPlain | lc.py:29-35 | the instructions text holds no `"` and no `/` |
| Text.StripIsStripped | lc.py:153 | `strip()` leaves no whitespace at either end and is idempotent |
| Text.StripPadded | lc.py:342 | stripping whitespace around a stripped text gives that text |
| Text.ParseDecimalString | lc.py:190 | `int()` of the decimal digits written for n is n |
| Text.LineCountBounds | lc.py:211 | `splitlines()` gives no lines only for empty text, and never more lines than characters |
| Text.LineCountNewlines | lc.py:211 | with "\n" as the only line boundary, the line count is the number of "\n" plus one for an unterminated last line |
| Model.FileLinesCount | lc.py:211 | `FileEntry.lines` is 0 exactly for empty content, at most the length, and counts "\n"-terminated lines plus an unterminated last one |
| Model.EncodeEntriesAppend | lc.py:174-180 | the entry lines of two lists written one after the other are the lines of each, in order (each entry is its own "\n"-led line) |
| Statistics.StatsOfText | lc.py:366-388 | a text that is not a document has all-zero statistics; token errors are never reported; directory-only mode reports no lines |
| Statistics.PartitionTotals | lc.py:376-381 | splitting entries into files and directories loses no entry, token or line |
| Statistics.NormalizeAllTotals | lc.py:376-381 | the files-first reordering keeps the totals |
| Statistics.StatsOfEncoded | lc.py:366-388 | the statistics of an encoded valid document are the totals of the document itself |
| Assembly.GeneratedEntries | lc.py:315-321 | one entry per record, in order, with the record's path and tokens; a directory entry exactly in directory-only mode, and otherwise one carrying the record's content |
| Assembly.GeneratedDecodes | lc.py:308-325 | the generated text decodes to the generated document unchanged |
| Assembly.GeneratedTotals | lc.py:315-321 | the generated entries carry the record tokens and the record lines |
| Assembly.GeneratedStats | lc.py:366-388 | the statistics of the generated text are the record count, the record tokens and the record lines (0 in directory-only mode) |
| Assembly.MergeClipboard | lc.py:583-596 | the clipboard text after a capture: the new text when the clipboard or the new text is not a document; otherwise a document text that starts with the clipboard document's instructions block |
| Assembly.MergeIntoNonDocument | lc.py:583-596 | a clipboard that is empty or lacks `<lc>` is replaced by the new text |
| Assembly.MergeStep | lc.py:588-592 | a clipboard document and a one-codebase capture merge into the encoding of the document with that codebase added or updated |
| Assembly.MergeDecoded | lc.py:586-592 | the merged text decodes to the clipboard's instructions with the capture's codebase added or updated |
| Assembly.MergeGenerated | lc.py:583-596 | merging a generated capture into an encoded document gives its instructions and its files-first codebases with the new codebase added or updated |
| Assembly.MergeTwice | lc.py:583-596 | merging the same capture again leaves the clipboard text unchanged |
| Ignore.IsBinaryFile | lc.py:273-274 | a path is binary when its lower-cased form ends with one of the extensions; a binary path has a dot with at least one character after it |
| Ignore.ExtensionsAreDotted | lc.py:37-102 | every binary extension is a dot followed by at least one character |
| Ignore.BinaryIgnoresCase | lc.py:273-274 | a path is binary exactly when its lower-cased form is |
| Ignore.BinaryUnderAnyDirectory | lc.py:273-274 | a binary name stays binary under any directory prefix |
| Ignore.DotlessNotBinary | lc.py:273-274 | a path without a dot is never binary |
| Ignore.UpperCaseImageIsBinary | lc.py:273-274 | an upper-case `.PNG` name is binary |
| Ignore.TrueTypeFontNotBinary | lc.py:48 | as written, `font.ttf` is not binary |
| Ignore.TrueTypeFontBinaryCorrected | lc.py:273-274 | with `.ttf` in the list, any name ending in `.ttf` or `.TTF` is binary |
| Ignore.CorrectionOnlyFonts | lc.py:37-102 | the corrected list classifies every path not ending in `.tff` or `.ttf` as the list as written does |
| Ignore.IgnorePattern | lc.py:342-346 | a line gives no pattern exactly when stripped it is empty or a `#` comment; otherwise the stripped line, less one leading `/` |
| Ignore.ParseIgnoreFile | lc.py:337-347 | no patterns for a missing file; otherwise the set of the patterns of its lines |
| Ignore.IgnorePatternsAppend | lc.py:337-347 | the patterns of two runs of lines are the union of their patterns |
| Ignore.CommentsAddNothing | lc.py:343 | blank and comment lines add no pattern |
| Ignore.PaddingIgnored | lc.py:342 | whitespace around a line does not change its pattern |
| Ignore.SlashDropped | lc.py:344-345 | a leading `/` is dropped: `/x` and `x` give the same pattern |
| Ignore.SlashAloneIsEmptyPattern | lc.py:344-346 | a line holding only `/` gives the empty pattern |

## Left out

- `CodebaseTraverser` (directory walk, matching the given patterns with `PathSpec`, `_process_file`, the `[Binary file]` placeholder with 2 tokens, the fallback of -1 tokens to 0) is not part of this model. Its output, the records, is an input of `Lc.Generate` and of the `Assembly` lemmas.
- `TokenCounter` (tiktoken) is a foreign library. Token counts are given as natural numbers in the records.
- `find_git_root`, `get_ignore_patterns` and file opening are I/O. `get_ignore_patterns` reads `.gitignore` and `.repoignore` from the git root (or the base directory) and `~/.repoignore`, and adds `.git`, `.repo`, `package-lock.json` and `yarn.lock`; that union is not modelled. `Ignore.ParseIgnoreFile` takes one file as `None` when it is missing, or as its lines, and `Ignore.IgnorePatternsAppend` gives the union of several files' patterns.
- `pyperclip`: the clipboard text and the generated text are parameters of `Assembly.MergeClipboard`.
- `Config`, the OpenAI call, `generate_command`, `print_stats`, `argparse` and `os.system` are configuration, network, console output and process control.
- Regular expressions in general: only the four patterns of `from_string` are modelled, each as its own matcher.
- `\d` and `int()` accept only ASCII digits, and `lower()` maps only ASCII letters; Python also accepts other Unicode digits and letters.
- Token counts are natural numbers. The source never produces a negative count.
- Lc.LCDocument.AddOrUpdateCodebase: the search for the index and the update are two steps, where the source updates inside the loop and returns. The result is the same.
- RoundTrip.DecodeEncoded: entry paths are required to hold no `<`. This is a sufficient condition, stronger than the exact one. Instructions are required to hold no `"`, which is also sufficient but stronger than needed.
- Statistics.StatsOf: the `lines` field of a record is not used. The statistics recompute lines from file contents, as `FileEntry.lines` does. `hasTokenErrors` is always false, because the source never sets it.
- `BINARY_EXTENSIONS` is one set in the source. The model writes it as a union of groups by kind, which is the same set.

## Findings

| source | as written | input that shows it | evidently intended | confidence | as-written member | corrected member |
|---|---|---|---|---|---|---|
| lc.py:48 | the font extensions of `BINARY_EXTENSIONS` list `.tff` | `_is_binary_file("font.ttf")` is false, so the bytes of a TrueType font are read as text | `.ttf`, the TrueType font extension | medium, not executed | Ignore.TrueTypeFontNotBinary | Ignore.TrueTypeFontBinaryCorrected |
