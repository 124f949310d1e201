/**
 * Which files lc.py treats as binary (`_is_binary_file` over `BINARY_EXTENSIONS`)
 * and which patterns an ignore file such as `.gitignore` or `.repoignore` contributes
 * (`parse_ignore_file`).
 */
module Ignore {
  import opened Wrappers
  import opened Text

  /** BINARY_EXTENSIONS: the suffixes of files whose content is not read, grouped by
      kind (the source lists them as one set). */
  const BinaryExtensions: set<string> :=
    {".wasm"} + ImageExtensions + FontExtensions + DocumentExtensions + AudioExtensions
    + VideoExtensions + ArchiveExtensions + TarExtensions

  const ImageExtensions: set<string> :=
    {".png", ".jpg", ".jpeg", ".gif", ".bmp", ".ico", ".svg", ".webp", ".tiff", ".tif",
     ".psd", ".raw", ".heif"}

  const FontExtensions: set<string> := {".tff", ".woff", ".woff2"}

  const DocumentExtensions: set<string> :=
    {".indd", ".ai", ".eps", ".pdf", ".docx", ".pptx", ".xlsx"}

  const AudioExtensions: set<string> := {".mp3", ".flac", ".wav", ".aac", ".wma", ".ogg", ".m4a"}

  const VideoExtensions: set<string> :=
    {".mp4", ".mkv", ".webm", ".avi", ".mov", ".wmv", ".mpg", ".mpeg", ".flv", ".3gp"}

  const ArchiveExtensions: set<string> :=
    {".zip", ".rar", ".7z", ".gz", ".tar", ".tgz", ".bz2", ".xz", ".lz", ".lz4", ".lzo",
     ".zst", ".zstd", ".z"}

  const TarExtensions: set<string> :=
    {".tar.gz", ".tar.xz", ".tar.bz2", ".tar.lz", ".tar.lz4", ".tar.lzo", ".tar.zst",
     ".tar.zstd", ".tar.z"}

  /** `s.endswith(tuple(suffixes))`. */
  predicate EndsWithAny(s: string, suffixes: set<string>) {
    exists p | p in suffixes :: EndsWith(s, p)
  }

  /** `_is_binary_file`: the lower-cased path ends with one of the binary extensions.
      A binary path has a dot with at least one character after it. */
  predicate IsBinaryFile(path: string)
    ensures IsBinaryFile(path) ==> |path| >= 2 && '.' in path[..|path| - 1]
  {
    BinaryShape(path);
    EndsWithAny(Lower(path), BinaryExtensions)
  }

  lemma BinaryShape(path: string)
    ensures EndsWithAny(Lower(path), BinaryExtensions) ==> |path| >= 2 && '.' in path[..|path| - 1]
  {
    var s := Lower(path);
    if EndsWithAny(s, BinaryExtensions) {
      ExtensionsAreDotted();
      var p :| p in BinaryExtensions && EndsWith(s, p);
      var k := |s| - |p|;
      assert s[k] == s[k..][0] == '.';
      assert LowerChar(path[k]) == '.';
      assert path[..|path| - 1][k] == '.';
    }
  }

  // ---------------------------------------------------------------------------
  // Lower-casing
  // ---------------------------------------------------------------------------

  lemma LowerTwice(s: string)
    ensures Lower(Lower(s)) == Lower(s)
  {
  }

  lemma LowerConcat(a: string, b: string)
    ensures Lower(a + b) == Lower(a) + Lower(b)
  {
  }

  // ---------------------------------------------------------------------------
  // Binary files
  // ---------------------------------------------------------------------------

  /** Text that ends with one of the suffixes still does with anything put before it. */
  lemma EndsWithAnyAfter(prefix: string, s: string, suffixes: set<string>)
    requires EndsWithAny(s, suffixes)
    ensures EndsWithAny(prefix + s, suffixes)
  {
    var p :| p in suffixes && EndsWith(s, p);
    assert (prefix + s)[|prefix + s| - |p|..] == s[|s| - |p|..];
  }

  /** Text without a dot ends with none of a set of suffixes that all begin with one. */
  lemma DotlessEndsWithNone(s: string, suffixes: set<string>)
    requires forall k | 0 <= k < |s| :: s[k] != '.'
    requires Dotted(suffixes)
    ensures !EndsWithAny(s, suffixes)
  {
  }

  /** Every suffix of the set is a dot followed by at least one character. */
  predicate Dotted(suffixes: set<string>) {
    forall p | p in suffixes :: |p| >= 2 && p[0] == '.'
  }

  lemma DottedUnion(a: set<string>, b: set<string>)
    requires Dotted(a) && Dotted(b)
    ensures Dotted(a + b)
  {
  }

  lemma ImagesDotted()
    ensures Dotted(ImageExtensions)
  {
  }

  lemma FontsAndDocumentsDotted()
    ensures Dotted({".wasm"}) && Dotted(FontExtensions) && Dotted(DocumentExtensions)
  {
  }

  lemma AudioAndVideoDotted()
    ensures Dotted(AudioExtensions) && Dotted(VideoExtensions)
  {
  }

  lemma ArchivesDotted()
    ensures Dotted(ArchiveExtensions) && Dotted(TarExtensions)
  {
  }

  lemma ExtensionsAreDotted()
    ensures Dotted(BinaryExtensions)
  {
    ImagesDotted();
    FontsAndDocumentsDotted();
    AudioAndVideoDotted();
    ArchivesDotted();
    var all := {".wasm"};
    DottedUnion(all, ImageExtensions);
    all := all + ImageExtensions;
    DottedUnion(all, FontExtensions);
    all := all + FontExtensions;
    DottedUnion(all, DocumentExtensions);
    all := all + DocumentExtensions;
    DottedUnion(all, AudioExtensions);
    all := all + AudioExtensions;
    DottedUnion(all, VideoExtensions);
    all := all + VideoExtensions;
    DottedUnion(all, ArchiveExtensions);
    all := all + ArchiveExtensions;
    DottedUnion(all, TarExtensions);
    all := all + TarExtensions;
  }

  /** The test ignores case: a path is binary exactly when its lower-cased form is. */
  lemma BinaryIgnoresCase(path: string)
    ensures IsBinaryFile(Lower(path)) <==> IsBinaryFile(path)
  {
    LowerTwice(path);
  }

  /** Only the end of the path matters: whatever stands before a binary file name,
      the path stays binary. */
  lemma BinaryUnderAnyDirectory(dir: string, name: string)
    requires IsBinaryFile(name)
    ensures IsBinaryFile(dir + name)
  {
    LowerConcat(dir, name);
    EndsWithAnyAfter(Lower(dir), Lower(name), BinaryExtensions);
  }

  /** A path without a dot is never binary: every extension starts with one. */
  lemma DotlessNotBinary(path: string)
    requires forall k | 0 <= k < |path| :: path[k] != '.'
    ensures !IsBinaryFile(path)
  {
    ExtensionsAreDotted();
    DotlessEndsWithNone(Lower(path), BinaryExtensions);
  }

  /** An upper-case image name is binary: one concrete instance of `BinaryIgnoresCase`,
      kept as an example. */
  lemma UpperCaseImageIsBinary()
    ensures IsBinaryFile("Logo.PNG")
  {
    LowerLogo();
    PngIsBinary();
    assert EndsWith("logo.png", ".png") by {
      assert "logo.png"[4..] == ".png";
    }
    EndsWithMember("logo.png", ".png", BinaryExtensions);
  }

  lemma LowerLogo()
    ensures Lower("Logo.PNG") == "logo.png"
  {
  }

  lemma PngIsBinary()
    ensures ".png" in BinaryExtensions
  {
    assert ".png" in ImageExtensions;
  }

  lemma EndsWithMember(s: string, p: string, suffixes: set<string>)
    requires p in suffixes && EndsWith(s, p)
    ensures EndsWithAny(s, suffixes)
  {
  }

  // ---------------------------------------------------------------------------
  // The font extension `.tff`
  // ---------------------------------------------------------------------------

  /** The only dotted suffix of "font.ttf" is ".ttf". */
  lemma FontFileDottedSuffix(p: string)
    requires |p| >= 2 && p[0] == '.' && EndsWith("font.ttf", p)
    ensures p == ".ttf"
  {
    var s := "font.ttf";
    assert s[|s| - |p|..][0] == s[|s| - |p|];
    assert |s| - |p| == 4;
  }

  lemma TtfNotListed()
    ensures ".ttf" !in BinaryExtensions
  {
    TtfNotImage();
    TtfNotFontOrDocument();
    TtfNotAudioOrVideo();
    TtfNotArchive();
  }

  lemma TtfNotImage()
    ensures ".ttf" !in ImageExtensions
  {
  }

  lemma TtfNotFontOrDocument()
    ensures ".ttf" !in {".wasm"} && ".ttf" !in FontExtensions && ".ttf" !in DocumentExtensions
  {
  }

  lemma TtfNotAudioOrVideo()
    ensures ".ttf" !in AudioExtensions && ".ttf" !in VideoExtensions
  {
  }

  lemma TtfNotArchive()
    ensures ".ttf" !in ArchiveExtensions && ".ttf" !in TarExtensions
  {
  }

  lemma LowerFontFile()
    ensures Lower("font.ttf") == "font.ttf"
  {
  }

  lemma LowerTtf()
    ensures Lower(".ttf") == ".ttf" && Lower(".TTF") == ".ttf"
  {
  }

  /** As written, the font list holds ".tff" and not ".ttf": a TrueType font file is
      not treated as binary, so its bytes would be read as text. */
  lemma TrueTypeFontNotBinary()
    ensures !IsBinaryFile("font.ttf")
  {
    LowerFontFile();
    ExtensionsAreDotted();
    TtfNotListed();
    forall p | p in BinaryExtensions
      ensures !EndsWith("font.ttf", p)
    {
      if EndsWith("font.ttf", p) {
        FontFileDottedSuffix(p);
      }
    }
  }

  /** The extensions with the TrueType font suffix spelled ".ttf". */
  const CorrectedBinaryExtensions: set<string> := BinaryExtensions - {".tff"} + {".ttf"}

  /** `_is_binary_file` with the corrected font suffix. */
  predicate IsBinaryFileCorrected(path: string) {
    EndsWithAny(Lower(path), CorrectedBinaryExtensions)
  }

  /** With the corrected list a TrueType font file is binary, whatever its case. */
  lemma TrueTypeFontBinaryCorrected(name: string)
    ensures IsBinaryFileCorrected(name + ".ttf") && IsBinaryFileCorrected(name + ".TTF")
  {
    var ttf := ".ttf";
    assert ttf in CorrectedBinaryExtensions;
    assert EndsWith(ttf, ttf);
    EndsWithMember(ttf, ttf, CorrectedBinaryExtensions);
    EndsWithAnyAfter(Lower(name), ttf, CorrectedBinaryExtensions);
    LowerTtf();
    LowerConcat(name, ".ttf");
    LowerConcat(name, ".TTF");
  }

  /** The correction changes nothing else: every other path is binary under the
      corrected list exactly when it is under the list as written. */
  lemma CorrectionOnlyFonts(path: string)
    requires !EndsWith(Lower(path), ".tff") && !EndsWith(Lower(path), ".ttf")
    ensures IsBinaryFileCorrected(path) == IsBinaryFile(path)
  {
    var s := Lower(path);
    if IsBinaryFile(path) {
      var p :| p in BinaryExtensions && EndsWith(s, p);
      assert p in CorrectedBinaryExtensions;
    }
    if IsBinaryFileCorrected(path) {
      var p :| p in CorrectedBinaryExtensions && EndsWith(s, p);
      assert p in BinaryExtensions;
    }
  }

  // ---------------------------------------------------------------------------
  // Ignore files
  // ---------------------------------------------------------------------------

  /** The pattern one line of an ignore file contributes: the stripped line, less one
      leading "/", unless the stripped line is empty or a "#" comment. */
  function IgnorePattern(line: string): (r: Option<string>)
    ensures r.None? <==> Strip(line) == [] || StartsWith(Strip(line), "#")
    ensures r.Some? ==> Strip(line) == (if StartsWith(Strip(line), "/") then "/" else "") + r.value
  {
    var s := Strip(line);
    if s == [] || StartsWith(s, "#") then None
    else if StartsWith(s, "/") then
      assert s == "/" + s[1..];
      Some(s[1..])
    else Some(s)
  }

  /** The patterns of an ignore file given as its lines. */
  function IgnorePatterns(lines: seq<string>): set<string> {
    set k | 0 <= k < |lines| && IgnorePattern(lines[k]).Some? :: IgnorePattern(lines[k]).value
  }

  /** `parse_ignore_file`: no patterns when the file is missing, otherwise the pattern
      of every line that has one, as a set. */
  method ParseIgnoreFile(file: Option<seq<string>>) returns (patterns: set<string>)
    ensures file.None? ==> patterns == {}
    ensures file.Some? ==> patterns == IgnorePatterns(file.value)
  {
    patterns := {};
    if file.Some? {
      var lines := file.value;
      var i := 0;
      while i < |lines|
        invariant 0 <= i <= |lines|
        invariant patterns == IgnorePatterns(lines[..i])
      {
        var line := Strip(lines[i]);
        if line != [] && !StartsWith(line, "#") {
          if StartsWith(line, "/") {
            line := line[1..];
          }
          patterns := patterns + {line};
        }
        PatternsSnoc(lines, i);
        PatternsSingle(lines[i]);
        i := i + 1;
      }
      assert lines[..i] == lines;
    }
  }

  lemma PatternsSnoc(lines: seq<string>, i: nat)
    requires i < |lines|
    ensures IgnorePatterns(lines[..i + 1]) == IgnorePatterns(lines[..i]) + IgnorePatterns([lines[i]])
  {
    var done, line := lines[..i], [lines[i]];
    assert lines[..i + 1] == done + line;
    IgnorePatternsAppend(done, line);
  }

  /** The patterns of a single line: its pattern, if it has one. */
  lemma PatternsSingle(line: string)
    ensures IgnorePatterns([line]) == if IgnorePattern(line).Some? then {IgnorePattern(line).value} else {}
  {
    assert [line][0] == line;
  }

  /** The patterns of two files read one after the other are the union of their
      patterns: the order of lines and repeated lines do not matter. */
  lemma IgnorePatternsAppend(a: seq<string>, b: seq<string>)
    ensures IgnorePatterns(a + b) == IgnorePatterns(a) + IgnorePatterns(b)
  {
    var ab := a + b;
    forall p | p in IgnorePatterns(ab) ensures p in IgnorePatterns(a) + IgnorePatterns(b) {
      var k :| 0 <= k < |ab| && IgnorePattern(ab[k]) == Some(p);
      if k < |a| {
        assert ab[k] == a[k];
      } else {
        assert ab[k] == b[k - |a|];
      }
    }
    forall p | p in IgnorePatterns(a) + IgnorePatterns(b) ensures p in IgnorePatterns(ab) {
      if p in IgnorePatterns(a) {
        var k :| 0 <= k < |a| && IgnorePattern(a[k]) == Some(p);
        assert ab[k] == a[k];
      } else {
        var k :| 0 <= k < |b| && IgnorePattern(b[k]) == Some(p);
        assert ab[|a| + k] == b[k];
      }
    }
  }

  /** Blank lines and comments add no pattern. */
  lemma CommentsAddNothing(lines: seq<string>, extra: seq<string>)
    requires forall k | 0 <= k < |extra| :: Strip(extra[k]) == [] || StartsWith(Strip(extra[k]), "#")
    ensures IgnorePatterns(lines + extra) == IgnorePatterns(lines)
  {
    IgnorePatternsAppend(lines, extra);
    assert IgnorePatterns(extra) == {};
  }

  /** Whitespace around a line, such as its line ending, does not change its pattern. */
  lemma PaddingIgnored(pre: string, line: string, post: string)
    requires AllSpaces(pre) && AllSpaces(post) && IsStripped(line)
    ensures IgnorePattern(pre + line + post) == IgnorePattern(line)
  {
    StripPadded(pre, line, post);
    StripOfStripped(line);
    SameStripSamePattern(pre + line + post, line);
  }

  lemma SameStripSamePattern(a: string, b: string)
    requires Strip(a) == Strip(b)
    ensures IgnorePattern(a) == IgnorePattern(b)
  {
  }

  /** A leading "/" anchors the pattern to the base directory and is dropped: a line
      and the same line with one "/" before it give the same pattern. */
  lemma SlashDropped(line: string)
    requires IsStripped(line) && line != [] && !StartsWith(line, "#") && !StartsWith(line, "/")
    ensures IgnorePattern("/" + line) == IgnorePattern(line) == Some(line)
  {
    StripPadded([], line, []);
    assert [] + line + [] == line;
    assert IsStripped("/" + line);
    StripPadded([], "/" + line, []);
    assert [] + ("/" + line) + [] == "/" + line;
    assert ("/" + line)[1..] == line;
  }

  /** A line holding only "/" gives the empty pattern. */
  lemma SlashAloneIsEmptyPattern()
    ensures IgnorePattern("/") == Some([])
  {
    StripPadded([], "/", []);
    assert [] + "/" + [] == "/";
  }
}
