/**
 * INSTRUCTIONS_TEXT of lc.py, the usage notes a fresh document carries, and the two
 * characters it never holds.  The text is written as named fragments only so that the
 * verifier can check it piece by piece: the fragment constants and the `...LinePlain`
 * lemmas are proof helpers, and their concatenation is the text of lc.py.
 */
module Usage {
  /** INSTRUCTIONS_TEXT, the default usage notes at the head of every document: a line
      feed, five lines, each ending in a line feed. */
  const InstructionsText: string :=
    "\n" + IntroLine + CodebaseLine + FileLine + ContentLine + DirectoryLine

  const IntroLine: string :=
    "This document " + "contains a " + "representation " + "of one or " + "more " + "codebases.\n"
  const CodebaseLine: string :=
    "Each codebase " + "is enclosed " + "in <codebase> " + "tags with a " + "'path' " + "attribute.\n"
  const FileLine: string :=
    "Files are " + "represented " + "by <file> " + "tags with the " + "'path' " + "attribute.\n"
  const ContentLine: string :=
    "File contents " + "are stored " + "within the " + "<file> tags.\n"
  const DirectoryLine: string :=
    "For directory" + "-only mode, " + "<directory> " + "tags are " + "used instead " + "of <file> " + "tags.\n"

  /** Free of the two characters the quote barrier relies on. */
  predicate Plain(s: string) {
    forall i | 0 <= i < |s| :: s[i] != '"' && s[i] != '/'
  }

  lemma PlainLacks(s: string)
    requires Plain(s)
    ensures '"' !in s && '/' !in s
  {
  }

  lemma PlainConcat(a: string, b: string)
    requires Plain(a) && Plain(b)
    ensures Plain(a + b)
  {
    forall i | 0 <= i < |a + b| ensures (a + b)[i] != '"' && (a + b)[i] != '/' {
      if i >= |a| {
        assert (a + b)[i] == b[i - |a|];
      }
    }
  }

  lemma IntroLinePlain()
    ensures Plain(IntroLine)
  {
    PlainConcat("This document ", "contains a ");
    PlainConcat("This document " + "contains a ", "representation ");
    PlainConcat("This document " + "contains a " + "representation ", "of one or ");
    PlainConcat("This document " + "contains a " + "representation " + "of one or ",
      "more ");
    PlainConcat("This document " + "contains a " + "representation " + "of one or " + "more ",
      "codebases.\n");
  }

  lemma CodebaseLinePlain()
    ensures Plain(CodebaseLine)
  {
    PlainConcat("Each codebase ", "is enclosed ");
    PlainConcat("Each codebase " + "is enclosed ", "in <codebase> ");
    PlainConcat("Each codebase " + "is enclosed " + "in <codebase> ", "tags with a ");
    PlainConcat("Each codebase " + "is enclosed " + "in <codebase> " + "tags with a ",
      "'path' ");
    PlainConcat("Each codebase " + "is enclosed " + "in <codebase> " + "tags with a " + "'path' ",
      "attribute.\n");
  }

  lemma FileLinePlain()
    ensures Plain(FileLine)
  {
    PlainConcat("Files are ", "represented ");
    PlainConcat("Files are " + "represented ", "by <file> ");
    PlainConcat("Files are " + "represented " + "by <file> ", "tags with the ");
    PlainConcat("Files are " + "represented " + "by <file> " + "tags with the ",
      "'path' ");
    PlainConcat("Files are " + "represented " + "by <file> " + "tags with the " + "'path' ",
      "attribute.\n");
  }

  lemma ContentLinePlain()
    ensures Plain(ContentLine)
  {
    PlainConcat("File contents ", "are stored ");
    PlainConcat("File contents " + "are stored ", "within the ");
    PlainConcat("File contents " + "are stored " + "within the ", "<file> tags.\n");
  }

  lemma DirectoryLinePlain()
    ensures Plain(DirectoryLine)
  {
    PlainConcat("For directory", "-only mode, ");
    PlainConcat("For directory" + "-only mode, ", "<directory> ");
    PlainConcat("For directory" + "-only mode, " + "<directory> ", "tags are ");
    PlainConcat("For directory" + "-only mode, " + "<directory> " + "tags are ",
      "used instead ");
    PlainConcat("For directory" + "-only mode, " + "<directory> " + "tags are " + "used instead ",
      "of <file> ");
    PlainConcat("For directory" + "-only mode, " + "<directory> " + "tags are " + "used instead " + "of <file> ",
      "tags.\n");
  }

  /** INSTRUCTIONS_TEXT holds no `"` and no `/`. */
  lemma InstructionsTextPlain()
    ensures Plain(InstructionsText)
  {
    IntroLinePlain();
    CodebaseLinePlain();
    FileLinePlain();
    ContentLinePlain();
    DirectoryLinePlain();
    assert Plain("\n");
    PlainConcat("\n", IntroLine);
    PlainConcat("\n" + IntroLine, CodebaseLine);
    PlainConcat("\n" + IntroLine + CodebaseLine, FileLine);
    PlainConcat("\n" + IntroLine + CodebaseLine + FileLine, ContentLine);
    PlainConcat("\n" + IntroLine + CodebaseLine + FileLine + ContentLine, DirectoryLine);
  }
}
