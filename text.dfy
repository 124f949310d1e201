/**
 * The few Python string built-ins the snapshot format leans on, given explicit
 * definitions: `str.isspace`/`str.strip`, `str.splitlines`, `in`, `startswith`,
 * `endswith`, `lower`, and the decimal conversions `str(int)` / `int(str)`.
 */
module Text {

  // ---------------------------------------------------------------------------
  // Whitespace and strip()
  // ---------------------------------------------------------------------------

  /** Python's `str.isspace()` for one character; a `\s` in a str pattern and
      `str.strip()` with no argument use the same set. */
  predicate IsSpace(c: char) {
    || ('\U{9}' <= c <= '\U{d}')
    || ('\U{1c}' <= c <= '\U{20}')
    || c == '\U{85}' || c == '\U{a0}' || c == '\U{1680}'
    || ('\U{2000}' <= c <= '\U{200a}')
    || c == '\U{2028}' || c == '\U{2029}' || c == '\U{202f}' || c == '\U{205f}' || c == '\U{3000}'
  }

  predicate AllSpaces(s: string) {
    forall k | 0 <= k < |s| :: IsSpace(s[k])
  }

  /** Drops leading whitespace: the result is a suffix of `s`, everything cut off
      is whitespace, and the result does not start with whitespace. */
  function StripLeft(s: string): (r: string)
    ensures |r| <= |s| && r == s[|s| - |r|..]
    ensures AllSpaces(s[..|s| - |r|])
    ensures r != [] ==> !IsSpace(r[0])
    decreases |s|
  {
    if s != [] && IsSpace(s[0]) then
      var r := StripLeft(s[1..]);
      assert s[..|s| - |r|] == [s[0]] + s[1..][..|s| - 1 - |r|];
      r
    else s
  }

  /** Drops trailing whitespace: the result is a prefix of `s`, everything cut off
      is whitespace, and the result does not end with whitespace. */
  function StripRight(s: string): (r: string)
    ensures |r| <= |s| && r == s[..|r|]
    ensures AllSpaces(s[|r|..])
    ensures r != [] ==> !IsSpace(r[|r| - 1])
    decreases |s|
  {
    if s != [] && IsSpace(s[|s| - 1]) then
      var r := StripRight(s[..|s| - 1]);
      assert s[|r|..] == s[..|s| - 1][|r|..] + [s[|s| - 1]];
      r
    else s
  }

  /** Python's `s.strip()`. */
  function Strip(s: string): string {
    StripRight(StripLeft(s))
  }

  predicate IsStripped(s: string) {
    s == [] || (!IsSpace(s[0]) && !IsSpace(s[|s| - 1]))
  }

  lemma StripLeftOfStripped(s: string, tail: string)
    requires s != [] && !IsSpace(s[0])
    ensures StripLeft(s + tail) == s + tail
  {
  }

  lemma {:induction false} StripLeftSpaces(pad: string, s: string)
    requires AllSpaces(pad)
    ensures StripLeft(pad + s) == StripLeft(s)
    decreases |pad|
  {
    if pad == [] {
      assert pad + s == s;
    } else {
      assert (pad + s)[0] == pad[0];
      assert (pad + s)[1..] == pad[1..] + s;
      StripLeftSpaces(pad[1..], s);
    }
  }

  lemma {:induction false} StripRightSpaces(s: string, pad: string)
    requires AllSpaces(pad)
    ensures StripRight(s + pad) == StripRight(s)
    decreases |pad|
  {
    if pad == [] {
      assert s + pad == s;
    } else {
      assert (s + pad)[|s + pad| - 1] == pad[|pad| - 1];
      assert (s + pad)[..|s + pad| - 1] == s + pad[..|pad| - 1];
      StripRightSpaces(s, pad[..|pad| - 1]);
    }
  }

  /** `strip()` gives a stripped string, and stripping is idempotent. */
  lemma StripIsStripped(s: string)
    ensures IsStripped(Strip(s))
    ensures Strip(Strip(s)) == Strip(s)
  {
    var l := StripLeft(s);
    var r := StripRight(l);
    if r != [] {
      assert r[0] == l[0];
    }
  }

  /** `strip()` leaves a stripped text as it is. */
  lemma StripOfStripped(s: string)
    requires IsStripped(s)
    ensures Strip(s) == s
  {
    if s != [] {
      StripLeftOfStripped(s, []);
      assert s + [] == s;
    }
  }

  /** Whitespace around an already stripped text is exactly what `strip()` removes. */
  lemma StripPadded(pre: string, s: string, post: string)
    requires AllSpaces(pre) && AllSpaces(post) && IsStripped(s)
    ensures Strip(pre + s + post) == s
  {
    assert pre + s + post == pre + (s + post);
    StripLeftSpaces(pre, s + post);
    if s == [] {
      assert s + post == [] + post;
      StripLeftSpaces(post, []);
      assert StripLeft(s + post) == [];
    } else {
      StripLeftOfStripped(s, post);
      StripRightSpaces(s, post);
    }
  }

  // ---------------------------------------------------------------------------
  // Substring tests
  // ---------------------------------------------------------------------------

  /** Python's `t.startswith(p)`. */
  predicate StartsWith(t: string, p: string) {
    |p| <= |t| && t[..|p|] == p
  }

  /** Python's `t.endswith(p)`. */
  predicate EndsWith(t: string, p: string) {
    |p| <= |t| && t[|t| - |p|..] == p
  }

  /** Python's `p in t`. */
  predicate Contains(t: string, p: string) {
    exists i | 0 <= i <= |t| :: StartsWith(t[i..], p)
  }

  lemma StartsWithConcat(p: string, rest: string)
    ensures StartsWith(p + rest, p)
  {
    assert (p + rest)[..|p|] == p;
  }

  /** A text that differs from `p` at some position inside both does not start with `p`. */
  lemma NotStartsWith(t: string, p: string, k: nat)
    requires k < |t| && k < |p| && t[k] != p[k]
    ensures !StartsWith(t, p)
  {
  }

  // ---------------------------------------------------------------------------
  // splitlines()
  // ---------------------------------------------------------------------------

  /** The line boundaries Python's `str.splitlines()` recognises ("\r\n" counts as one). */
  predicate IsLineBreak(c: char) {
    || c == '\n' || c == '\r' || c == '\U{b}' || c == '\U{c}'
    || c == '\U{1c}' || c == '\U{1d}' || c == '\U{1e}'
    || c == '\U{85}' || c == '\U{2028}' || c == '\U{2029}'
  }

  /** Index of the first line boundary in `s`, or `|s|` when there is none. */
  function LineEnd(s: string): (n: nat)
    ensures n <= |s|
    ensures forall k | 0 <= k < n :: !IsLineBreak(s[k])
    ensures n < |s| ==> IsLineBreak(s[n])
    decreases |s|
  {
    if s == [] || IsLineBreak(s[0]) then 0 else 1 + LineEnd(s[1..])
  }

  /** What follows the first line of a non-empty `s` and that line's terminator. */
  function AfterFirstLine(s: string): (r: string)
    requires s != []
    ensures |r| < |s| && r == s[|s| - |r|..]
  {
    var n := LineEnd(s);
    if n == |s| then []
    else if s[n] == '\r' && n + 1 < |s| && s[n + 1] == '\n' then s[n + 2..]
    else s[n + 1..]
  }

  /** `len(s.splitlines())`: a final terminator does not start another line. */
  function LineCount(s: string): nat
    decreases |s|
  {
    if s == [] then 0 else 1 + LineCount(AfterFirstLine(s))
  }

  function CountChar(s: string, c: char): nat
    decreases |s|
  {
    if s == [] then 0 else (if s[0] == c then 1 else 0) + CountChar(s[1..], c)
  }

  lemma {:induction false} CountCharConcat(a: string, b: string, c: char)
    ensures CountChar(a + b, c) == CountChar(a, c) + CountChar(b, c)
    decreases |a|
  {
    if a == [] {
      assert a + b == b;
    } else {
      assert (a + b)[0] == a[0];
      assert (a + b)[1..] == a[1..] + b;
      CountCharConcat(a[1..], b, c);
    }
  }

  lemma {:induction false} CountCharAbsent(s: string, c: char)
    requires forall k | 0 <= k < |s| :: s[k] != c
    ensures CountChar(s, c) == 0
    decreases |s|
  {
    if s != [] {
      CountCharAbsent(s[1..], c);
    }
  }

  predicate OnlyNewlineBreaks(s: string) {
    forall k | 0 <= k < |s| :: IsLineBreak(s[k]) ==> s[k] == '\n'
  }

  /** One step of `LineCountNewlines`: the first line ends at a "\n". */
  lemma FirstLineAtNewline(s: string)
    requires s != [] && LineEnd(s) < |s| && s[LineEnd(s)] == '\n'
    ensures AfterFirstLine(s) == s[LineEnd(s) + 1..]
    ensures CountChar(s, '\n') == 1 + CountChar(s[LineEnd(s) + 1..], '\n')
  {
    var n := LineEnd(s);
    assert s == s[..n] + s[n..];
    CountCharConcat(s[..n], s[n..], '\n');
    CountCharAbsent(s[..n], '\n');
    assert s[n..][1..] == s[n + 1..];
  }

  /** A text without line boundaries is one line. */
  lemma SingleLine(s: string)
    requires s != [] && LineEnd(s) == |s|
    ensures LineCount(s) == 1 && CountChar(s, '\n') == 0 && s[|s| - 1] != '\n'
  {
    CountCharAbsent(s, '\n');
    assert AfterFirstLine(s) == [];
    assert !IsLineBreak(s[|s| - 1]);
  }

  lemma OnlyNewlineBreaksSuffix(s: string, i: nat)
    requires i <= |s| && OnlyNewlineBreaks(s)
    ensures OnlyNewlineBreaks(s[i..])
  {
    forall k | 0 <= k < |s| - i ensures IsLineBreak(s[i..][k]) ==> s[i..][k] == '\n' {
      assert s[i..][k] == s[i + k];
    }
  }

  /** For text whose only line boundary is "\n", `splitlines()` yields one line per
      "\n" plus one for an unterminated last line. */
  lemma {:induction false} LineCountNewlines(s: string)
    requires OnlyNewlineBreaks(s)
    ensures LineCount(s) == CountChar(s, '\n') + (if s != [] && s[|s| - 1] != '\n' then 1 else 0)
    decreases |s|
  {
    if s != [] {
      var n := LineEnd(s);
      if n == |s| {
        SingleLine(s);
      } else {
        assert IsLineBreak(s[n]);
        FirstLineAtNewline(s);
        var rest := s[n + 1..];
        OnlyNewlineBreaksSuffix(s, n + 1);
        LineCountNewlines(rest);
        if rest != [] {
          assert s[|s| - 1] == rest[|rest| - 1];
        }
      }
    }
  }

  /** `splitlines()` of a non-empty text has at least one line and never more lines than characters. */
  lemma {:induction false} LineCountBounds(s: string)
    ensures (LineCount(s) == 0) == (s == [])
    ensures LineCount(s) <= |s|
    decreases |s|
  {
    if s != [] {
      LineCountBounds(AfterFirstLine(s));
    }
  }

  // ---------------------------------------------------------------------------
  // Decimal numerals: str(n) and int(digits)
  // ---------------------------------------------------------------------------

  /** ASCII decimal digits (Python's `\d` and `int()` also accept other Unicode digits; not modelled). */
  predicate IsDigit(c: char) {
    '0' <= c <= '9'
  }

  predicate AllDigits(s: string) {
    forall k | 0 <= k < |s| :: IsDigit(s[k])
  }

  function DigitChar(d: nat): (c: char)
    requires d < 10
    ensures IsDigit(c)
  {
    ('0' as int + d) as char
  }

  /** `str(n)` for a non-negative `n`. */
  function DecimalString(n: nat): (r: string)
    ensures r != [] && AllDigits(r)
    decreases n
  {
    if n < 10 then [DigitChar(n)] else DecimalString(n / 10) + [DigitChar(n % 10)]
  }

  /** `int(s)` for a string of decimal digits. */
  function ParseDecimal(s: string): nat
    requires AllDigits(s)
    decreases |s|
  {
    if s == [] then 0 else 10 * ParseDecimal(s[..|s| - 1]) + (s[|s| - 1] as int - '0' as int)
  }

  /** `int(str(n)) == n`: the token count written by the encoder is read back unchanged. */
  lemma {:induction false} ParseDecimalString(n: nat)
    ensures ParseDecimal(DecimalString(n)) == n
    decreases n
  {
    if n >= 10 {
      var s := DecimalString(n);
      assert s[..|s| - 1] == DecimalString(n / 10);
      ParseDecimalString(n / 10);
    }
  }

  // ---------------------------------------------------------------------------
  // lower()
  // ---------------------------------------------------------------------------

  /** `c.lower()` restricted to ASCII letters. */
  function LowerChar(c: char): char {
    if 'A' <= c <= 'Z' then (c as int + 32) as char else c
  }

  /** `s.lower()` restricted to ASCII letters: same length, each character lowered. */
  function Lower(s: string): (r: string)
    ensures |r| == |s| && forall k | 0 <= k < |s| :: r[k] == LowerChar(s[k])
  {
    seq(|s|, k requires 0 <= k < |s| => LowerChar(s[k]))
  }
}
