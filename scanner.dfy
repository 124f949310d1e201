/**
 * The regular-expression pieces the decoder uses, as deterministic matchers on the
 * text that follows the current position.  Each returns what it consumed and what
 * is left, or None.
 *
 * - `\s+`, `[^"]+`, `\d+` are greedy, and in every pattern of the decoder they are
 *   followed by a literal they cannot match themselves (`p`, `"`), so the only run
 *   that can succeed is the longest one: `Spaces1`, `NonQuote1`, `Digits1`.
 * - `(.*?)X` under DOTALL is lazy, so it stops at the first occurrence of `X`:
 *   `UpTo`.
 */
module Scanner {
  import opened Wrappers
  import opened Text

  /** The text consumed by one piece of a pattern, and the text after it. */
  datatype Cut = Cut(taken: string, rest: string)

  /** A literal: on success, what follows it. */
  function Lit(t: string, p: string): (r: Option<string>)
    ensures r.Some? <==> StartsWith(t, p)
    ensures r.Some? ==> t == p + r.value
  {
    if StartsWith(t, p) then Some(t[|p|..]) else None
  }

  /** Length of the longest prefix of `t` made of whitespace. */
  function SpaceRun(t: string): (n: nat)
    ensures n <= |t| && AllSpaces(t[..n])
    ensures n < |t| ==> !IsSpace(t[n])
    decreases |t|
  {
    if t != [] && IsSpace(t[0]) then
      var n := 1 + SpaceRun(t[1..]);
      assert forall k | 1 <= k < n :: t[..n][k] == t[1..][..n - 1][k - 1];
      n
    else 0
  }

  /** `\s+`: at least one whitespace character, then everything up to the first
      character that is not whitespace. */
  function Spaces1(t: string): (r: Option<string>)
    ensures r.Some? <==> t != [] && IsSpace(t[0])
    ensures r.Some? ==> |r.value| < |t| && r.value == t[|t| - |r.value|..]
    ensures r.Some? ==> AllSpaces(t[..|t| - |r.value|])
    ensures r.Some? && r.value != [] ==> !IsSpace(r.value[0])
  {
    var n := SpaceRun(t);
    if n == 0 then None else Some(t[n..])
  }

  /** Length of the longest prefix of `t` free of double quotes. */
  function NonQuoteRun(t: string): (n: nat)
    ensures n <= |t| && '"' !in t[..n]
    ensures n < |t| ==> t[n] == '"'
    decreases |t|
  {
    if t != [] && t[0] != '"' then
      var n := 1 + NonQuoteRun(t[1..]);
      assert t[..n] == [t[0]] + t[1..][..n - 1];
      n
    else 0
  }

  /** `[^"]+`: one or more characters other than a double quote, as many as there are. */
  function NonQuote1(t: string): (r: Option<Cut>)
    ensures r.Some? <==> t != [] && t[0] != '"'
    ensures r.Some? ==> t == r.value.taken + r.value.rest
    ensures r.Some? ==> r.value.taken != [] && '"' !in r.value.taken
    ensures r.Some? && r.value.rest != [] ==> r.value.rest[0] == '"'
  {
    var n := NonQuoteRun(t);
    if n == 0 then None else Some(Cut(t[..n], t[n..]))
  }

  /** Length of the longest prefix of `t` made of decimal digits. */
  function DigitRun(t: string): (n: nat)
    ensures n <= |t| && AllDigits(t[..n])
    ensures n < |t| ==> !IsDigit(t[n])
    decreases |t|
  {
    if t != [] && IsDigit(t[0]) then
      var n := 1 + DigitRun(t[1..]);
      assert forall k | 1 <= k < n :: t[..n][k] == t[1..][..n - 1][k - 1];
      n
    else 0
  }

  /** `\d+`: one or more decimal digits, as many as there are. */
  function Digits1(t: string): (r: Option<Cut>)
    ensures r.Some? <==> t != [] && IsDigit(t[0])
    ensures r.Some? ==> t == r.value.taken + r.value.rest
    ensures r.Some? ==> r.value.taken != [] && AllDigits(r.value.taken)
    ensures r.Some? && r.value.rest != [] ==> !IsDigit(r.value.rest[0])
  {
    var n := DigitRun(t);
    if n == 0 then None else Some(Cut(t[..n], t[n..]))
  }

  /** `(.*?)p` with DOTALL: the text before the first occurrence of `p`, and the text
      after that occurrence; None when `p` does not occur. */
  function UpTo(t: string, p: string): (r: Option<Cut>)
    requires p != []
    ensures r.Some? ==> t == r.value.taken + p + r.value.rest
    ensures r.Some? ==> forall i | 0 <= i < |r.value.taken| :: !StartsWith(t[i..], p)
    ensures r.None? ==> forall i | 0 <= i <= |t| :: !StartsWith(t[i..], p)
    decreases |t|
  {
    if StartsWith(t, p) then
      assert t == [] + p + t[|p|..];
      Some(Cut([], t[|p|..]))
    else if t == [] then
      None
    else
      match UpTo(t[1..], p)
      case None =>
        UpToMissStep(t, p);
        None
      case Some(c) =>
        UpToFoundStep(t, p, c);
        Some(Cut([t[0]] + c.taken, c.rest))
  }

  lemma UpToMissStep(t: string, p: string)
    requires t != [] && !StartsWith(t, p)
    requires forall i | 0 <= i <= |t[1..]| :: !StartsWith(t[1..][i..], p)
    ensures forall i | 0 <= i <= |t| :: !StartsWith(t[i..], p)
  {
    forall i | 1 <= i <= |t| ensures t[i..] == t[1..][i - 1..] {
    }
  }

  lemma UpToFoundStep(t: string, p: string, c: Cut)
    requires t != [] && !StartsWith(t, p) && t[1..] == c.taken + p + c.rest
    requires forall i | 0 <= i < |c.taken| :: !StartsWith(t[1..][i..], p)
    ensures t == [t[0]] + c.taken + p + c.rest
    ensures forall i | 0 <= i < |[t[0]] + c.taken| :: !StartsWith(t[i..], p)
  {
    assert t == [t[0]] + t[1..];
    forall i | 1 <= i <= |t| ensures t[i..] == t[1..][i - 1..] {
    }
  }

  // ---------------------------------------------------------------------------
  // Where a pattern cannot start
  // ---------------------------------------------------------------------------

  /** No position inside `x` starts an occurrence of `w` in `x + y`. */
  predicate NoStart(x: string, y: string, w: string) {
    forall i | 0 <= i < |x| :: !StartsWith(x[i..] + y, w)
  }

  /** A region without `<` cannot start a tag. */
  lemma NoStartLtFree(x: string, y: string, w: string)
    requires w != [] && w[0] == '<' && '<' !in x
    ensures NoStart(x, y, w)
  {
    forall i | 0 <= i < |x| ensures !StartsWith(x[i..] + y, w) {
      NotStartsWith(x[i..] + y, w, 0);
    }
  }

  /** A region whose only `<` is its first character, where `w` does not start. */
  lemma NoStartHead(x: string, y: string, w: string)
    requires w != [] && w[0] == '<' && x != [] && '<' !in x[1..]
    requires !StartsWith(x + y, w)
    ensures NoStart(x, y, w)
  {
    forall i | 0 <= i < |x| ensures !StartsWith(x[i..] + y, w) {
      if i > 0 {
        assert x[i] == x[1..][i - 1];
        NotStartsWith(x[i..] + y, w, 0);
      }
    }
  }

  /** A region that contains no occurrence of `w` and is followed by a character that
      can only stand first in `w` (or not at all) cannot start `w`. */
  lemma NoStartContained(x: string, y: string, w: string)
    requires w != [] && !Contains(x, w)
    requires y != [] && y[0] !in w[1..]
    ensures NoStart(x, y, w)
  {
    forall i | 0 <= i < |x| ensures !StartsWith(x[i..] + y, w) {
      var t := x[i..] + y;
      if i + |w| <= |x| {
        assert !StartsWith(x[i..], w);
        assert t[..|w|] == x[i..][..|w|];
      } else {
        var k := |x| - i;
        assert t[k] == y[0];
        assert w[1..][k - 1] == w[k];
        NotStartsWith(t, w, k);
      }
    }
  }

  lemma NoStartConcat(a: string, b: string, y: string, w: string)
    requires NoStart(a, b + y, w) && NoStart(b, y, w)
    ensures NoStart(a + b, y, w)
  {
    forall i | 0 <= i < |a + b| ensures !StartsWith((a + b)[i..] + y, w) {
      if i < |a| {
        assert (a + b)[i..] + y == a[i..] + (b + y);
      } else {
        assert (a + b)[i..] + y == b[i - |a|..] + y;
      }
    }
  }

  lemma NoStartEmpty(y: string, w: string)
    ensures NoStart([], y, w)
  {
  }

  // ---------------------------------------------------------------------------
  // Each piece applied to a text built the way the encoder builds it
  // ---------------------------------------------------------------------------

  lemma LitConcat(p: string, rest: string)
    ensures Lit(p + rest, p) == Some(rest)
  {
    StartsWithConcat(p, rest);
    assert (p + rest)[|p|..] == rest;
  }

  lemma {:induction false} SpaceRunConcat(w: string, rest: string)
    requires AllSpaces(w)
    requires rest == [] || !IsSpace(rest[0])
    ensures SpaceRun(w + rest) == |w|
    decreases |w|
  {
    if w == [] {
      assert w + rest == rest;
    } else {
      assert (w + rest)[0] == w[0];
      assert (w + rest)[1..] == w[1..] + rest;
      SpaceRunConcat(w[1..], rest);
    }
  }

  lemma Spaces1Concat(w: string, rest: string)
    requires w != [] && AllSpaces(w)
    requires rest == [] || !IsSpace(rest[0])
    ensures Spaces1(w + rest) == Some(rest)
  {
    SpaceRunConcat(w, rest);
    assert (w + rest)[|w|..] == rest;
  }

  lemma {:induction false} NonQuoteRunConcat(v: string, rest: string)
    requires '"' !in v
    requires rest != [] && rest[0] == '"'
    ensures NonQuoteRun(v + rest) == |v|
    decreases |v|
  {
    if v == [] {
      assert v + rest == rest;
    } else {
      assert (v + rest)[0] == v[0];
      assert (v + rest)[1..] == v[1..] + rest;
      NonQuoteRunConcat(v[1..], rest);
    }
  }

  lemma NonQuote1Concat(v: string, rest: string)
    requires v != [] && '"' !in v
    requires rest != [] && rest[0] == '"'
    ensures NonQuote1(v + rest) == Some(Cut(v, rest))
  {
    NonQuoteRunConcat(v, rest);
    assert (v + rest)[..|v|] == v;
    assert (v + rest)[|v|..] == rest;
  }

  lemma {:induction false} DigitRunConcat(d: string, rest: string)
    requires AllDigits(d)
    requires rest != [] && !IsDigit(rest[0])
    ensures DigitRun(d + rest) == |d|
    decreases |d|
  {
    if d == [] {
      assert d + rest == rest;
    } else {
      assert (d + rest)[0] == d[0];
      assert (d + rest)[1..] == d[1..] + rest;
      DigitRunConcat(d[1..], rest);
    }
  }

  lemma Digits1Concat(d: string, rest: string)
    requires d != [] && AllDigits(d)
    requires rest != [] && !IsDigit(rest[0])
    ensures Digits1(d + rest) == Some(Cut(d, rest))
  {
    DigitRunConcat(d, rest);
    assert (d + rest)[..|d|] == d;
    assert (d + rest)[|d|..] == rest;
  }

  lemma StartsWithAfter(a: string, p: string, b: string)
    ensures StartsWith((a + p + b)[|a|..], p)
  {
    assert (a + p + b)[|a|..] == p + b;
    StartsWithConcat(p, b);
  }

  /** `UpTo` stops at the first occurrence: if `p` does not start anywhere inside `a`,
      the lazy match of `a + p + b` takes exactly `a` and leaves exactly `b`. */
  lemma UpToFirstNested(a: string, p: string, b: string)
    requires p != []
    requires NoStart(a, p + b, p)
    ensures UpTo(a + (p + b), p) == Some(Cut(a, b))
  {
    UpToFirst(a, p, b);
    assert a + p + b == a + (p + b);
  }

  lemma UpToFirst(a: string, p: string, b: string)
    requires p != []
    requires NoStart(a, p + b, p)
    ensures UpTo(a + p + b, p) == Some(Cut(a, b))
  {
    var t := a + p + b;
    forall i | 0 <= i < |a| ensures !StartsWith(t[i..], p) {
      assert t[i..] == a[i..] + (p + b);
    }
    assert t[|a|..] == p + b;
    StartsWithConcat(p, b);
    var r := UpTo(t, p);
    var c := r.value;
    assert |c.taken| >= |a| by {
      if |c.taken| < |a| {
        StartsWithAfter(c.taken, p, c.rest);
        assert false;
      }
    }
    assert |c.taken| <= |a| by {
      if |c.taken| > |a| {
        assert false;
      }
    }
    assert c.taken == t[..|a|] == a;
    assert c.rest == t[|a| + |p|..] == b;
  }
}
