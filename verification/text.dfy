/**
 Text primitives of Rust's `str` that the server relies on: character search,
 `char::is_whitespace`, `split_whitespace`, `lines().next()`, `replace` of one
 character and `join`. Strings are sequences of Unicode scalar values.
 */
module Text {

  /** Rust's `char::is_whitespace`: the Unicode White_Space property. */
  predicate IsWhitespace(c: char) {
    || ('\t' <= c <= '\r')
    || c == ' '
    || c == '\U{0085}'
    || c == '\U{00A0}'
    || c == '\U{1680}'
    || ('\U{2000}' <= c <= '\U{200A}')
    || c == '\U{2028}'
    || c == '\U{2029}'
    || c == '\U{202F}'
    || c == '\U{205F}'
    || c == '\U{3000}'
  }

  predicate NoWhitespace(s: string) {
    forall i :: 0 <= i < |s| ==> !IsWhitespace(s[i])
  }

  predicate AllWhitespace(s: string) {
    forall i :: 0 <= i < |s| ==> IsWhitespace(s[i])
  }

  /** Position of the first `c` in `s`, or `|s|` when there is none. */
  function IndexOf(s: string, c: char): (r: nat)
    ensures r <= |s|
    ensures c !in s[..r]
    ensures r < |s| ==> s[r] == c
  {
    if s == [] then 0
    else if s[0] == c then 0
    else
      var r' := IndexOf(s[1..], c);
      assert s[..1 + r'] == [s[0]] + s[1..][..r'];
      1 + r'
  }

  /** In `a + b`, the first `c` is the head of `b` when `a` has none. */
  lemma IndexOfAfter(a: string, b: string, c: char)
    requires c !in a
    requires b != [] && b[0] == c
    ensures IndexOf(a + b, c) == |a|
  {
    var s := a + b;
    var r := IndexOf(s, c);
    assert s[|a|] == c;
  }

  /** Length of the leading run of whitespace. */
  function SkipWhitespace(s: string): (r: nat)
    ensures r <= |s|
    ensures AllWhitespace(s[..r])
    ensures r < |s| ==> !IsWhitespace(s[r])
  {
    if s == [] || !IsWhitespace(s[0]) then 0
    else
      var r' := SkipWhitespace(s[1..]);
      assert s[..1 + r'] == [s[0]] + s[1..][..r'];
      1 + r'
  }

  /** Length of the leading run of non-whitespace. */
  function TokenEnd(s: string): (r: nat)
    ensures r <= |s|
    ensures NoWhitespace(s[..r])
    ensures r < |s| ==> IsWhitespace(s[r])
  {
    if s == [] || IsWhitespace(s[0]) then 0
    else
      var r' := TokenEnd(s[1..]);
      assert s[..1 + r'] == [s[0]] + s[1..][..r'];
      1 + r'
  }

  /** Rust's `str::split_whitespace`: the maximal non-whitespace runs, in order. */
  function Tokens(s: string): (ts: seq<string>)
    ensures forall i :: 0 <= i < |ts| ==> ts[i] != [] && NoWhitespace(ts[i])
    decreases |s|
  {
    var a := SkipWhitespace(s);
    if a == |s| then []
    else
      var rest := s[a..];
      var b := TokenEnd(rest);
      [rest[..b]] + Tokens(rest[b..])
  }

  /** A string of whitespace only has no tokens. */
  lemma TokensOfWhitespace(w: string)
    requires AllWhitespace(w)
    ensures Tokens(w) == []
  {
  }

  /** Whitespace followed by a non-whitespace start: the skip stops at the join. */
  lemma {:induction false} SkipWhitespaceOf(w: string, u: string)
    requires AllWhitespace(w)
    requires u == [] || !IsWhitespace(u[0])
    ensures SkipWhitespace(w + u) == |w|
  {
    if w == [] {
      assert w + u == u;
    } else {
      assert (w + u)[0] == w[0];
      assert (w + u)[1..] == w[1..] + u;
      SkipWhitespaceOf(w[1..], u);
    }
  }

  /** A token followed by a whitespace start: the token ends at the join. */
  lemma {:induction false} TokenEndOf(t: string, u: string)
    requires NoWhitespace(t)
    requires u == [] || IsWhitespace(u[0])
    ensures TokenEnd(t + u) == |t|
  {
    if t == [] {
      assert t + u == u;
    } else {
      assert (t + u)[0] == t[0];
      assert (t + u)[1..] == t[1..] + u;
      TokenEndOf(t[1..], u);
    }
  }

  /**
   Tokens are read off left to right: whitespace, then a whole token, then a
   remainder that starts at a whitespace character (or is empty).
   Together with TokensOfWhitespace this pins `Tokens` down on every string.
   */
  lemma TokensCons(w: string, t: string, rest: string)
    requires AllWhitespace(w)
    requires t != [] && NoWhitespace(t)
    requires rest == [] || IsWhitespace(rest[0])
    ensures Tokens(w + t + rest) == [t] + Tokens(rest)
  {
    var s := w + t + rest;
    assert s == w + (t + rest);
    SkipWhitespaceOf(w, t + rest);
    assert s[|w|..] == t + rest;
    TokenEndOf(t, rest);
    assert (t + rest)[..|t|] == t;
    assert (t + rest)[|t|..] == rest;
  }

  /**
   Rust's `str::lines().next().unwrap_or("")`: the text before the first line
   feed, without the carriage return of a CRLF ending.
   */
  function FirstLine(s: string): (line: string)
    ensures '\n' !in line
    ensures line <= s
    ensures '\n' !in s ==> line == s
  {
    var i := IndexOf(s, '\n');
    if i < |s| && 0 < i && s[i - 1] == '\r' then s[..i - 1] else s[..i]
  }

  /** The first line of `line + "\r\n" + rest` is `line`. */
  lemma FirstLineCrlf(line: string, rest: string)
    requires '\n' !in line
    ensures FirstLine(line + "\r\n" + rest) == line
  {
    var s := line + "\r\n" + rest;
    assert s == (line + "\r") + ("\n" + rest);
    IndexOfAfter(line + "\r", "\n" + rest, '\n');
    assert s[|line|] == '\r';
    assert s[..|line|] == line;
  }

  /** A first line ended by a bare LF is that line. */
  lemma FirstLineLf(line: string, rest: string)
    requires '\n' !in line
    requires line == [] || line[|line| - 1] != '\r'
    ensures FirstLine(line + "\n" + rest) == line
  {
    var s := line + "\n" + rest;
    assert s == line + ("\n" + rest);
    IndexOfAfter(line, "\n" + rest, '\n');
    assert s[..|line|] == line;
  }

  /** Rust's `str::replace` with single-character pattern and replacement. */
  function Replace(s: string, from: char, to: char): (r: string)
    ensures |r| == |s|
    ensures forall i :: 0 <= i < |s| ==> r[i] == (if s[i] == from then to else s[i])
  {
    seq(|s|, i requires 0 <= i < |s| => if s[i] == from then to else s[i])
  }

  /** Rust's `[String]::join(sep)`. */
  function Join(parts: seq<string>, sep: string): string
  {
    if parts == [] then ""
    else if |parts| == 1 then parts[0]
    else parts[0] + sep + Join(parts[1..], sep)
  }
}
