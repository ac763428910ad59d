/** Cutting words and lines off the front of a piece of text. */
module Slices {
  import opened Bytes

  /** `isspace` in the C locale. */
  predicate IsSpace(c: byte) {
    c == ' ' || c as int == 9 || c as int == 10 || c as int == 11 || c as int == 12 || c as int == 13
  }

  predicate IsBreak(c: byte) { c == '\n' || c == '\r' }

  /** Length of the longest prefix in which `p` holds throughout. */
  function Span(s: bytes, p: byte -> bool): (n: nat)
    ensures n <= |s|
    ensures forall i | 0 <= i < n :: p(s[i])
    ensures n < |s| ==> !p(s[n])
  {
    if s == [] || !p(s[0]) then 0
    else
      var n := Span(s[1..], p);
      assert forall i | 0 < i < n + 1 :: s[i] == s[1..][i - 1];
      n + 1
  }

  lemma SpanIs(s: bytes, p: byte -> bool, n: nat)
    requires n <= |s| && (forall i | 0 <= i < n :: p(s[i])) && (n < |s| ==> !p(s[n]))
    ensures Span(s, p) == n
  {
    var m := Span(s, p);
    assert m < |s| ==> !p(s[m]);
  }

  const SPACE: byte -> bool := (c: byte) => IsSpace(c)
  const NOT_SPACE: byte -> bool := (c: byte) => !IsSpace(c)
  const NOT_BREAK: byte -> bool := (c: byte) => !IsBreak(c)

  datatype Cut = Cut(taken: bytes, rest: bytes)

  function EatWord(s: bytes): Cut {
    var t := s[Span(s, SPACE)..];
    var n := Span(t, NOT_SPACE);
    Cut(t[..n], t[n..])
  }

  function EatLine(s: bytes): (c: Cut)
    ensures |c.rest| <= |s|
  {
    var n := Span(s, NOT_BREAK);
    Cut(s[..n], s[n..])
  }

  /** Without the whitespace at either end. */
  function Trim(s: bytes): bytes { TrimEnd(s[Span(s, SPACE)..]) }

  function TrimEnd(s: bytes): bytes {
    if s != [] && IsSpace(s[|s| - 1]) then TrimEnd(s[..|s| - 1]) else s
  }

  method EatWordFrom(s: bytes) returns (word: bytes, rest: bytes)
    ensures Cut(word, rest) == EatWord(s)
  {
    var b := 0;
    while b < |s| && IsSpace(s[b])
      invariant 0 <= b <= |s| && forall i | 0 <= i < b :: IsSpace(s[i])
    {
      b := b + 1;
    }
    SpanIs(s, SPACE, b);
    var e := b;
    while e < |s| && !IsSpace(s[e])
      invariant b <= e <= |s| && forall i | b <= i < e :: !IsSpace(s[i])
    {
      e := e + 1;
    }
    SpanIs(s[b..], NOT_SPACE, e - b);
    word, rest := s[b..e], s[e..];
    assert s[b..][..e - b] == word && s[b..][e - b..] == rest;
  }

  method EatLineFrom(s: bytes) returns (line: bytes, rest: bytes)
    ensures Cut(line, rest) == EatLine(s)
  {
    var b := 0;
    while b < |s| && s[b] != '\n' && s[b] != '\r'
      invariant 0 <= b <= |s| && forall i | 0 <= i < b :: !IsBreak(s[i])
    {
      b := b + 1;
    }
    SpanIs(s, NOT_BREAK, b);
    line, rest := s[..b], s[b..];
  }

  method TrimSpace(s: bytes) returns (t: bytes)
    ensures t == Trim(s)
  {
    var b := 0;
    while b < |s| && IsSpace(s[b])
      invariant 0 <= b <= |s| && forall i | 0 <= i < b :: IsSpace(s[i])
    {
      b := b + 1;
    }
    SpanIs(s, SPACE, b);
    t := s[b..];
    while |t| > 0 && IsSpace(t[|t| - 1])
      invariant TrimEnd(t) == Trim(s)
    {
      t := t[..|t| - 1];
    }
  }

  // ----- Text put together from parts comes apart again -----

  predicate Solid(s: bytes) { forall i | 0 <= i < |s| :: !IsSpace(s[i]) }

  predicate OneLine(s: bytes) { forall i | 0 <= i < |s| :: !IsBreak(s[i]) }

  predicate Trimmed(s: bytes) { s != [] ==> !IsSpace(s[0]) && !IsSpace(s[|s| - 1]) }

  lemma EatWordOf(word: bytes, rest: bytes)
    requires word != [] && Solid(word) && (rest != [] ==> IsSpace(rest[0]))
    ensures EatWord(word + rest) == Cut(word, rest)
  {
    var s := word + rest;
    SpanIs(s, SPACE, 0);
    assert s[0..] == s;
    SpanIs(s, NOT_SPACE, |word|);
    assert s[..|word|] == word && s[|word|..] == rest;
  }

  /** Leading blanks before a word do not count. */
  lemma EatWordAfterBlank(word: bytes, rest: bytes)
    requires word != [] && Solid(word) && (rest != [] ==> IsSpace(rest[0]))
    ensures EatWord(" " + word + rest) == Cut(word, rest)
  {
    var s := " " + word + rest;
    assert s[1] == word[0];
    SpanIs(s, SPACE, 1);
    assert s[1..] == word + rest;
    SpanIs(word + rest, NOT_SPACE, |word|);
    assert (word + rest)[..|word|] == word && (word + rest)[|word|..] == rest;
  }

  lemma EatLineOf(line: bytes, rest: bytes)
    requires OneLine(line) && (rest != [] ==> IsBreak(rest[0]))
    ensures EatLine(line + rest) == Cut(line, rest)
  {
    var s := line + rest;
    SpanIs(s, NOT_BREAK, |line|);
    assert s[..|line|] == line && s[|line|..] == rest;
  }

  lemma TrimBlank(value: bytes)
    requires Trimmed(value)
    ensures Trim(" " + value) == value
  {
    var s := " " + value;
    SpanIs(s, SPACE, 1);
    assert s[1..] == value;
  }
}
