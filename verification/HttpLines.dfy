/** What the HTTP parser makes of any header lines, well-formed or not (section 3.2 of RFC 7230). */
module HttpLines {
  import opened Bytes
  import opened Slices
  import opened Numbers
  import opened Http
  import opened HttpMessages

  // ----- Words and blanks -----

  predicate Blank(s: bytes) { forall i | 0 <= i < |s| :: IsSpace(s[i]) }

  /** A cut takes a word without blanks from behind any blanks, up to a blank or the end. */
  lemma EatWordExactly(s: bytes, before: bytes, word: bytes, rest: bytes)
    requires s == before + word + rest && Blank(before) && Solid(word) && (rest != [] ==> IsSpace(rest[0]))
    requires word == [] ==> rest == []
    ensures EatWord(s) == Cut(word, rest)
  {
    assert word != [] ==> s[|before|] == word[0];
    SpanIs(s, SPACE, |before|);
    assert s[|before|..] == word + rest;
    SpanIs(word + rest, NOT_SPACE, |word|);
    assert (word + rest)[..|word|] == word && (word + rest)[|word|..] == rest;
  }

  /** And every text has such parts. */
  lemma EatWordParts(s: bytes) returns (before: bytes)
    ensures
      var c := EatWord(s);
      s == before + c.taken + c.rest && Blank(before) && Solid(c.taken) && (c.rest != [] ==> IsSpace(c.rest[0]))
        && (c.taken == [] ==> c.rest == [])
  {
    hide Span;
    var n := Span(s, SPACE);
    before := s[..n];
    var t := s[n..];
    var m := Span(t, NOT_SPACE);
    assert s == before + t && t == t[..m] + t[m..];
  }

  lemma {:induction false} TrimEndExactly(value: bytes, after: bytes)
    requires Trimmed(value) && Blank(after)
    ensures TrimEnd(value + after) == value
    decreases |after|
  {
    var s := value + after;
    if after == [] {
      assert s == value;
    } else {
      assert s[|s| - 1] == after[|after| - 1];
      assert s[..|s| - 1] == value + after[..|after| - 1];
      TrimEndExactly(value, after[..|after| - 1]);
    }
  }

  /** Trimming leaves what lies between the blanks at both ends. */
  lemma TrimExactly(before: bytes, value: bytes, after: bytes)
    requires Blank(before) && Trimmed(value) && Blank(after) && (value == [] ==> after == [])
    ensures Trim(before + value + after) == value
  {
    var s := before + value + after;
    assert value != [] ==> s[|before|] == value[0];
    SpanIs(s, SPACE, |before|);
    assert s[|before|..] == value + after;
    TrimEndExactly(value, after);
  }

  lemma {:induction false} TrimEndParts(s: bytes) returns (after: bytes)
    requires s != [] ==> !IsSpace(s[0])
    ensures s == TrimEnd(s) + after && Trimmed(TrimEnd(s)) && Blank(after) && (TrimEnd(s) == [] ==> s == [])
    decreases |s|
  {
    if s != [] && IsSpace(s[|s| - 1]) {
      var a := TrimEndParts(s[..|s| - 1]);
      after := a + [s[|s| - 1]];
      assert s == s[..|s| - 1] + [s[|s| - 1]];
    } else {
      after := [];
      assert s == s + [];
    }
  }

  lemma TrimParts(s: bytes) returns (before: bytes, after: bytes)
    ensures s == before + Trim(s) + after && Blank(before) && Trimmed(Trim(s)) && Blank(after)
  {
    hide Span, TrimEnd;
    var n := Span(s, SPACE);
    before := s[..n];
    after := TrimEndParts(s[n..]);
    assert s == before + s[n..];
  }

  // ----- One header line -----

  /** A name that ends in a colon, with blanks behind it and a value behind those. */
  ghost predicate IsField(line: bytes, name: bytes, value: bytes) {
    && Solid(name) && Trimmed(value) && value != []
    && exists a, b, c :: Blank(a) && Blank(b) && b != [] && Blank(c) && Laid(line, a, name, b, value, c)
  }

  predicate Laid(line: bytes, a: bytes, name: bytes, b: bytes, value: bytes, c: bytes) {
    line == a + (name + ":") + (b + value + c)
  }

  /** What one turn of the header loop takes a line for. */
  datatype LineKind = AsField(name: bytes, value: bytes) | AsBlank | AsNothing

  function Read(line: bytes): LineKind {
    var k := EatWord(line);
    var v := Trim(k.rest);
    if k.taken != [] && v != [] && k.taken[|k.taken| - 1] == ':' then AsField(k.taken[..|k.taken| - 1], v)
    else if k.taken == [] && v == [] then AsBlank
    else AsNothing
  }

  /** A line is read as a field or as blank exactly when it is one. */
  lemma LineIsReadExactly(line: bytes, name: bytes, value: bytes)
    ensures Read(line) == AsField(name, value) <==> IsField(line, name, value)
    ensures Read(line) == AsBlank <==> Blank(line)
  {
    hide EatWord, Trim, Blank, Laid, Solid, Trimmed;
    if IsField(line, name, value) { FieldIsRead(line, name, value); }
    if Read(line) == AsField(name, value) { ReadIsField(line); }
    if Blank(line) { BlankIsRead(line); }
    if Read(line) == AsBlank { ReadIsBlank(line); }
  }

  lemma FieldIsRead(line: bytes, name: bytes, value: bytes)
    requires IsField(line, name, value)
    ensures Read(line) == AsField(name, value)
  {
    var a, b, c :| Blank(a) && Blank(b) && b != [] && Blank(c) && Laid(line, a, name, b, value, c);
    assert (b + value + c)[0] == b[0];
    EatWordExactly(line, a, name + ":", b + value + c);
    TrimExactly(b, value, c);
    hide EatWord, Trim;
    assert (name + ":")[..|name|] == name;
  }

  lemma ReadIsField(line: bytes)
    requires Read(line).AsField?
    ensures IsField(line, Read(line).name, Read(line).value)
  {
    var k := EatWord(line);
    var name, v := k.taken[..|k.taken| - 1], Trim(k.rest);
    var a := EatWordParts(line);
    var b, c := TrimParts(k.rest);
    hide EatWord, Trim, Blank, Solid, Trimmed;
    SolidName(k.taken);
    BlankInFront(k.rest, b, v, c);
    FieldIs(line, a, k.taken, k.rest, name, b, v, c);
  }

  lemma SolidName(word: bytes)
    requires word != [] && word[|word| - 1] == ':' && Solid(word)
    ensures word == word[..|word| - 1] + ":" && Solid(word[..|word| - 1])
  {
  }

  lemma BlankInFront(s: bytes, b: bytes, v: bytes, c: bytes)
    requires s == b + v + c && v != [] && Trimmed(v) && IsSpace(s[0])
    ensures b != []
  {
    assert s[|b|] == v[0] && !IsSpace(s[|b|]);
  }

  lemma FieldIs(line: bytes, a: bytes, word: bytes, rest: bytes, name: bytes, b: bytes, v: bytes, c: bytes)
    requires Solid(name) && Trimmed(v) && v != [] && Blank(a) && Blank(b) && b != [] && Blank(c)
    requires line == a + word + rest && word == name + ":" && rest == b + v + c
    ensures IsField(line, name, v)
  {
    hide Solid, Trimmed, Blank;
    assert Laid(line, a, name, b, v, c);
  }

  lemma BlankIsRead(line: bytes)
    requires Blank(line)
    ensures Read(line) == AsBlank
  {
    var none: bytes := [];
    assert line == line + none + none && none == none + none + none;
    EatWordExactly(line, line, [], []);
    TrimExactly([], [], []);
    hide EatWord, Trim;
  }

  lemma ReadIsBlank(line: bytes)
    requires Read(line) == AsBlank
    ensures Blank(line)
  {
    var a := EatWordParts(line);
    hide EatWord, Trim;
  }

  // ----- All header lines -----

  /** The lines as they lie in the header block, with the line end in front of each. */
  function Joined(lines: seq<bytes>): bytes {
    if lines == [] then [] else CRLF + lines[0] + Joined(lines[1..])
  }

  /** Every line is a field, except that the last may be blank. */
  predicate AllRead(lines: seq<bytes>) {
    forall i | 0 <= i < |lines| :: Read(lines[i]).AsField? || (i == |lines| - 1 && Read(lines[i]) == AsBlank)
  }

  /** What the fields up to the first other line leave in the map. */
  function Taken(lines: seq<bytes>, h: Headers): Headers {
    if lines == [] then h
    else
      match Read(lines[0])
      case AsField(name, value) => Taken(lines[1..], h[LowerAll(name) := value])
      case _ => h
  }

  lemma ReadOne(line: bytes, rest: bytes, h: Headers)
    requires OneLine(line) && (rest != [] ==> IsBreak(rest[0]))
    ensures ParseHeaders(CRLF + line + rest, h) ==
      match Read(line)
      case AsField(name, value) => ParseHeaders(rest, h[LowerAll(name) := value])
      case AsBlank => Parsed(h, rest == [])
      case AsNothing => Parsed(h, false)
  {
    hide EatLine, EatWord, Trim, LowerAll, OneLine;
    EatLineOf(line, rest);
    var req := CRLF + line + rest;
    assert |req| >= 2 && req[2..] == line + rest;
  }

  /** The header lines are accepted if and only if each is a field, the last one possibly blank instead. */
  lemma {:induction false} LinesAreReadExactly(lines: seq<bytes>, h: Headers)
    requires forall l | l in lines :: OneLine(l)
    ensures ParseHeaders(Joined(lines), h).ok <==> AllRead(lines)
    ensures ParseHeaders(Joined(lines), h).headers == Taken(lines, h)
    decreases |lines|
  {
    hide Read, ParseHeaders, OneLine;
    if lines == [] {
      NoLines(h);
    } else {
      var line, rest := lines[0], lines[1..];
      assert line in lines;
      JoinedStart(rest);
      ReadOne(line, Joined(rest), h);
      if Read(line).AsField? {
        LinesAreReadExactly(rest, h[LowerAll(Read(line).name) := Read(line).value]);
      }
      assert forall i | 0 < i < |lines| :: lines[i] == rest[i - 1];
      if AllRead(rest) && Read(line).AsField? {
        forall i | 0 <= i < |lines|
          ensures Read(lines[i]).AsField? || (i == |lines| - 1 && Read(lines[i]) == AsBlank)
        {
          if i > 0 { assert Read(rest[i - 1]).AsField? || (i - 1 == |rest| - 1 && Read(rest[i - 1]) == AsBlank); }
        }
      }
      if AllRead(lines) {
        forall i | 0 <= i < |rest|
          ensures Read(rest[i]).AsField? || (i == |rest| - 1 && Read(rest[i]) == AsBlank)
        {
          assert rest[i] == lines[i + 1];
        }
      }
    }
  }

  lemma NoLines(h: Headers)
    ensures ParseHeaders([], h) == Parsed(h, true)
  {
  }

  lemma JoinedStart(lines: seq<bytes>)
    ensures Joined(lines) != [] ==> IsBreak(Joined(lines)[0])
    ensures lines != [] ==> Joined(lines) != []
  {
  }

  // ----- One attempt on a message with any header lines -----

  predicate Lines(lines: seq<bytes>) { forall l | l in lines :: OneLine(l) && l != [] }

  /** No blank line starts inside `l` or the lines after it. */
  lemma {:induction false} NoBlankBefore(l: bytes, lines: seq<bytes>, end: bytes, i: nat)
    requires '\r' !in l && Lines(lines) && i < |l + Joined(lines)|
    ensures !BlankLineAt(l + (Joined(lines) + end), i)
    decreases |lines|
  {
    var s := l + (Joined(lines) + end);
    if i < |l| {
      assert s[i] == l[i];
    } else {
      var line, rest := lines[0], Joined(lines[1..]);
      assert line in lines && !IsBreak(line[0]);
      assert s == l + CRLF + (line + (rest + end));
      if i >= |l| + 2 {
        BlankShift(l + CRLF, line + (rest + end), i);
        NoBlankBefore(line, lines[1..], end, i - |l| - 2);
      } else {
        assert s[|l| + 1] == '\n' && s[|l| + 2] == line[0];
      }
    }
  }

  lemma BlockEnds(first: bytes, lines: seq<bytes>, tail: bytes)
    requires OneLine(first) && Lines(lines)
    ensures
      var block := first + Joined(lines);
      var buf := block + (CRLF + CRLF + tail);
      Scan(buf, 0) == |block| && BlankLineAt(buf, |block|) && buf[..|block|] == block
  {
    hide Joined, Lines, Scan;
    var block := first + Joined(lines);
    var end := CRLF + CRLF + tail;
    assert block + end == first + (Joined(lines) + end);
    EndIsBlank(block, tail);
    hide BlankLineAt;
    forall i | 0 <= i < |block| ensures !BlankLineAt(block + end, i) {
      NoBlankBefore(first, lines, end, i);
    }
    ScanFinds(block + end, 0, |block|);
  }

  /**
   * One attempt on a start line, any header lines and a blank line, with anything behind it, is an error if and only if
   * some line is not a field, the last one possibly blank. Otherwise the fields are taken over.
   */
  lemma MalformedLinesFailExactly(first: bytes, lines: seq<bytes>, tail: bytes)
    requires OneLine(first) && first != [] && Lines(lines)
    ensures
      var a := TryDecode(CLEARED, first + Joined(lines) + (CRLF + CRLF + tail));
      && (a.result == Error <==> !AllRead(lines))
      && a.msg.headers == Taken(lines, map[]) && a.line1 == first
  {
    BlockEnds(first, lines, tail);
    var block := first + Joined(lines);
    var buf := block + (CRLF + CRLF + tail);
    hide Scan, BlankLineAt, Joined, AllRead, Taken, Lines, OneLine;
    ReadsBlock(buf, block, first, lines);
  }

  lemma ReadsBlock(buf: bytes, block: bytes, first: bytes, lines: seq<bytes>)
    requires OneLine(first) && Lines(lines) && block == first + Joined(lines) && block <= buf
    ensures
      var a := ReadBlock(CLEARED, buf, |block|);
      && (a.result == Error <==> !AllRead(lines))
      && a.msg.headers == Taken(lines, map[]) && a.line1 == first
  {
    hide ParseHeaders, EatLine, Joined, AllRead, Taken, Lines, OneLine, ReadBlock;
    assert buf[..|block|] == block;
    JoinedStart(lines);
    EatLineOf(first, Joined(lines));
    AreOneLine(lines);
    LinesAreReadExactly(lines, map[]);
    BlockOutcome(CLEARED, buf, |block|);
  }

  lemma BlockOutcome(m: Msg, buf: bytes, pos: nat)
    requires pos <= |buf|
    ensures
      var first := EatLine(buf[..pos]);
      var p, a := ParseHeaders(first.rest, m.headers), ReadBlock(m, buf, pos);
      (a.result == Error <==> !p.ok) && a.msg.headers == p.headers && a.line1 == first.taken
  {
    hide ParseHeaders, EatLine, Atoi;
  }

  lemma AreOneLine(lines: seq<bytes>)
    requires Lines(lines)
    ensures forall l | l in lines :: OneLine(l)
  {
  }

  /** The second word of a line: what lies between the first two runs of blanks after its beginning. */
  function SecondWord(line: bytes): bytes { EatWord(EatWord(line).rest).taken }

  /**
   * A request is refused if and only if a header line is malformed or the second word of its start line, if there is
   * one, does not begin with a slash.
   */
  lemma RequestIsRefusedExactly(first: bytes, lines: seq<bytes>, tail: bytes)
    requires OneLine(first) && first != [] && Lines(lines)
    ensures
      TryDecodeRequest(NEW_REQUEST, first + Joined(lines) + (CRLF + CRLF + tail)).1 == Error
      <==> !AllRead(lines) || !("/" <= SecondWord(first))
  {
    MalformedLinesFailExactly(first, lines, tail);
    hide TryDecode, EatWord, AllRead, Joined, Lines;
  }
}
