/** Requests and responses: printing, parsing back, and what stays in the input behind a message. */
module HttpMessages {
  import opened Bytes
  import opened Slices
  import opened Numbers
  import opened Http

  // ----- Header names in lower case -----

  lemma {:induction false} LowerConcat(a: bytes, b: bytes)
    ensures LowerAll(a + b) == LowerAll(a) + LowerAll(b)
    decreases |a|
  {
    if a == [] {
      assert a + b == b;
    } else {
      assert (a + b)[1..] == a[1..] + b;
      LowerConcat(a[1..], b);
    }
  }

  lemma {:induction false} LowerSame(s: bytes)
    requires forall i | 0 <= i < |s| :: !('A' <= s[i] <= 'Z')
    ensures LowerAll(s) == s
    decreases |s|
  {
    if s != [] { LowerSame(s[1..]); }
  }

  const CONNECTION: bytes := "connection"
  const CONTENT_LENGTH: bytes := "content-length"

  lemma LowerFirst(c: byte, rest: bytes)
    requires forall i | 0 <= i < |rest| :: !('A' <= rest[i] <= 'Z')
    ensures LowerAll([c] + rest) == [Lower(c)] + rest
  {
    assert ([c] + rest)[1..] == rest;
    LowerSame(rest);
  }

  lemma FixedNames(c: bytes, l: bytes)
    requires c == "Connection" && l == "Content-Length"
    ensures LowerAll(c) == CONNECTION && LowerAll(l) == CONTENT_LENGTH
  {
    hide LowerAll;
    LowerFirst('C', "onnection");
    assert ['C'] + "onnection" == c && ['c'] + "onnection" == CONNECTION;
    ContentLengthName(l);
  }

  lemma ContentLengthName(l: bytes)
    requires l == "Content-Length"
    ensures LowerAll(l) == CONTENT_LENGTH
  {
    hide LowerAll;
    LowerFirst('C', "ontent-");
    LowerFirst('L', "ength");
    LowerConcat(['C'] + "ontent-", ['L'] + "ength");
    assert ['C'] + "ontent-" + (['L'] + "ength") == l;
    assert ['c'] + "ontent-" + (['l'] + "ength") == CONTENT_LENGTH;
  }

  lemma {:induction false} AssignedConcat(a: seq<Field>, b: seq<Field>, h: Headers)
    ensures Assigned(a + b, h) == Assigned(b, Assigned(a, h))
    decreases |a|
  {
    if a == [] {
      assert a + b == b;
    } else {
      assert (a + b)[1..] == a[1..] + b;
      AssignedConcat(a[1..], b, h[LowerAll(a[0].name) := a[0].value]);
    }
  }

  /** The map a reader ends up with: the message's fields, then the two that encode adds. */
  function Received(fields: seq<Field>, body: bytes): Headers {
    Assigned(fields, map[])[CONNECTION := "Keep-Alive"][CONTENT_LENGTH := Print(|body|)]
  }

  lemma AssignTwo(f: Field, g: Field, h: Headers)
    ensures Assigned([f, g], h) == h[LowerAll(f.name) := f.value][LowerAll(g.name) := g.value]
  {
    assert [f, g][1..] == [g] && [g][1..] == [];
    assert Assigned([g], h[LowerAll(f.name) := f.value])
        == Assigned([], h[LowerAll(f.name) := f.value][LowerAll(g.name) := g.value]);
  }

  lemma ReceivedIs(fields: seq<Field>, body: bytes)
    ensures Assigned(AllFields(fields, body), map[]) == Received(fields, body)
  {
    hide LowerAll, Print, Assigned;
    var f, g := Field("Connection", "Keep-Alive"), Field("Content-Length", Print(|body|));
    FixedNames(f.name, g.name);
    AssignedConcat(fields, [f, g], map[]);
    AssignTwo(f, g, Assigned(fields, map[]));
  }

  lemma FixedFieldsArePlain(fields: seq<Field>, body: bytes)
    requires AllPlain(fields)
    ensures AllPlain(AllFields(fields, body))
  {
    var n := Print(|body|);
    assert Plain(Field("Connection", "Keep-Alive"));
    assert Plain(Field("Content-Length", n));
  }

  // ----- A printed message comes back whole -----

  /**
   * What one attempt makes of a printed message with anything behind it: all its headers in lower case, its body, and
   * exactly its own bytes counted as scanned.
   */
  lemma DecodeOfEncode(first: bytes, end: bytes, fields: seq<Field>, body: bytes, tail: bytes)
    requires OneLine(first) && first != [] && (end == "\r\n" || end == "\n\n")
    requires AllPlain(fields) && |body| <= MAX_INT
    ensures
      var m := EncodeWith(first, end, fields, body);
      TryDecode(CLEARED, m + tail)
        == Attempt(Msg(Received(fields, body), body, true, |body|, |m|), Complete, first)
  {
    hide TryDecode, Scan, EatLine, ParseHeaders, Print, Atoi, LowerAll, Assigned, BlankLineAt, AllPlain, OneLine, Block;
    var all := AllFields(fields, body);
    FixedFieldsArePlain(fields, body);
    BlockOfMessage(first, end, all, body + tail);
    var block := Block(first, end, all);
    var m := EncodeWith(first, end, fields, body);
    assert m + tail == block + (CRLF + CRLF + (body + tail)) by { MessageText(first, end, all, body, tail); }
    ParseBlock(first, end, all);
    ReceivedIs(fields, body);
    AtoiOfPrint(|body|);
    FinishDecode(m, tail, block, body, Received(fields, body), first);
  }

  /** Start line and header lines, up to the blank line. */
  function Block(first: bytes, end: bytes, all: seq<Field>): bytes
    requires all != []
  {
    first + end + HeaderLine(all[0]) + Tail(all[1..])
  }

  lemma MessageText(first: bytes, end: bytes, all: seq<Field>, body: bytes, tail: bytes)
    requires all != []
    ensures first + end + HeaderText(all) + CRLF + body + tail == Block(first, end, all) + (CRLF + CRLF + (body + tail))
  {
    var l, t := HeaderLine(all[0]), Tail(all[1..]);
    TailIsText(all[1..]);
    Reassociate(l, CRLF, HeaderText(all[1..]));
    Reassociate(first + end, l, t + CRLF);
    Reassociate(first + end + l, t, CRLF);
    var block := Block(first, end, all);
    assert first + end + HeaderText(all) == block + CRLF;
    hide HeaderText, Block;
    Reassociate(block + CRLF, CRLF, body + tail);
    Reassociate(block + CRLF + CRLF, body, tail);
    Reassociate(block, CRLF, CRLF + (body + tail));
    Reassociate(CRLF, CRLF, body + tail);
  }

  lemma Reassociate(a: bytes, b: bytes, c: bytes)
    ensures a + b + c == a + (b + c)
  {
  }

  lemma BlockOfMessage(first: bytes, end: bytes, all: seq<Field>, tail: bytes)
    requires OneLine(first) && (end == "\r\n" || end == "\n\n") && all != [] && AllPlain(all)
    ensures
      var block := Block(first, end, all);
      var buf := block + (CRLF + CRLF + tail);
      Scan(buf, 0) == |block| && BlankLineAt(buf, |block|) && buf[..|block|] == block && buf[|block| + 4..] == tail
  {
    if end == "\r\n" {
      assert Tail(all) == CRLF + HeaderLine(all[0]) + Tail(all[1..]);
      assert Block(first, end, all) == first + Tail(all);
      BlockIsFound(first, all, tail);
    } else {
      LineIsPlain(all[0]);
      var l := first + end + HeaderLine(all[0]);
      forall i | 0 <= i < |l| ensures l[i] != '\r' {
        if i < |first| { assert !IsBreak(first[i]); }
        else if i >= |first| + 2 { assert !IsBreak(HeaderLine(all[0])[i - |first| - 2]); }
      }
      BlockIsFound(l, all[1..], tail);
    }
  }

  lemma ParseBlock(first: bytes, end: bytes, all: seq<Field>)
    requires OneLine(first) && (end == "\r\n" || end == "\n\n") && all != [] && AllPlain(all)
    ensures
      var c := EatLine(Block(first, end, all));
      c.taken == first && ParseHeaders(c.rest, map[]) == Parsed(Assigned(all, map[]), true)
  {
    var rest := end + HeaderLine(all[0]) + Tail(all[1..]);
    assert Block(first, end, all) == first + rest;
    EatLineOf(first, rest);
    ParseStep(end, all[0], all[1..], map[]);
    ParseTail(all[1..], map[LowerAll(all[0].name) := all[0].value]);
  }

  lemma FinishDecode(m: bytes, tail: bytes, block: bytes, body: bytes, h: Headers, first: bytes)
    requires m + tail == block + (CRLF + CRLF + (body + tail)) && block != []
    requires Scan(m + tail, 0) == |block| && BlankLineAt(m + tail, |block|)
    requires (m + tail)[..|block|] == block && (m + tail)[|block| + 4..] == body + tail
    requires EatLine(block).taken == first && ParseHeaders(EatLine(block).rest, map[]) == Parsed(h, true)
    requires Header(h, CONTENT_LENGTH) == Print(|body|) && Atoi(Print(|body|)) == |body| <= MAX_INT
    ensures TryDecode(CLEARED, m + tail) == Attempt(Msg(h, body, true, |body|, |m|), Complete, first)
  {
    hide ParseHeaders, Scan, EatLine, Atoi, BlankLineAt, Print;
    var buf := m + tail;
    assert |m| == |block| + 4 + |body|;
    assert buf[|block| + 4..|block| + 4 + |body|] == buf[|block| + 4..][..|body|] == body;
  }

  // ----- Responses and requests -----

  datatype Response = Response(msg: Msg, version: bytes, status: Reading, word: bytes)

  const NEW_RESPONSE := Response(CLEARED, "HTTP/1.1", Value(200), "OK")

  /** Where the second word of a start line begins. */
  function StatusAt(line: bytes): nat {
    var s := EatWord(EatWord(line).rest);
    |line| - |s.taken| - |s.rest|
  }

  /** The input from the second word of its start line on. */
  function FromStatus(buf: bytes, line: bytes): bytes {
    if StatusAt(line) <= |buf| then buf[StatusAt(line)..] else []
  }

  /**
   * What a response takes over from an attempt: the status line when it is reported, with the status read by atoi from
   * the input itself, wherever the second word begins.
   */
  function Merge(r: Response, a: Attempt, buf: bytes): Response {
    if a.line1 == [] then r.(msg := a.msg)
    else
      var v := EatWord(a.line1);
      var s := EatWord(v.rest);
      Response(a.msg, v.taken, AtoiIn(FromStatus(buf, a.line1)), Trim(s.rest))
  }

  function TryDecodeResponse(r: Response, buf: bytes): (Response, Result) {
    var a := TryDecode(r.msg, buf);
    (Merge(r, a, buf), a.result)
  }

  function EncodeResponse(version: bytes, status: int, word: bytes, fields: seq<Field>, body: bytes): bytes {
    EncodeFrom(Formatted(1024, StatusLine(CString(version), status, CString(word)) + CRLF), fields, body)
  }

  /** Whether the status line is printed whole. */
  predicate ResponseFits(version: bytes, status: int, word: bytes) {
    NoNul(version) && NoNul(word) && |StatusLine(version, status, word)| + 2 < 1024
  }

  predicate RequestFits(verb: bytes, uri: bytes, version: bytes) {
    NoNul(verb) && NoNul(uri) && NoNul(version) && |RequestLine(verb, uri, version)| + 2 < 4096
  }

  /** The printed start line is the one that was meant if and only if it fits and none of its parts holds a NUL. */
  lemma StartLineIsWholeExactly(version: bytes, status: int, word: bytes)
    ensures
      var line := StatusLine(version, status, word);
      Formatted(1024, StatusLine(CString(version), status, CString(word)) + CRLF) == line + CRLF
      <==> ResponseFits(version, status, word)
  {
    hide CString, PrintInt;
    CStringIs(version);
    CStringIs(word);
  }

  lemma ResponseIsPrintedWhole(version: bytes, status: int, word: bytes, fields: seq<Field>, body: bytes)
    requires ResponseFits(version, status, word)
    ensures EncodeResponse(version, status, word, fields, body)
         == EncodeWith(StatusLine(version, status, word), CRLF, fields, body)
  {
    StartLineIsWholeExactly(version, status, word);
    hide StatusLine, CString, Formatted, EncodeFrom;
  }

  lemma RequestIsPrintedWhole(verb: bytes, uri: bytes, version: bytes, fields: seq<Field>, body: bytes)
    requires RequestFits(verb, uri, version)
    ensures EncodeRequest(verb, uri, version, fields, body)
         == EncodeWith(RequestLine(verb, uri, version), "\n\n", fields, body)
  {
    CStringIs(verb);
    CStringIs(uri);
    CStringIs(version);
    hide CString, EncodeFrom;
  }

  datatype Request = Request(msg: Msg, verb: bytes, queryUri: bytes, version: bytes)

  const NEW_REQUEST := Request(CLEARED, "GET", [], "HTTP/1.1")

  function TryDecodeRequest(r: Request, buf: bytes): (Request, Result) {
    var a := TryDecode(r.msg, buf);
    if a.line1 == [] then (r.(msg := a.msg), a.result)
    else
      var m := EatWord(a.line1);
      var u := EatWord(m.rest);
      var v := EatWord(u.rest);
      (Request(a.msg, m.taken, u.taken, v.taken), if u.taken == [] || u.taken[0] != '/' then Error else a.result)
  }

  /** The request line ends in two line feeds, which the parser takes for a line end. */
  function EncodeRequest(verb: bytes, uri: bytes, version: bytes, fields: seq<Field>, body: bytes): bytes {
    EncodeFrom(Formatted(4096, RequestLine(CString(verb), CString(uri), CString(version)) + "\n\n"), fields, body)
  }

  /** Three parts on one line. */
  lemma OneLineOfThree(a: bytes, b: bytes, c: bytes)
    requires OneLine(a) && OneLine(b) && OneLine(c) && a != []
    ensures OneLine(a + (" " + b + (" " + c))) && a + (" " + b + (" " + c)) != []
  {
    var line := a + (" " + b + (" " + c));
    forall i | 0 <= i < |line| ensures !IsBreak(line[i]) {
      if i < |a| { assert line[i] == a[i]; }
      else if |a| < i <= |a| + |b| { assert line[i] == b[i - |a| - 1]; }
      else if i > |a| + |b| + 1 { assert line[i] == c[i - |a| - |b| - 2]; }
    }
  }

  lemma SolidIsOneLine(s: bytes)
    requires Solid(s)
    ensures OneLine(s)
  {
  }

  lemma ReadStatusLine(version: bytes, status: int, word: bytes)
    requires Solid(version) && version != [] && OneLine(word) && Trimmed(word)
    ensures
      var line := StatusLine(version, status, word);
      var v := EatWord(line);
      var s := EatWord(v.rest);
      && OneLine(line) && line != [] && v.taken == version && Trim(s.rest) == word
      && forall more: bytes :: AtoiIn(FromStatus(line + more, line)) == Value(status)
  {
    hide EatWord, Trim, Atoi, AtoiIn, PrintInt;
    var num := PrintInt(status);
    AtoiOfPrint(status);
    EatWordOf(version, " " + num + (" " + word));
    EatWordAfterBlank(num, " " + word);
    TrimBlank(word);
    SolidIsOneLine(version);
    SolidIsOneLine(num);
    OneLineOfThree(version, num, word);
    var line := StatusLine(version, status, word);
    assert StatusAt(line) == |version| + 1;
    forall more: bytes ensures AtoiIn(FromStatus(line + more, line)) == Value(status) {
      assert (line + more)[|version| + 1..] == num + (" " + word + more);
      AtoiInWord(num, " " + word + more);
    }
  }

  lemma StartsWithLine(line: bytes, end: bytes, fields: seq<Field>, body: bytes, tail: bytes)
    ensures var m := EncodeWith(line, end, fields, body) + tail; |line| <= |m| && m == line + m[|line|..]
  {
    hide HeaderText, AllFields;
  }

  /** Response round trip: every part comes back, the headers with lower-case names, with only the tail left over. */
  lemma ResponseRoundTrip(version: bytes, status: int, word: bytes, fields: seq<Field>, body: bytes, tail: bytes)
    requires Solid(version) && version != [] && OneLine(word) && Trimmed(word) && ResponseFits(version, status, word)
    requires AllPlain(fields) && |body| <= MAX_INT
    ensures
      var m := EncodeResponse(version, status, word, fields, body);
      && TryDecodeResponse(NEW_RESPONSE, m + tail)
           == (Response(Msg(Received(fields, body), body, true, |body|, |m|), version, Value(status), word), Complete)
      && (m + tail)[|m|..] == tail
  {
    hide TryDecode, EatWord, Trim, AtoiIn, FromStatus, StatusLine, EncodeWith, EncodeResponse, ResponseFits, Received,
      AllPlain, OneLine, Solid, Trimmed;
    var line := StatusLine(version, status, word);
    ResponseIsPrintedWhole(version, status, word, fields, body);
    ReadStatusLine(version, status, word);
    DecodeOfEncode(line, CRLF, fields, body, tail);
    StartsWithLine(line, CRLF, fields, body, tail);
    var m := EncodeResponse(version, status, word, fields, body);
    assert AtoiIn(FromStatus(m + tail, line)) == Value(status);
  }

  lemma ReadRequestLine(verb: bytes, uri: bytes, version: bytes)
    requires Solid(verb) && Solid(uri) && Solid(version) && verb != [] && uri != [] && version != []
    ensures
      var line := RequestLine(verb, uri, version);
      var m := EatWord(line);
      var u := EatWord(m.rest);
      OneLine(line) && line != [] && m.taken == verb && u.taken == uri && EatWord(u.rest).taken == version
  {
    hide EatWord;
    EatWordOf(verb, " " + uri + (" " + version));
    EatWordAfterBlank(uri, " " + version);
    EatWordAfterBlank(version, []);
    assert " " + version + [] == " " + version;
    SolidIsOneLine(verb);
    SolidIsOneLine(uri);
    SolidIsOneLine(version);
    OneLineOfThree(verb, uri, version);
  }

  /** Request round trip: every part comes back, but a URI that does not begin with a slash is an error. */
  lemma RequestRoundTrip(verb: bytes, uri: bytes, version: bytes, fields: seq<Field>, body: bytes, tail: bytes)
    requires Solid(verb) && Solid(uri) && Solid(version) && verb != [] && version != []
    requires uri != [] && RequestFits(verb, uri, version)
    requires AllPlain(fields) && |body| <= MAX_INT
    ensures
      var m := EncodeRequest(verb, uri, version, fields, body);
      && TryDecodeRequest(NEW_REQUEST, m + tail)
           == (Request(Msg(Received(fields, body), body, true, |body|, |m|), verb, uri, version),
               if uri[0] == '/' then Complete else Error)
      && (m + tail)[|m|..] == tail
  {
    RequestIsPrintedWhole(verb, uri, version, fields, body);
    ReadRequestLine(verb, uri, version);
    DecodeOfEncode(RequestLine(verb, uri, version), "\n\n", fields, body, tail);
    hide TryDecode, EatWord, RequestLine, EncodeWith, EncodeRequest, RequestFits;
  }

  // ----- The bytes on the wire -----

  /** The fields of a message, one on each line. */
  function FieldLines(fields: seq<Field>): bytes {
    if fields == [] then [] else fields[0].name + ": " + fields[0].value + "\r\n" + FieldLines(fields[1..])
  }

  /** Everything behind the start line: the fields, the two that are always added, and the body. */
  function Rest(fields: seq<Field>, body: bytes): bytes {
    FieldLines(fields) + "Connection: Keep-Alive\r\n" + "Content-Length: " + Print(|body|) + "\r\n" + "\r\n" + body
  }

  /** A response that is printed whole, byte for byte. */
  lemma ResponseOnTheWire(version: bytes, status: int, word: bytes, fields: seq<Field>, body: bytes)
    requires ResponseFits(version, status, word)
    ensures EncodeResponse(version, status, word, fields, body)
         == version + " " + PrintInt(status) + " " + word + "\r\n" + Rest(fields, body)
  {
    hide EncodeResponse, Rest, HeaderText, AllFields, PrintInt;
    ResponseIsPrintedWhole(version, status, word, fields, body);
    RestIs(StatusLine(version, status, word) + CRLF, fields, body);
    assert StatusLine(version, status, word) == version + " " + PrintInt(status) + " " + word;
  }

  /** And a request, with its two line feeds. */
  lemma RequestOnTheWire(verb: bytes, uri: bytes, version: bytes, fields: seq<Field>, body: bytes)
    requires RequestFits(verb, uri, version)
    ensures EncodeRequest(verb, uri, version, fields, body)
         == verb + " " + uri + " " + version + "\n\n" + Rest(fields, body)
  {
    hide EncodeRequest, Rest, HeaderText, AllFields;
    RequestIsPrintedWhole(verb, uri, version, fields, body);
    RestIs(RequestLine(verb, uri, version) + "\n\n", fields, body);
    assert RequestLine(verb, uri, version) == verb + " " + uri + " " + version;
  }

  lemma {:induction false} TextConcat(a: seq<Field>, b: seq<Field>)
    ensures HeaderText(a + b) == FieldLines(a) + HeaderText(b)
    decreases |a|
  {
    if a == [] {
      assert a + b == b;
    } else {
      assert (a + b)[0] == a[0] && (a + b)[1..] == a[1..] + b;
      TextConcat(a[1..], b);
      var line := HeaderLine(a[0]) + CRLF;
      assert line == a[0].name + ": " + a[0].value + "\r\n";
      hide HeaderLine, FieldLines;
      assert line + (FieldLines(a[1..]) + HeaderText(b)) == line + FieldLines(a[1..]) + HeaderText(b);
    }
  }

  lemma RestIs(start: bytes, fields: seq<Field>, body: bytes)
    ensures EncodeFrom(start, fields, body) == start + Rest(fields, body)
  {
    hide Print, FieldLines, HeaderText, HeaderLine, Rest;
    var c, l := Field("Connection", "Keep-Alive"), Field("Content-Length", Print(|body|));
    TextConcat(fields, [c, l]);
    TwoLines(c, l);
    var a := ConnectionLine(c);
    var b := LengthLine(l);
    RestParts(fields, body, a, b);
    RestOf(start, FieldLines(fields), a, b, Print(|body|), body);
  }

  lemma TwoLines(f: Field, g: Field)
    ensures HeaderText([f, g]) == HeaderLine(f) + CRLF + (HeaderLine(g) + CRLF)
  {
    hide HeaderLine;
    assert [f, g][1..] == [g] && [g][1..] == [];
    assert HeaderText([g]) == HeaderLine(g) + CRLF + [];
  }

  lemma ConnectionLine(f: Field) returns (a: bytes)
    requires f == Field("Connection", "Keep-Alive")
    ensures a == "Connection: Keep-Alive\r\n" && HeaderLine(f) + CRLF == a
  {
    a := "Connection: Keep-Alive\r\n";
  }

  lemma LengthLine(f: Field) returns (b: bytes)
    requires f.name == "Content-Length"
    ensures b == "Content-Length: " && HeaderLine(f) + CRLF == b + f.value + CRLF
  {
    b := "Content-Length: ";
  }

  lemma RestParts(fields: seq<Field>, body: bytes, a: bytes, b: bytes)
    requires a == "Connection: Keep-Alive\r\n" && b == "Content-Length: "
    ensures Rest(fields, body) == FieldLines(fields) + a + b + Print(|body|) + CRLF + CRLF + body
  {
    hide FieldLines, Print;
  }

  lemma RestOf(start: bytes, lines: bytes, a: bytes, b: bytes, n: bytes, body: bytes)
    ensures start + (lines + (a + (b + n + CRLF))) + CRLF + body == start + (lines + a + b + n + CRLF + CRLF + body)
  {
    Reassociate(lines, a, b + n + CRLF);
    Reassociate(lines + a, b + n, CRLF);
    Reassociate(lines + a, b, n);
    var most := lines + a + b + n + CRLF;
    Reassociate(start, most, CRLF);
    Reassociate(start, most + CRLF, body);
  }

  // ----- What the received headers say -----

  lemma {:induction false} AssignedKeeps(fields: seq<Field>, h: Headers, k: bytes)
    requires forall f | f in fields :: LowerAll(f.name) != k
    ensures (k in Assigned(fields, h) <==> k in h) && (k in h ==> Assigned(fields, h)[k] == h[k])
    decreases |fields|
  {
    if fields != [] {
      assert fields[0] in fields;
      AssignedKeeps(fields[1..], h[LowerAll(fields[0].name) := fields[0].value], k);
    }
  }

  /** A field whose name no later field shares, in lower case, keeps its value; the two added fields always win. */
  lemma FieldIsReceived(before: seq<Field>, f: Field, after: seq<Field>, body: bytes)
    requires forall g | g in after :: LowerAll(g.name) != LowerAll(f.name)
    requires LowerAll(f.name) != CONNECTION && LowerAll(f.name) != CONTENT_LENGTH
    ensures
      var h := Received(before + [f] + after, body);
      LowerAll(f.name) in h && h[LowerAll(f.name)] == f.value
      && h[CONNECTION] == "Keep-Alive" && h[CONTENT_LENGTH] == Print(|body|)
  {
    AssignedConcat(before + [f], after, map[]);
    AssignedConcat(before, [f], map[]);
    var h := Assigned(before, map[]);
    assert [f][1..] == [];
    assert Assigned([f], h) == h[LowerAll(f.name) := f.value];
    AssignedKeeps(after, Assigned(before + [f], map[]), LowerAll(f.name));
  }

  // ----- Messages that arrive in pieces -----

  /** The reported start line stands at the front of the input, with a line end behind it. */
  lemma LineIsInInput(buf: bytes)
    ensures var line := TryDecode(CLEARED, buf).line1;
      line != [] ==> |line| < |buf| && buf[..|line|] == line && IsBreak(buf[|line|])
  {
    hide Scan, ParseHeaders, Atoi;
    var pos := Scan(buf, 0);
    if BlankLineAt(buf, pos) && pos != 0 {
      var n := Span(buf[..pos], NOT_BREAK);
      assert buf[..pos][..n] == buf[..n];
      assert n < pos ==> buf[..pos][n] == buf[n];
    }
  }

  lemma StatusIsInLine(line: bytes)
    ensures var s := EatWord(EatWord(line).rest);
      StatusAt(line) + |s.taken| + |s.rest| == |line| && line[StatusAt(line)..] == s.taken + s.rest
  {
    EatWordCuts(line);
    EatWordCuts(EatWord(line).rest);
  }

  lemma EatWordCuts(s: bytes)
    ensures var c := EatWord(s); |c.taken| + |c.rest| <= |s| && s[|s| - |c.taken| - |c.rest|..] == c.taken + c.rest
    ensures Solid(EatWord(s).taken) && (EatWord(s).rest != [] ==> IsSpace(EatWord(s).rest[0]))
  {
    var n := Span(s, SPACE);
    var t := s[n..];
    assert t == t[..Span(t, NOT_SPACE)] + t[Span(t, NOT_SPACE)..];
  }

  /** Whether the status, if the start line has been reported, was read without leaving the input. */
  predicate StatusIn(p: bytes) {
    var line := TryDecode(CLEARED, p).line1;
    line != [] ==> EndsInside(FromStatus(p, line))
  }

  /** A start line with a second word is enough for that. */
  lemma SecondWordSuffices(p: bytes)
    requires EatWord(EatWord(TryDecode(CLEARED, p).line1).rest).taken != []
    ensures StatusIn(p)
  {
    hide TryDecode, EatWord, EndsInside, Atoi, FromStatus, AtoiIn;
    var line := TryDecode(CLEARED, p).line1;
    if line != [] {
      var s := EatWord(EatWord(line).rest);
      LineIsInInput(p);
      var more := p[|line|..];
      assert p == line + more;
      FromStatusExtends(line, more, line);
      StatusOfLine(line);
      EatWordCuts(EatWord(line).rest);
      assert s.taken + s.rest + more == s.taken + (s.rest + more);
      AtoiInWord(s.taken, s.rest + more);
      ValueMeansInside();
    }
  }

  lemma StatusOfLine(line: bytes)
    ensures var s := EatWord(EatWord(line).rest); FromStatus(line, line) == s.taken + s.rest
  {
    StatusIsInLine(line);
    hide EatWord;
  }

  /**
   * Going on with a longer input gives what one attempt on it would have given, start line included, whatever follows,
   * if and only if the status was read inside the first input: atoi does not stop at the end of an empty word.
   */
  lemma ResponseResumesExactly(p: bytes)
    requires Open(TryDecodeResponse(NEW_RESPONSE, p).1)
    ensures (forall q | p <= q ::
               TryDecodeResponse(TryDecodeResponse(NEW_RESPONSE, p).0, q) == TryDecodeResponse(NEW_RESPONSE, q))
            <==> StatusIn(p)
  {
    hide TryDecodeResponse, StatusIn;
    if StatusIn(p) {
      forall q | p <= q
        ensures TryDecodeResponse(TryDecodeResponse(NEW_RESPONSE, p).0, q) == TryDecodeResponse(NEW_RESPONSE, q)
      {
        ResponseResumes(p, q);
      }
    } else {
      var q := p + "x";
      StatusReadsOn(p);
      assert p <= q;
    }
  }

  /** The bytes from the status on, in an input and in a longer one. */
  lemma FromStatusExtends(p: bytes, rest: bytes, line: bytes)
    requires line != [] && |line| <= |p|
    ensures FromStatus(p + rest, line) == FromStatus(p, line) + rest
  {
    StatusIsInLine(line);
    hide EatWord, StatusAt;
    assert (p + rest)[StatusAt(line)..] == p[StatusAt(line)..] + rest;
  }

  lemma ResponseResumes(p: bytes, q: bytes)
    requires p <= q && Open(TryDecodeResponse(NEW_RESPONSE, p).1) && StatusIn(p)
    ensures TryDecodeResponse(TryDecodeResponse(NEW_RESPONSE, p).0, q) == TryDecodeResponse(NEW_RESPONSE, q)
  {
    hide TryDecode, EatWord, AtoiIn, EndsInside, Trim, FromStatus;
    AttemptResumes(p, q);
    LineMeansHeaders(p, q);
    var line := TryDecode(CLEARED, p).line1;
    if line != [] {
      LineIsInInput(p);
      assert q == p + q[|p|..];
      FromStatusExtends(p, q[|p|..], line);
      AtoiInExtends(FromStatus(p, line), q[|p|..]);
    }
  }

  /** With a letter behind the input, one attempt reads another status than the attempt before. */
  lemma StatusReadsOn(p: bytes)
    requires Open(TryDecodeResponse(NEW_RESPONSE, p).1) && !StatusIn(p)
    ensures
      var q := p + "x";
      TryDecodeResponse(TryDecodeResponse(NEW_RESPONSE, p).0, q) != TryDecodeResponse(NEW_RESPONSE, q)
  {
    hide TryDecode, EatWord, EndsInside, Atoi, Trim, FromStatus;
    var q: bytes := p + "x";
    AttemptResumes(p, q);
    LineMeansHeaders(p, q);
    var line := TryDecode(CLEARED, p).line1;
    LineIsInInput(p);
    FromStatusExtends(p, "x", line);
    StopsAtLetter(FromStatus(p, line), 'x');
    assert FromStatus(p, line) + ['x'] == FromStatus(q, line);
  }

  /** The shortest such input: a version and nothing else. What follows the header block becomes the status. */
  lemma BareVersionReadsOn(p: bytes, q: bytes)
    requires p == "HTTP/1.1" + CRLF + CRLF && q == p + "404 "
    ensures TryDecodeResponse(NEW_RESPONSE, p).1 == Complete && TryDecodeResponse(NEW_RESPONSE, q).1 == Complete
    ensures TryDecodeResponse(NEW_RESPONSE, p).0.status == OffTheEnd
    ensures TryDecodeResponse(NEW_RESPONSE, q).0.status == Value(404)
  {
    hide TryDecode, EatWord, AtoiIn, FromStatus, Trim, Scan, BlankLineAt;
    BareBlock(p, p);
    BareBlock(q, p);
    BareAttempt(p);
    BareAttempt(q);
    StatusOfBareVersion(p, q);
  }

  lemma StatusOfBareVersion(p: bytes, q: bytes)
    requires p == "HTTP/1.1" + CRLF + CRLF && q == p + "404 "
    ensures AtoiIn(FromStatus(p, "HTTP/1.1")) == OffTheEnd
    ensures AtoiIn(FromStatus(q, "HTTP/1.1")) == Value(404)
  {
    hide EatWord, AtoiIn;
    BareStatusAt();
    assert p[8..] == CRLF + CRLF && q[8..] == CRLF + CRLF + "404 ";
    ReadsNothing(p[8..]);
    SpanIs(q[8..], SPACE, 4);
    assert q[8..][4..] == "404 ";
    ReadsFourOhFour(q[8..]);
  }

  lemma BareStatusAt()
    ensures StatusAt("HTTP/1.1") == 8
  {
    var line: bytes := "HTTP/1.1";
    EatWordOf(line, []);
    assert line + [] == line && EatWord([]) == Cut([], []);
    hide EatWord;
  }

  lemma ReadsNothing(s: bytes)
    requires s == CRLF + CRLF
    ensures AtoiIn(s) == OffTheEnd
  {
    SpanIs(s, SPACE, 4);
    assert s[4..] == [];
    hide Span;
  }

  lemma ReadsFourOhFour(s: bytes)
    requires Span(s, SPACE) == 4 && |s| == 8 && s[4..] == "404 "
    ensures AtoiIn(s) == Value(404)
  {
    var t := s[4..];
    assert t[0] == '4' && t[1] == '0' && t[2] == '4' && t[3] == ' ';
    SpanIs(t, IsDigit, 3);
    assert t[1..] == "04 " && t[1..][1..] == "4 " && t[1..][1..][1..] == " ";
    assert Digits(t[1..][1..][1..], 404) == 404;
    assert Digits(t[1..][1..], 40) == 404;
    assert Digits(t[1..], 4) == 404;
    hide Span;
  }

  lemma BareAttempt(buf: bytes)
    requires |buf| >= 12 && Scan(buf, 0) == 8 && BlankLineAt(buf, 8) && buf[..8] == "HTTP/1.1"
    ensures TryDecode(CLEARED, buf) == Attempt(Msg(map[], [], true, 0, 12), Complete, "HTTP/1.1")
  {
    hide Scan, BlankLineAt, ReadBlock;
    ReadBareBlock(buf);
  }

  lemma ReadBareBlock(buf: bytes)
    requires |buf| >= 12 && buf[..8] == "HTTP/1.1"
    ensures ReadBlock(CLEARED, buf, 8) == Attempt(Msg(map[], [], true, 0, 12), Complete, "HTTP/1.1")
  {
    hide EatLine, Atoi, ParseHeaders;
    var line: bytes := "HTTP/1.1";
    EatLineOf(line, []);
    assert line + [] == line && buf[12..12] == [];
    NoHeaders();
  }

  lemma NoHeaders()
    ensures ParseHeaders([], map[]) == Parsed(map[], true) && Atoi([]) == 0
  {
    assert Span([], SPACE) == 0;
  }

  lemma BareBlock(buf: bytes, head: bytes)
    requires head == "HTTP/1.1" + CRLF + CRLF && head <= buf
    ensures |buf| >= 12 && Scan(buf, 0) == 8 && BlankLineAt(buf, 8) && buf[..8] == "HTTP/1.1"
  {
    assert |head| == 12 && forall i | 0 <= i < 12 :: buf[i] == head[i];
    assert head[8] == '\r' && head[9] == '\n' && head[10] == '\r' && head[11] == '\n';
    forall i | 0 <= i < 8 ensures !BlankLineAt(buf, i) {
      assert head[i] == "HTTP/1.1"[i];
    }
    ScanFinds(buf, 0, 8);
    hide Scan;
    assert buf[..8] == head[..8] == "HTTP/1.1";
  }

  lemma RequestResumes(p: bytes, q: bytes)
    requires p <= q && Open(TryDecodeRequest(NEW_REQUEST, p).1)
    ensures TryDecodeRequest(TryDecodeRequest(NEW_REQUEST, p).0, q) == TryDecodeRequest(NEW_REQUEST, q)
  {
    AttemptResumes(p, q);
    LineMeansHeaders(p, q);
    hide TryDecode, EatWord;
  }

  /** A start line is reported by one attempt only. */
  lemma LineMeansHeaders(p: bytes, q: bytes)
    requires p <= q && Open(TryDecode(CLEARED, p).result)
    ensures
      var a := TryDecode(CLEARED, p);
      a.line1 == [] ==> TryDecode(a.msg, q).line1 == TryDecode(CLEARED, q).line1
    ensures
      var a := TryDecode(CLEARED, p);
      a.line1 != [] ==> TryDecode(a.msg, q).line1 == [] && TryDecode(CLEARED, q).line1 == a.line1
  {
    AttemptResumes(p, q);
    var a := TryDecode(CLEARED, p);
    hide TryDecode;
    assert a.line1 + [] == a.line1 && [] + TryDecode(a.msg, q).line1 == TryDecode(a.msg, q).line1;
  }

  /** The response after an attempt at each stage of a growing input. */
  function DecodeResponses(r: Response, inputs: seq<bytes>): Response
    decreases |inputs|
  {
    if inputs == [] then r else DecodeResponses(TryDecodeResponse(r, inputs[0]).0, inputs[1..])
  }

  /**
   * However the input grows, the response at the end is that of one attempt on the whole, up to a failure or a status
   * read from outside the input.
   */
  lemma {:induction false} ResponseIsOneShot(p: bytes, inputs: seq<bytes>)
    requires Growing([p] + inputs)
    requires forall x | x == p || x in inputs :: Open(TryDecode(CLEARED, x).result) && StatusIn(x)
    ensures DecodeResponses(TryDecodeResponse(NEW_RESPONSE, p).0, inputs)
         == TryDecodeResponse(NEW_RESPONSE, if inputs == [] then p else inputs[|inputs| - 1]).0
    decreases |inputs|
  {
    hide TryDecode, EatWord, AtoiIn, Trim, StatusIn, FromStatus;
    if inputs != [] {
      var all := [p] + inputs;
      assert all[0] == p && all[1] == inputs[0] && inputs[0] in inputs;
      ResponseResumes(p, inputs[0]);
      forall i | 0 <= i < |inputs| - 1 ensures inputs[i] <= inputs[i + 1] {
        assert all[i + 1] == inputs[i] && all[i + 2] == inputs[i + 1];
      }
      assert [inputs[0]] + inputs[1..] == inputs;
      ResponseIsOneShot(inputs[0], inputs[1..]);
    }
  }

  lemma {:induction false} GrowingBelow(inputs: seq<bytes>, i: nat, q: bytes)
    requires Growing(inputs) && i < |inputs| && inputs[|inputs| - 1] <= q
    ensures inputs[i] <= q
    decreases |inputs| - i
  {
    if i + 1 < |inputs| {
      GrowingBelow(inputs, i + 1, q);
      assert inputs[i] <= inputs[i + 1];
    }
  }

  /**
   * A printed response that arrives in any pieces is complete when the piece with its last byte is there and not
   * before; and then version, status, reason, headers and body are the ones that were sent.
   */
  lemma ResponseArrivesInPieces(version: bytes, status: int, word: bytes, fields: seq<Field>, body: bytes, tail: bytes,
                                p: bytes, inputs: seq<bytes>)
    requires Solid(version) && version != [] && OneLine(word) && Trimmed(word) && ResponseFits(version, status, word)
    requires AllPlain(fields) && |body| <= MAX_INT
    requires Growing([p] + inputs)
    requires ([p] + inputs)[|inputs|] <= EncodeResponse(version, status, word, fields, body) + tail
    ensures
      var m := EncodeResponse(version, status, word, fields, body);
      var r := DecodeResponses(TryDecodeResponse(NEW_RESPONSE, p).0, inputs);
      if |([p] + inputs)[|inputs|]| < |m| then !r.msg.complete
      else r == Response(Msg(Received(fields, body), body, true, |body|, |m|), version, Value(status), word)
  {
    var m := EncodeResponse(version, status, word, fields, body);
    var all := [p] + inputs;
    var last := all[|inputs|];
    assert last == if inputs == [] then p else inputs[|inputs| - 1];
    hide TryDecode, EncodeResponse, AllPlain, OneLine, Solid, Trimmed, Received, AtoiIn, EatWord, Trim, ResponseFits,
      StatusIn, FromStatus;
    forall x | x == p || x in inputs ensures Open(TryDecode(CLEARED, x).result) && StatusIn(x) {
      assert all[0] == p && forall j | 0 <= j < |inputs| :: all[j + 1] == inputs[j];
      var i :| 0 <= i < |all| && all[i] == x;
      GrowingBelow(all, i, m + tail);
      AttemptOnPiece(version, status, word, fields, body, tail, x);
    }
    ResponseIsOneShot(p, inputs);
    AttemptOnPiece(version, status, word, fields, body, tail, last);
    if |last| >= |m| {
      var rest := last[|m|..];
      assert last == m + rest by { assert last == (m + tail)[..|last|] && (m + tail)[..|m|] == m; }
      ResponseRoundTrip(version, status, word, fields, body, rest);
    } else {
      NotCompleteMeans(CLEARED, last);
    }
  }

  lemma NotCompleteMeans(m: Msg, buf: bytes)
    requires !m.complete
    ensures var a := TryDecode(m, buf); a.result == NotComplete ==> !a.msg.complete
  {
    hide Scan, ParseHeaders, EatLine, Atoi, BlankLineAt;
  }

  /** One attempt on a prefix of a printed response with anything behind it. */
  lemma AttemptOnPiece(version: bytes, status: int, word: bytes, fields: seq<Field>, body: bytes, tail: bytes,
                       p: bytes)
    requires Solid(version) && version != [] && OneLine(word) && Trimmed(word) && ResponseFits(version, status, word)
    requires AllPlain(fields) && |body| <= MAX_INT
    requires p <= EncodeResponse(version, status, word, fields, body) + tail
    ensures
      var m := EncodeResponse(version, status, word, fields, body);
      TryDecode(CLEARED, p).result == (if |p| < |m| then NotComplete else Complete) && StatusIn(p)
  {
    hide TryDecode, EncodeWith, EncodeResponse, StatusLine, AllPlain, OneLine, Solid, Trimmed, Received, EatWord, Trim,
      ResponseFits, AtoiIn, FromStatus, StatusIn;
    var m := EncodeResponse(version, status, word, fields, body);
    var q := m + tail;
    ResponseIsPrintedWhole(version, status, word, fields, body);
    PieceHasStatus(version, status, word, fields, body, tail, p);
    ReadStatusLine(version, status, word);
    DecodeOfEncode(StatusLine(version, status, word), CRLF, fields, body, tail);
    AttemptResumes(p, q);
    if |p| >= |m| {
      var rest := p[|m|..];
      assert p == m + rest by { assert p == q[..|p|] && q[..|m|] == m; }
      DecodeOfEncode(StatusLine(version, status, word), CRLF, fields, body, rest);
    } else {
      CompleteMeans(CLEARED, p);
      CompleteIsFinal(p, q);
    }
  }

  /** The start line of a piece, once it is reported, has its status. */
  lemma PieceHasStatus(version: bytes, status: int, word: bytes, fields: seq<Field>, body: bytes, tail: bytes, p: bytes)
    requires Solid(version) && version != [] && OneLine(word) && Trimmed(word)
    requires AllPlain(fields) && |body| <= MAX_INT
    requires p <= EncodeWith(StatusLine(version, status, word), CRLF, fields, body) + tail
    ensures StatusIn(p)
  {
    hide TryDecode, EncodeWith, AllPlain, OneLine, Solid, Trimmed, Received, EatWord, Trim;
    hide StatusLine, AtoiIn, FromStatus, EndsInside;
    var first := StatusLine(version, status, word);
    var q := EncodeWith(first, CRLF, fields, body) + tail;
    ReadStatusLine(version, status, word);
    DecodeOfEncode(first, CRLF, fields, body, tail);
    AttemptResumes(p, q);
    var a := TryDecode(CLEARED, p);
    if a.line1 != [] {
      assert Open(a.result) ==> a.line1 + [] == a.line1;
      assert a.line1 == first;
      LineIsInInput(p);
      assert p == first + p[|first|..];
      ValueMeansInside();
    }
  }

  lemma ValueMeansInside()
    ensures forall s :: AtoiIn(s).Value? <==> EndsInside(s)
  {
  }

  /** Completion is recorded in the message, and nothing beyond the input has been counted. */
  lemma CompleteMeans(m: Msg, buf: bytes)
    requires !m.complete
    ensures var a := TryDecode(m, buf); a.result == Complete ==> a.msg.complete && a.msg.scanned <= |buf|
  {
    hide Scan, ParseHeaders, EatLine, Atoi, BlankLineAt;
  }

  lemma CompleteIsFinal(p: bytes, q: bytes)
    ensures TryDecode(CLEARED, p).result == Complete ==>
      TryDecode(TryDecode(CLEARED, p).msg, q).msg == TryDecode(CLEARED, p).msg
  {
    CompleteMeans(CLEARED, p);
    hide Scan, ReadBlock, TakeBody, BlankLineAt;
  }
}
