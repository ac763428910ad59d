/** The incremental HTTP message parser, the printer, and how they fit together (section 3 of RFC 7230). */
module Http {
  import opened Bytes
  import opened Slices
  import opened Numbers

  type Headers = map<bytes, bytes>

  /**
   * `Unmodelled` stands for a content-length outside 0 to 2^31 - 1, for which the program's arithmetic wraps around
   * or is undefined.
   */
  datatype Result = Error | Complete | NotComplete | Continue100 | Unmodelled

  /** The fields of a message that parsing updates; `scanned` counts the bytes already looked at. */
  datatype Msg = Msg(headers: Headers, body: bytes, complete: bool, contentLen: nat, scanned: nat)

  const CLEARED := Msg(map[], [], false, 0, 0)

  const CRLF: bytes := "\r\n"
  const MAX_INT: int := 0x7FFF_FFFF

  // ----- Finding the end of the header block -----

  predicate BlankLineAt(buf: bytes, i: nat) {
    i + 4 <= |buf| && buf[i] == '\r' && buf[i + 1] == '\n' && buf[i + 2] == '\r' && buf[i + 3] == '\n'
  }

  /** The first blank line from `from` on, or else the first place that is too close to the end to tell. */
  function Scan(buf: bytes, from: nat): nat
    decreases |buf| - from
  {
    if |buf| < from + 4 || BlankLineAt(buf, from) then from else Scan(buf, from + 1)
  }

  // ----- Header lines -----

  function Lower(c: byte): byte { if 'A' <= c <= 'Z' then (c as int + 32) as char else c }

  function LowerAll(s: bytes): (r: bytes)
    ensures |r| == |s|
  {
    if s == [] then [] else [Lower(s[0])] + LowerAll(s[1..])
  }

  datatype Parsed = Parsed(headers: Headers, ok: bool)

  /** The loop over header lines: two bytes of line end, a name with its colon, and a trimmed value. */
  function ParseHeaders(req: bytes, headers: Headers): Parsed
    decreases |req|
  {
    if req == [] then Parsed(headers, true)
    else if |req| == 1 then Parsed(headers, false)
    else
      var ln := EatLine(req[2..]);
      var k := EatWord(ln.taken);
      var v := Trim(k.rest);
      if k.taken != [] && v != [] && k.taken[|k.taken| - 1] == ':' then
        ParseHeaders(ln.rest, headers[LowerAll(k.taken[..|k.taken| - 1]) := v])
      else Parsed(headers, k.taken == [] && v == [] && ln.rest == [])
  }

  function Header(h: Headers, name: bytes): bytes { if name in h then h[name] else [] }

  // ----- One attempt -----

  datatype Attempt = Attempt(msg: Msg, result: Result, line1: bytes)

  /** The part after the header block: the body, once it is all there. */
  function TakeBody(m: Msg, buf: bytes, line1: bytes): Attempt {
    if |buf| >= m.contentLen + m.scanned then
      Attempt(m.(body := buf[m.scanned..m.scanned + m.contentLen], complete := true,
                 scanned := m.scanned + m.contentLen), Complete, line1)
    else Attempt(m, NotComplete, line1)
  }

  /** Once the blank line is at `pos`: the start line, the header lines, and the length of the body. */
  function ReadBlock(m: Msg, buf: bytes, pos: nat): Attempt
    requires pos <= |buf|
  {
    var first := EatLine(buf[..pos]);
    var p := ParseHeaders(first.rest, m.headers);
    var h := m.(scanned := pos, headers := p.headers);
    var len := Atoi(Header(p.headers, "content-length"));
    if !p.ok then Attempt(h, Error, first.taken)
    else if !(0 <= len <= MAX_INT) then Attempt(h, Unmodelled, first.taken)
    else
      var b := h.(scanned := pos + 4, contentLen := len);
      if |buf| < b.contentLen + b.scanned && Header(p.headers, "Expect") != [] then
        Attempt(b, Continue100, first.taken)
      else TakeBody(b, buf, first.taken)
  }

  /** `tryDecode_`. */
  function TryDecode(m: Msg, buf: bytes): Attempt {
    if m.complete then Attempt(m, Complete, [])
    else if m.contentLen != 0 then TakeBody(m, buf, [])
    else
      var pos := Scan(buf, m.scanned);
      if !BlankLineAt(buf, pos) || pos == 0 then Attempt(m.(scanned := pos), NotComplete, [])
      else ReadBlock(m, buf, pos)
  }

  // ----- The Continue100 branch -----

  predicate LowerNames(h: Headers) { forall k | k in h :: forall i | 0 <= i < |k| :: !('A' <= k[i] <= 'Z') }

  lemma {:induction false} LowerAllIs(s: bytes, i: nat)
    requires i < |s|
    ensures LowerAll(s)[i] == Lower(s[i])
    decreases |s|
  {
    if i > 0 { LowerAllIs(s[1..], i - 1); }
  }

  lemma LowerAllIsLower(s: bytes)
    ensures forall i | 0 <= i < |s| :: !('A' <= LowerAll(s)[i] <= 'Z')
  {
    forall i | 0 <= i < |s| ensures !('A' <= LowerAll(s)[i] <= 'Z') { LowerAllIs(s, i); }
  }

  lemma {:induction false} ParseKeepsLower(req: bytes, headers: Headers)
    requires LowerNames(headers)
    ensures LowerNames(ParseHeaders(req, headers).headers)
    decreases |req|
  {
    hide EatLine, EatWord, Trim;
    if |req| >= 2 {
      var ln := EatLine(req[2..]);
      var k := EatWord(ln.taken);
      var v := Trim(k.rest);
      if k.taken != [] && v != [] && k.taken[|k.taken| - 1] == ':' {
        var name := k.taken[..|k.taken| - 1];
        LowerAllIsLower(name);
        hide LowerAll;
        ParseKeepsLower(ln.rest, headers[LowerAll(name) := v]);
      }
    }
  }

  /** Names are kept in lower case but looked up as "Expect", so a parsed message never asks for 100 Continue. */
  lemma NeverContinue100(m: Msg, buf: bytes)
    requires LowerNames(m.headers)
    ensures TryDecode(m, buf).result != Continue100 && LowerNames(TryDecode(m, buf).msg.headers)
  {
    hide Scan, EatLine, Atoi, ParseHeaders;
    var pos := Scan(buf, m.scanned);
    if !m.complete && m.contentLen == 0 && BlankLineAt(buf, pos) {
      var first := EatLine(buf[..pos]);
      ParseKeepsLower(first.rest, m.headers);
      var e: bytes := "Expect";
      assert e[0] == 'E';
      assert "Expect" !in ParseHeaders(first.rest, m.headers).headers;
    }
  }

  // ----- Resuming an attempt when more bytes have come -----

  lemma {:induction false} ScanSkipsNone(buf: bytes, from: nat)
    ensures from <= Scan(buf, from)
    ensures forall i | from <= i < Scan(buf, from) :: !BlankLineAt(buf, i)
    ensures BlankLineAt(buf, Scan(buf, from)) || |buf| < Scan(buf, from) + 4
    decreases |buf| - from
  {
    if !(|buf| < from + 4 || BlankLineAt(buf, from)) { ScanSkipsNone(buf, from + 1); }
  }

  lemma {:induction false} ScanResumes(p: bytes, q: bytes, from: nat)
    requires p <= q
    ensures Scan(q, Scan(p, from)) == Scan(q, from)
    ensures BlankLineAt(p, Scan(p, from)) ==> Scan(q, from) == Scan(p, from)
    decreases |p| - from
  {
    if !(|p| < from + 4 || BlankLineAt(p, from)) {
      ScanResumes(p, q, from + 1);
    }
  }

  /** A message that begins with a blank line is never complete, however it goes on. */
  lemma EmptyBlockNeverCompletes(rest: bytes)
    ensures TryDecode(CLEARED, CRLF + CRLF + rest) == Attempt(CLEARED, NotComplete, [])
  {
    var buf := CRLF + CRLF + rest;
    assert BlankLineAt(buf, 0);
    hide ReadBlock, TakeBody;
  }

  predicate Open(r: Result) { r == NotComplete || r == Complete }

  /** An attempt that got past the header block gets past it in the same way on any longer input. */
  lemma HeaderBlockIsStable(p: bytes, q: bytes)
    requires p <= q && BlankLineAt(p, Scan(p, 0)) && Scan(p, 0) != 0
    ensures Scan(q, 0) == Scan(p, 0) && BlankLineAt(q, Scan(q, 0)) && q[..Scan(q, 0)] == p[..Scan(p, 0)]
  {
    ScanResumes(p, q, 0);
  }

  /**
   * Resumption: an attempt on a prefix followed by one on the longer input ends exactly as a single attempt on the
   * longer input, whatever the bytes are; a start line that the first attempt has reported is not reported again. An
   * attempt that fails on a prefix fails in the same way on the longer input.
   */
  lemma AttemptResumes(p: bytes, q: bytes)
    requires p <= q
    ensures
      var a, b := TryDecode(CLEARED, p), TryDecode(CLEARED, q);
      var c := TryDecode(a.msg, q);
      if Open(a.result) then
        && c.msg == b.msg && c.result == b.result && a.line1 + c.line1 == b.line1
        && (a.line1 == [] || c.line1 == [])
      else
        b == a
  {
    NeverContinue100(CLEARED, p);
    NeverContinue100(CLEARED, q);
    if BlankLineAt(p, Scan(p, 0)) && Scan(p, 0) != 0 {
      HeaderBlockIsStable(p, q);
      AfterHeaders(p, q);
    } else {
      BeforeHeaders(p, q);
    }
    hide TryDecode, BlankLineAt, Scan;
  }

  lemma BeforeHeaders(p: bytes, q: bytes)
    requires p <= q && !(BlankLineAt(p, Scan(p, 0)) && Scan(p, 0) != 0)
    ensures
      var a := TryDecode(CLEARED, p);
      a.result == NotComplete && a.line1 == [] && TryDecode(a.msg, q) == TryDecode(CLEARED, q)
  {
    ScanResumes(p, q, 0);
    NotYet(CLEARED, p);
    StartsFrom(CLEARED, q, Scan(p, 0));
    hide TryDecode, Scan, BlankLineAt;
  }

  lemma NotYet(m: Msg, buf: bytes)
    requires !m.complete && m.contentLen == 0 && !(BlankLineAt(buf, Scan(buf, m.scanned)) && Scan(buf, m.scanned) != 0)
    ensures TryDecode(m, buf) == Attempt(m.(scanned := Scan(buf, m.scanned)), NotComplete, [])
  {
    hide ReadBlock, Scan, BlankLineAt, TakeBody;
  }

  /** Where the scan starts makes no difference as long as it ends in the same place. */
  lemma StartsFrom(m: Msg, buf: bytes, pos: nat)
    requires !m.complete && m.contentLen == 0 && Scan(buf, pos) == Scan(buf, m.scanned)
    ensures TryDecode(m.(scanned := pos), buf) == TryDecode(m, buf)
  {
    hide ParseHeaders, Scan, EatLine, Atoi, BlankLineAt, TakeBody;
  }

  lemma AfterHeaders(p: bytes, q: bytes)
    requires p <= q && BlankLineAt(p, Scan(p, 0)) && Scan(p, 0) != 0
    requires Scan(q, 0) == Scan(p, 0) && q[..Scan(q, 0)] == p[..Scan(p, 0)]
    requires TryDecode(CLEARED, p).result != Continue100 && TryDecode(CLEARED, q).result != Continue100
    ensures
      var a, b := TryDecode(CLEARED, p), TryDecode(CLEARED, q);
      var c := TryDecode(a.msg, q);
      if Open(a.result) then
        && c.msg == b.msg && c.result == b.result && a.line1 + c.line1 == b.line1
        && (a.line1 == [] || c.line1 == [])
      else
        b == a
  {
    hide ParseHeaders, Scan, EatLine, Atoi;
    var a := TryDecode(CLEARED, p);
    assert a.line1 + [] == a.line1;
    if a.result == Complete {
      assert q[a.msg.scanned - a.msg.contentLen..a.msg.scanned] == p[a.msg.scanned - a.msg.contentLen..a.msg.scanned];
    }
  }

  predicate Growing(inputs: seq<bytes>) {
    forall i | 0 <= i < |inputs| - 1 :: inputs[i] <= inputs[i + 1]
  }

  /** The state after an attempt at each stage of a growing input. */
  function DecodeAll(m: Msg, inputs: seq<bytes>): Msg
    decreases |inputs|
  {
    if inputs == [] then m else DecodeAll(TryDecode(m, inputs[0]).msg, inputs[1..])
  }

  /** However an input grows, the parser's state at the end is that of one attempt on the whole, up to a failure. */
  lemma {:induction false} ResumptionIsOneShot(p: bytes, inputs: seq<bytes>)
    requires Growing([p] + inputs)
    requires forall x | x == p || x in inputs :: Open(TryDecode(CLEARED, x).result)
    ensures DecodeAll(TryDecode(CLEARED, p).msg, inputs)
         == TryDecode(CLEARED, if inputs == [] then p else inputs[|inputs| - 1]).msg
    decreases |inputs|
  {
    if inputs != [] {
      var all := [p] + inputs;
      assert all[0] == p && all[1] == inputs[0] && inputs[0] in inputs;
      AttemptResumes(p, inputs[0]);
      forall i | 0 <= i < |inputs| - 1 ensures inputs[i] <= inputs[i + 1] {
        assert all[i + 1] == inputs[i] && all[i + 2] == inputs[i + 1];
      }
      assert [inputs[0]] + inputs[1..] == inputs;
      ResumptionIsOneShot(inputs[0], inputs[1..]);
    }
  }

  // ----- Printing -----

  datatype Field = Field(name: bytes, value: bytes)

  function HeaderLine(f: Field): bytes { f.name + ":" + (" " + f.value) }

  /** The header lines as encode writes them, each with its line end. */
  function HeaderText(fields: seq<Field>): bytes {
    if fields == [] then [] else HeaderLine(fields[0]) + CRLF + HeaderText(fields[1..])
  }

  /** The fields encode writes: the message's own and then the two it always adds. */
  function AllFields(fields: seq<Field>, body: bytes): seq<Field> {
    fields + [Field("Connection", "Keep-Alive"), Field("Content-Length", Print(|body|))]
  }

  function StatusLine(version: bytes, status: int, word: bytes): bytes {
    version + (" " + PrintInt(status) + (" " + word))
  }

  function RequestLine(verb: bytes, uri: bytes, version: bytes): bytes {
    verb + (" " + uri + (" " + version))
  }

  /** A message as encode writes it, behind a start line that has been printed with its line end. */
  function EncodeFrom(start: bytes, fields: seq<Field>, body: bytes): bytes {
    start + HeaderText(AllFields(fields, body)) + CRLF + body
  }

  function EncodeWith(first: bytes, end: bytes, fields: seq<Field>, body: bytes): bytes {
    EncodeFrom(first + end, fields, body)
  }

  const NOT_NUL: byte -> bool := (c: byte) => c as int != 0

  /** What "%s" prints of a string. */
  function CString(s: bytes): bytes { s[..Span(s, NOT_NUL)] }

  predicate NoNul(s: bytes) { forall i | 0 <= i < |s| :: NOT_NUL(s[i]) }

  /** What snprintf leaves in a buffer of `limit` bytes. */
  function Formatted(limit: nat, s: bytes): bytes
    requires limit > 0
  {
    if |s| < limit then s else s[..limit - 1]
  }

  lemma CStringIs(s: bytes)
    ensures |CString(s)| <= |s| && (NoNul(s) <==> CString(s) == s) && (!NoNul(s) ==> |CString(s)| < |s|)
  {
    if NoNul(s) { SpanIs(s, NOT_NUL, |s|); }
  }

  /** A field that fits on its line and is not eaten by trimming. */
  predicate Plain(f: Field) {
    Solid(f.name) && OneLine(f.value) && Trimmed(f.value) && f.value != []
  }

  predicate AllPlain(fields: seq<Field>) { forall f | f in fields :: Plain(f) }

  // ----- The printed block is found whole -----

  /** Header lines with the line end in front of each instead. */
  function Tail(fields: seq<Field>): bytes {
    if fields == [] then [] else CRLF + HeaderLine(fields[0]) + Tail(fields[1..])
  }

  lemma {:induction false} TailIsText(fields: seq<Field>)
    ensures CRLF + HeaderText(fields) == Tail(fields) + CRLF
    decreases |fields|
  {
    if fields == [] {
      assert CRLF + [] == [] + CRLF;
    } else {
      TailIsText(fields[1..]);
      var l := HeaderLine(fields[0]);
      assert CRLF + (l + CRLF + HeaderText(fields[1..])) == CRLF + l + (CRLF + HeaderText(fields[1..]));
      assert CRLF + l + (Tail(fields[1..]) + CRLF) == CRLF + l + Tail(fields[1..]) + CRLF;
    }
  }

  lemma LineIsPlain(f: Field)
    requires Plain(f)
    ensures OneLine(HeaderLine(f)) && HeaderLine(f) != []
  {
    forall i | 0 <= i < |HeaderLine(f)| ensures !IsBreak(HeaderLine(f)[i]) {
      if i >= |f.name| + 2 { assert HeaderLine(f)[i] == f.value[i - |f.name| - 2]; }
    }
  }

  lemma BlankShift(a: bytes, b: bytes, i: nat)
    requires i >= |a|
    ensures BlankLineAt(a + b, i) == BlankLineAt(b, i - |a|)
  {
  }

  /** No blank line starts inside `l` or the header lines after it. */
  lemma {:induction false} NoBlankInside(l: bytes, fields: seq<Field>, end: bytes, i: nat)
    requires '\r' !in l && AllPlain(fields) && i < |l + Tail(fields)|
    ensures !BlankLineAt(l + (Tail(fields) + end), i)
    decreases |fields|
  {
    var s := l + (Tail(fields) + end);
    if i < |l| {
      assert s[i] == l[i];
    } else {
      var line, rest := HeaderLine(fields[0]), Tail(fields[1..]);
      LineIsPlain(fields[0]);
      assert !IsBreak(line[0]);
      assert s == l + CRLF + (line + (rest + end));
      if i >= |l| + 2 {
        BlankShift(l + CRLF, line + (rest + end), i);
        NoBlankInside(line, fields[1..], end, i - |l| - 2);
      } else {
        assert s[|l| + 1] == '\n' && s[|l| + 2] == line[0];
      }
    }
  }

  lemma {:induction false} ScanFinds(buf: bytes, from: nat, pos: nat)
    requires from <= pos && BlankLineAt(buf, pos) && forall i | from <= i < pos :: !BlankLineAt(buf, i)
    ensures Scan(buf, from) == pos
    decreases pos - from
  {
    if from < pos { ScanFinds(buf, from + 1, pos); }
  }

  lemma BlockIsFound(l: bytes, fields: seq<Field>, tail: bytes)
    requires '\r' !in l && AllPlain(fields)
    ensures
      var block := l + Tail(fields);
      var buf := block + (CRLF + CRLF + tail);
      Scan(buf, 0) == |block| && BlankLineAt(buf, |block|) && buf[..|block|] == block && buf[|block| + 4..] == tail
  {
    hide Tail, AllPlain, Scan;
    var block := l + Tail(fields);
    var end := CRLF + CRLF + tail;
    assert block + end == l + (Tail(fields) + end);
    EndIsBlank(block, tail);
    hide BlankLineAt;
    forall i | 0 <= i < |block| ensures !BlankLineAt(block + end, i) {
      NoBlankInside(l, fields, end, i);
    }
    ScanFinds(block + end, 0, |block|);
  }

  lemma EndIsBlank(block: bytes, tail: bytes)
    ensures
      var buf := block + (CRLF + CRLF + tail);
      BlankLineAt(buf, |block|) && buf[..|block|] == block && buf[|block| + 4..] == tail
  {
  }

  // ----- The header lines are read back -----

  /** The map that assigning the fields one after the other gives. */
  function Assigned(fields: seq<Field>, h: Headers): Headers {
    if fields == [] then h else Assigned(fields[1..], h[LowerAll(fields[0].name) := fields[0].value])
  }

  lemma ReadLine(f: Field)
    requires Plain(f)
    ensures
      var k := EatWord(HeaderLine(f));
      k.taken == f.name + ":" && Trim(k.rest) == f.value
  {
    var word: bytes := f.name + ":";
    EatWordOf(word, " " + f.value);
    TrimBlank(f.value);
  }

  /** One line of the loop, whatever the two bytes in front of it are. */
  lemma ParseStep(end: bytes, f: Field, fields: seq<Field>, h: Headers)
    requires |end| == 2 && Plain(f)
    ensures ParseHeaders(end + HeaderLine(f) + Tail(fields), h)
         == ParseHeaders(Tail(fields), h[LowerAll(f.name) := f.value])
  {
    hide EatLine, EatWord, Trim, LowerAll, Tail;
    var req := end + HeaderLine(f) + Tail(fields);
    assert req[2..] == HeaderLine(f) + Tail(fields);
    LineIsPlain(f);
    TailStart(fields);
    EatLineOf(HeaderLine(f), Tail(fields));
    ReadLine(f);
    assert (f.name + ":")[..|f.name|] == f.name;
    hide HeaderLine, Plain;
  }

  lemma TailStart(fields: seq<Field>)
    ensures Tail(fields) != [] ==> IsBreak(Tail(fields)[0])
  {
  }

  lemma {:induction false} ParseTail(fields: seq<Field>, h: Headers)
    requires AllPlain(fields)
    ensures ParseHeaders(Tail(fields), h) == Parsed(Assigned(fields, h), true)
    decreases |fields|
  {
    if fields != [] {
      ParseStep(CRLF, fields[0], fields[1..], h);
      ParseTail(fields[1..], h[LowerAll(fields[0].name) := fields[0].value]);
    }
  }
}
