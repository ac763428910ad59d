/** The HTTP message objects: parsing in place, printing into a buffer, and dropping a message from the input. */
module HttpParser {
  import opened Bytes
  import opened Buffers
  import opened Slices
  import opened Numbers
  import opened Http
  import M = HttpMessages

  class HttpMsg {
    var headers: Headers
    var body: bytes
    var complete: bool
    var contentLen: nat
    var scanned: nat

    function View(): Msg
      reads this
    {
      Msg(headers, body, complete, contentLen, scanned)
    }

    constructor ()
      ensures View() == CLEARED
    {
      headers, body, complete, contentLen, scanned := map[], [], false, 0, 0;
    }

    method Clear()
      modifies this
      ensures View() == CLEARED
    {
      headers, body, complete, contentLen, scanned := map[], [], false, 0, 0;
    }

    /** Moves `scanned` to the first blank line, or as far as can be told. */
    method FindBlankLine(buf: bytes) returns (found: bool)
      modifies this`scanned
      ensures scanned == Scan(buf, old(scanned)) && found == BlankLineAt(buf, scanned)
    {
      while |buf| >= scanned + 4
        invariant Scan(buf, scanned) == Scan(buf, old(scanned))
        decreases |buf| - scanned
      {
        if buf[scanned] == '\r' && buf[scanned..scanned + 4] == "\r\n\r\n" {
          return true;
        }
        FourBytes(buf, scanned);
        scanned := scanned + 1;
      }
      return false;
    }

    /** The loop over the header lines. */
    method ReadHeaders(block: bytes) returns (ok: bool)
      modifies this`headers
      ensures Parsed(headers, ok) == ParseHeaders(block, old(headers))
    {
      hide EatLine, EatWord, Trim, LowerAll;
      var req := block;
      while |req| > 0
        invariant ParseHeaders(req, headers) == ParseHeaders(block, old(headers))
        decreases |req|
      {
        if |req| == 1 {
          return false;
        }
        var ln, rest := EatLineFrom(req[2..]);
        var k, v := EatWordFrom(ln);
        v := TrimSpace(v);
        if |k| > 0 && |v| > 0 && k[|k| - 1] == ':' {
          headers := headers[LowerAll(k[..|k| - 1]) := v];
          req := rest;
        } else {
          return |k| == 0 && |v| == 0 && |rest| == 0;
        }
      }
      return true;
    }

    /** One attempt on everything that has come in so far. */
    method TryDecode(buf: bytes) returns (result: Result, line1: bytes)
      modifies this
      ensures Attempt(View(), result, line1) == Http.TryDecode(old(View()), buf)
    {
      hide Scan, EatLine, ParseHeaders, Atoi, BlankLineAt;
      line1 := [];
      if complete {
        return Complete, line1;
      }
      if contentLen == 0 {
        var found := FindBlankLine(buf);
        if !found || scanned == 0 {
          return NotComplete, line1;
        }
        BlankLineIsInside(buf, scanned);
        var rest;
        line1, rest := EatLineFrom(buf[..scanned]);
        var ok := ReadHeaders(rest);
        if !ok {
          return Error, line1;
        }
        var len := Atoi(Header(headers, "content-length"));
        if !(0 <= len <= MAX_INT) {
          return Unmodelled, line1;
        }
        scanned := scanned + 4;
        contentLen := len;
        if |buf| < contentLen + scanned && |Header(headers, "Expect")| > 0 {
          return Continue100, line1;
        }
      }
      if |buf| >= contentLen + scanned {
        body := buf[scanned..scanned + contentLen];
        complete := true;
        scanned := scanned + contentLen;
      }
      result := if complete then Complete else NotComplete;
    }
  }

  lemma FourBytes(buf: bytes, i: nat)
    requires i + 4 <= |buf|
    ensures buf[i..i + 4] == "\r\n\r\n" <==> BlankLineAt(buf, i)
  {
    var four := buf[i..i + 4];
    assert four == [buf[i], buf[i + 1], buf[i + 2], buf[i + 3]];
    assert BlankLineAt(buf, i) ==> four == ['\r', '\n', '\r', '\n'];
    assert four[0] == buf[i] && four[1] == buf[i + 1] && four[2] == buf[i + 2] && four[3] == buf[i + 3];
  }

  lemma BlankLineIsInside(buf: bytes, i: nat)
    requires BlankLineAt(buf, i)
    ensures i + 4 <= |buf|
  {
  }

  class HttpResponse {
    const msg: HttpMsg
    var version: bytes
    var status: Reading
    var statusWord: bytes

    function View(): M.Response
      reads this, msg
    {
      M.Response(msg.View(), version, status, statusWord)
    }

    constructor ()
      ensures View() == M.NEW_RESPONSE && fresh(msg)
    {
      msg := new HttpMsg();
      version, status, statusWord := "HTTP/1.1", Value(200), "OK";
    }

    method TryDecode(buf: bytes) returns (result: Result)
      modifies this, msg
      ensures (View(), result) == M.TryDecodeResponse(old(View()), buf)
    {
      hide Http.TryDecode, EatWord, Trim, AtoiIn, M.FromStatus;
      var line1;
      result, line1 := msg.TryDecode(buf);
      if |line1| > 0 {
        var rest, word;
        version, rest := EatWordFrom(line1);
        word, rest := EatWordFrom(rest);
        status := AtoiIn(M.FromStatus(buf, line1));
        statusWord := TrimSpace(rest);
      }
    }

    method AppendHeaders(fields: seq<Field>, buf: Buffer)
      requires buf.Valid()
      modifies buf.Repr()
      ensures buf.Valid() && fresh(buf.Repr() - old(buf.Repr()))
      ensures buf.Contents() == old(buf.Contents()) + HeaderText(fields)
    {
      hide HeaderText, HeaderLine;
      HeaderTextEmpty(fields);
      var i := 0;
      while i < |fields|
        invariant 0 <= i <= |fields|
        invariant buf.Valid() && fresh(buf.Repr() - old(buf.Repr()))
        invariant buf.Contents() == old(buf.Contents()) + HeaderText(fields[..i])
      {
        HeaderTextStep(fields, i);
        buf.AppendSlice(HeaderLine(fields[i]) + CRLF);
        i := i + 1;
      }
      assert fields[..|fields|] == fields;
    }

    /** Appends the message, its own fields first and in their order, and returns the number of bytes appended. */
    method Encode(fields: seq<Field>, buf: Buffer) returns (n: nat)
      requires buf.Valid() && status.Value?
      modifies buf.Repr()
      ensures buf.Valid() && fresh(buf.Repr() - old(buf.Repr()))
      ensures buf.Contents()
           == old(buf.Contents()) + M.EncodeResponse(version, status.n, statusWord, fields, msg.body)
      ensures n == |M.EncodeResponse(version, status.n, statusWord, fields, msg.body)|
    {
      hide PrintInt, Print, HeaderText, HeaderLine, AllFields, StatusLine, CString, Formatted, M.EncodeResponse;
      ghost var before := buf.Contents();
      var osz := buf.Length();
      var first := Formatted(1024, StatusLine(CString(version), status.n, CString(statusWord)) + CRLF);
      buf.AppendSlice(first);
      AppendHeaders(fields, buf);
      AppendEnd(fields, msg.body, buf, before + first);
      EncodedBehind(before, version, status.n, statusWord, fields, msg.body);
      n := buf.Length() - osz;
    }

    /** The two fields every message gets, the blank line, and the body. */
    method AppendEnd(fields: seq<Field>, body: bytes, buf: Buffer, ghost start: bytes)
      requires buf.Valid() && buf.Contents() == start + HeaderText(fields)
      modifies buf.Repr()
      ensures buf.Valid() && fresh(buf.Repr() - old(buf.Repr()))
      ensures buf.Contents() == start + HeaderText(AllFields(fields, body)) + CRLF + body
    {
      hide Print, HeaderText, HeaderLine, AllFields;
      var fixed := HeaderLine(Field("Connection", "Keep-Alive")) + CRLF
                 + (HeaderLine(Field("Content-Length", Print(|body|))) + CRLF);
      FixedLines(fields, body);
      assert start + HeaderText(fields) + fixed == start + (HeaderText(fields) + fixed);
      buf.AppendSlice(fixed);
      assert start + HeaderText(AllFields(fields, body)) + (CRLF + body)
          == start + HeaderText(AllFields(fields, body)) + CRLF + body;
      buf.AppendSlice(CRLF + body);
    }

    /** Drops the decoded message from the input and starts afresh. */
    method ClearData(input: Buffer)
      requires input.Valid() && msg.scanned <= input.e - input.b
      requires msg !in input.Repr() && this !in input.Repr()
      modifies input.Repr(), this, msg
      ensures input.Valid() && input.Repr() <= old(input.Repr())
      ensures input.Contents() == old(input.Contents())[old(msg.scanned)..]
      ensures View() == M.NEW_RESPONSE
    {
      input.Consume(msg.scanned);
      msg.Clear();
      version, status, statusWord := "HTTP/1.1", Value(200), "OK";
    }
  }

  lemma {:induction false} HeaderTextConcat(a: seq<Field>, b: seq<Field>)
    ensures HeaderText(a + b) == HeaderText(a) + HeaderText(b)
    decreases |a|
  {
    if a == [] {
      assert a + b == b;
    } else {
      assert (a + b)[1..] == a[1..] + b;
      HeaderTextConcat(a[1..], b);
    }
  }

  lemma HeaderTextStep(all: seq<Field>, i: nat)
    requires i < |all|
    ensures HeaderText(all[..i + 1]) == HeaderText(all[..i]) + (HeaderLine(all[i]) + CRLF)
  {
    assert all[..i + 1] == all[..i] + [all[i]];
    HeaderTextConcat(all[..i], [all[i]]);
    assert [all[i]][1..] == [];
  }

  lemma HeaderTextEmpty(fields: seq<Field>)
    ensures HeaderText(fields[..0]) == []
  {
  }

  lemma EncodedBehind(before: bytes, version: bytes, status: int, word: bytes, fields: seq<Field>, body: bytes)
    ensures before + Formatted(1024, StatusLine(CString(version), status, CString(word)) + CRLF)
              + HeaderText(AllFields(fields, body)) + CRLF + body
         == before + M.EncodeResponse(version, status, word, fields, body)
  {
    hide HeaderText, AllFields, StatusLine, CString, Formatted;
    var first := Formatted(1024, StatusLine(CString(version), status, CString(word)) + CRLF);
    var text := HeaderText(AllFields(fields, body));
    assert before + first + text + CRLF + body == before + (first + text + CRLF + body);
  }

  lemma FixedLines(fields: seq<Field>, body: bytes)
    ensures HeaderText(AllFields(fields, body))
         == HeaderText(fields) + (HeaderLine(Field("Connection", "Keep-Alive")) + CRLF
                                  + (HeaderLine(Field("Content-Length", Print(|body|))) + CRLF))
  {
    hide Print;
    var f, g := Field("Connection", "Keep-Alive"), Field("Content-Length", Print(|body|));
    HeaderTextConcat(fields, [f, g]);
    HeaderTextStep([f, g], 0);
    HeaderTextStep([f, g], 1);
    assert [f, g][..0] == [] && [f, g][..2] == [f, g] && HeaderText([]) == [];
  }

  /**
   * A response read from the front of an input buffer, as a client sees it: what was sent comes out, and clearing it
   * leaves in the buffer exactly what was pipelined behind it.
   */
  method ReadResponse(resp: HttpResponse, input: Buffer, ghost version: bytes, ghost status: int, ghost word: bytes,
                      ghost fields: seq<Field>, ghost body: bytes, ghost behind: bytes) returns (got: M.Response)
    requires input.Valid() && resp.msg !in input.Repr() && resp !in input.Repr() && resp.View() == M.NEW_RESPONSE
    requires Solid(version) && version != [] && OneLine(word) && Trimmed(word) && M.ResponseFits(version, status, word)
    requires AllPlain(fields) && |body| <= MAX_INT
    requires input.Contents() == M.EncodeResponse(version, status, word, fields, body) + behind
    modifies resp, resp.msg, input.Repr()
    ensures input.Valid() && input.Contents() == behind && resp.View() == M.NEW_RESPONSE
    ensures got.version == version && got.status == Value(status) && got.word == word
    ensures got.msg.headers == M.Received(fields, body) && got.msg.body == body
  {
    hide M.EncodeResponse, M.TryDecodeResponse, M.ResponseFits, Solid, OneLine, Trimmed, AllPlain;
    M.ResponseRoundTrip(version, status, word, fields, body, behind);
    var result := resp.TryDecode(input.Data());
    got := resp.View();
    resp.ClearData(input);
  }
}
