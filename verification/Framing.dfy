/** The message loop over the input buffer, and when the messages it delivers do not depend on how bytes arrive. */
module Framing {
  import opened Bytes
  import opened ByteOrder
  import opened Codecs

  /** Waiting for bytes; closed on malformed input; or past a slice no caller may use. */
  datatype Status = Waiting | Broken | Undefined

  /** Messages delivered so far and the bytes of the stream no message has taken yet. */
  datatype Input = Input(msgs: seq<bytes>, rest: bytes, status: Status)

  /** The loop that onMsg installs, run over the bytes in the buffer, when its message callbacks return quietly. */
  function Pump(c: Codec, data: bytes): Input
    decreases |data|
  {
    match Decode(c, data)
    case More => Input([], data, Waiting)
    case Bad => Input([], data, Broken)
    case Wild(_) => Input([], data, Undefined)
    case Frame(n, m) => Prepend([m], Pump(c, data[n..]))
  }

  function Prepend(ms: seq<bytes>, i: Input): Input { i.(msgs := ms + i.msgs) }

  /** One read event: the new bytes go behind what is left, and the loop runs unless the connection is closed. */
  function Feed(c: Codec, st: Input, chunk: bytes): Input {
    if st.status == Waiting then Prepend(st.msgs, Pump(c, st.rest + chunk)) else st.(rest := st.rest + chunk)
  }

  function FeedAll(c: Codec, st: Input, chunks: seq<bytes>): Input
    decreases |chunks|
  {
    if chunks == [] then st else FeedAll(c, Feed(c, st, chunks[0]), chunks[1..])
  }

  const NOTHING := Input([], [], Waiting)

  function Concat(chunks: seq<bytes>): bytes
    decreases |chunks|
  {
    if chunks == [] then [] else chunks[0] + Concat(chunks[1..])
  }

  // ----- When the split of the stream does not matter -----

  /** No message boundary of the stream is followed by an EOT byte that is not the stream's last byte. */
  predicate EotSafe(c: Codec, s: bytes)
    decreases |s|
  {
    c == Length ||
    (!(|s| > 1 && s[0] == EOT) && (Decode(c, s).Frame? ==> EotSafe(c, s[Decode(c, s).size..])))
  }

  /** The loop stops where no message can be decoded, and its status says why. */
  lemma {:induction false} PumpRest(c: Codec, data: bytes)
    ensures
      var p := Pump(c, data);
      var o := Decode(c, p.rest);
      !o.Frame? && (p.status == Waiting <==> o == More) && (p.status == Broken <==> o == Bad)
      && (p.status == Undefined <==> o.Wild?)
    decreases |data|
  {
    if Decode(c, data).Frame? { PumpRest(c, data[Decode(c, data).size..]); }
  }

  lemma PumpFrame(c: Codec, data: bytes)
    requires Decode(c, data).Frame?
    ensures var o := Decode(c, data); Pump(c, data) == Prepend([o.msg], Pump(c, data[o.size..]))
  {
  }

  lemma PumpStop(c: Codec, data: bytes)
    requires !Decode(c, data).Frame?
    ensures Pump(c, data).msgs == [] && Pump(c, data).rest == data
    ensures Pump(c, data).status ==
      match Decode(c, data)
      case Bad => Broken
      case Wild(_) => Undefined
      case _ => Waiting
  {
  }

  lemma FeedPrepends(c: Codec, m: bytes, st: Input, b: bytes)
    ensures Feed(c, Prepend([m], st), b) == Prepend([m], Feed(c, st, b))
  {
    var p := Pump(c, st.rest + b);
    assert [m] + (st.msgs + p.msgs) == [m] + st.msgs + p.msgs;
  }

  /** Reading more after the loop has stopped gives what one read of everything would have given. */
  lemma {:induction false} PumpContinues(c: Codec, a: bytes, b: bytes)
    requires EotSafe(c, a + b)
    ensures Feed(c, Pump(c, a), b) == Pump(c, a + b)
    decreases |a|
  {
    hide Pump, Decode;
    var o := Decode(c, a);
    if o.Frame? {
      if LoneEot(a) && b == [] {
        assert a + b == a;
      } else {
        assert !LoneEot(a) by {
          if LoneEot(a) {
            LoneEotIsText(c, a);
            LoneEotUnsafe(c, a, b);
          }
        }
        DecodeExtends(c, a, b);
      }
      assert (a + b)[o.size..] == a[o.size..] + b;
      PumpFrame(c, a);
      PumpFrame(c, a + b);
      PumpContinues(c, a[o.size..], b);
      FeedPrepends(c, o.msg, Pump(c, a[o.size..]), b);
    } else {
      PumpStop(c, a);
      if o == More {
        assert [] + Pump(c, a + b).msgs == Pump(c, a + b).msgs;
      } else {
        assert !LoneEot(a) by { if LoneEot(a) { LoneEotIsText(c, a); } }
        DecodeExtends(c, a, b);
        PumpStop(c, a + b);
      }
    }
  }

  lemma LoneEotUnsafe(c: Codec, a: bytes, b: bytes)
    requires c != Length && LoneEot(a) && b != []
    ensures !EotSafe(c, a + b)
  {
    assert (a + b)[0] == EOT && |a + b| > 1;
  }

  lemma LoneEotIsText(c: Codec, a: bytes)
    requires LoneEot(a)
    ensures Decode(c, a) == if c == Length then More else Frame(1, a)
  {
  }

  lemma {:induction false} EotSafePrefix(c: Codec, a: bytes, b: bytes)
    requires EotSafe(c, a + b)
    ensures EotSafe(c, a)
    decreases |a|
  {
    if c != Length && Decode(c, a).Frame? {
      var n := Decode(c, a).size;
      assert (a + b)[n..] == a[n..] + b;
      if LoneEot(a) {
        if b != [] { LoneEotUnsafe(c, a, b); }
        assert a + b == a;
      } else {
        DecodeExtends(c, a, b);
        EotSafePrefix(c, a[n..], b);
      }
    }
  }

  lemma {:induction false} SplitsAgree(c: Codec, a: bytes, chunks: seq<bytes>)
    requires EotSafe(c, a + Concat(chunks))
    ensures FeedAll(c, Pump(c, a), chunks) == Pump(c, a + Concat(chunks))
    decreases |chunks|
  {
    if chunks == [] {
      assert a + Concat(chunks) == a;
    } else {
      assert a + Concat(chunks) == a + chunks[0] + Concat(chunks[1..]);
      EotSafePrefix(c, a + chunks[0], Concat(chunks[1..]));
      PumpContinues(c, a, chunks[0]);
      SplitsAgree(c, a + chunks[0], chunks[1..]);
    }
  }

  lemma DecodeNothing(c: Codec)
    ensures Decode(c, []) == More
  {
  }

  lemma PumpNothing(c: Codec)
    ensures Pump(c, []) == NOTHING
  {
  }

  /** A place to cut an unsafe stream so that the two halves deliver more messages than the whole. */
  lemma {:induction false} UnsafeCut(c: Codec, s: bytes) returns (k: nat)
    requires !EotSafe(c, s)
    ensures 0 < k < |s|
    ensures |FeedAll(c, NOTHING, [s[..k], s[k..]]).msgs| > |Pump(c, s).msgs|
    decreases |s|
  {
    if |s| > 1 && s[0] == EOT {
      k := 1;
      CutAfterEot(c, s);
    } else {
      var n := Decode(c, s).size;
      var j := UnsafeCut(c, s[n..]);
      k := n + j;
      DecodeShortens(c, s, k);
      assert s[..k][n..] == s[n..][..j] && s[n..][j..] == s[k..];
      TwoChunks(c, s[n..][..j], s[k..]);
    }
    TwoChunks(c, s[..k], s[k..]);
  }

  lemma TwoChunks(c: Codec, a: bytes, b: bytes)
    ensures FeedAll(c, NOTHING, [a, b]) == Feed(c, Pump(c, a), b)
  {
    assert [] + a == a && [] + Pump(c, a).msgs == Pump(c, a).msgs;
    assert FeedAll(c, Feed(c, NOTHING, a), [b]) == Feed(c, Feed(c, NOTHING, a), b);
  }

  lemma PumpLoneEot(c: Codec)
    requires c != Length
    ensures Pump(c, [EOT]) == Input([[EOT]], [], Waiting)
  {
    assert [EOT][1..] == [];
    LoneEotIsText(c, [EOT]);
    PumpFrame(c, [EOT]);
    PumpNothing(c);
  }

  lemma CutAfterEot(c: Codec, s: bytes)
    requires c != Length && |s| > 1 && s[0] == EOT
    ensures |Feed(c, Pump(c, s[..1]), s[1..]).msgs| > |Pump(c, s).msgs|
  {
    var u := s[1..];
    assert s[..1] == [EOT] && [] + u == u;
    PumpLoneEot(c);
    hide Pump, Decode;
    if c == Line && Find(s, '\n') < |s| {
      LineAfterEot(s);
      PumpFrame(c, s);
      PumpFrame(c, u);
      assert s[Decode(c, s).size..] == u[Decode(c, u).size..];
    } else {
      NoFrameAfterEot(c, s);
      PumpStop(c, s);
    }
  }

  /** With the EOT byte in front or without it, the first line ends at the same break. */
  lemma LineAfterEot(s: bytes)
    requires |s| > 1 && s[0] == EOT && Find(s, '\n') < |s|
    ensures Decode(Line, s).Frame? && Decode(Line, s[1..]).Frame?
    ensures Decode(Line, s).size == Decode(Line, s[1..]).size + 1
  {
    var i := Find(s, '\n');
    assert forall k | 0 <= k < i :: s[1..][k] == s[k + 1];
    FindUnique(s[1..], '\n', i - 1);
  }

  lemma NoFrameAfterEot(c: Codec, s: bytes)
    requires c != Length && |s| > 1 && s[0] == EOT && (c == Line ==> Find(s, '\n') == |s|)
    ensures Decode(c, s) == More
  {
  }

  /**
   * Chunking independence, exactly: the messages, the bytes left and the status are the same for every way of
   * cutting the stream if and only if no message boundary has an EOT byte with more bytes behind it.
   */
  lemma SplitsAgreeExactly(c: Codec, s: bytes)
    ensures (forall chunks | Concat(chunks) == s :: FeedAll(c, NOTHING, chunks) == Pump(c, s)) <==> EotSafe(c, s)
  {
    hide Pump;
    if EotSafe(c, s) {
      PumpNothing(c);
      forall chunks | Concat(chunks) == s ensures FeedAll(c, NOTHING, chunks) == Pump(c, s) {
        assert [] + s == s;
        SplitsAgree(c, [], chunks);
      }
    } else {
      var k := UnsafeCut(c, s);
      ConcatTwo(s[..k], s[k..]);
      assert s[..k] + s[k..] == s;
    }
  }

  lemma ConcatTwo(a: bytes, b: bytes)
    ensures Concat([a, b]) == a + b
  {
    assert [a, b][1..] == [b] && [b][1..] == [];
    assert Concat([b]) == b + Concat([]) == b;
  }

  // ----- Encoded messages -----

  function EncodeAll(c: Codec, ms: seq<bytes>): bytes
    decreases |ms|
  {
    if ms == [] then [] else Encode(c, ms[0]) + EncodeAll(c, ms[1..])
  }

  /** The messages a codec carries; `last` says that nothing is sent after this one. */
  predicate Carried(c: Codec, m: bytes, last: bool) {
    match c
    case Line => '\n' !in m && (m != [] ==> m[0] != EOT)
    case Bracket => '}' !in m && (last ==> m != [])
    case Length => |m| <= MAX_LENGTH
  }

  predicate AllCarried(c: Codec, ms: seq<bytes>) {
    forall i | 0 <= i < |ms| :: Carried(c, ms[i], i == |ms| - 1)
  }

  lemma DecodeEncodedLine(m: bytes, tail: bytes)
    requires Carried(Line, m, tail == [])
    ensures Decode(Line, Encode(Line, m) + tail) == Frame(|m| + 2, m)
  {
    var data := Encode(Line, m) + tail;
    assert forall k | 0 <= k < |m| :: data[k] == m[k];
    assert data[|m|] == '\r' && data[|m| + 1] == '\n' && data[..|m|] == m;
    FindUnique(data, '\n', |m| + 1);
  }

  lemma DecodeEncodedBracket(m: bytes, tail: bytes)
    requires Carried(Bracket, m, tail == [])
    ensures Decode(Bracket, Encode(Bracket, m) + tail) == Frame(|m| + 2, m)
  {
    var data := Encode(Bracket, m) + tail;
    assert data[0] == '{' && data[|m| + 1] == '}' && data[1..|m| + 1] == m;
    assert forall k | 0 < k < |m| + 1 :: data[k] == m[k - 1];
    FindUnique(data, '}', |m| + 1);
  }

  lemma DecodeEncodedLength(m: bytes, tail: bytes)
    requires |m| <= MAX_LENGTH
    ensures Decode(Length, Encode(Length, m) + tail) == Frame(|m| + 8, m)
  {
    LengthFieldOf(m, tail);
    var data := Encode(Length, m) + tail;
    hide Store32, Htobe32, LengthField;
    assert data[8..8 + |m|] == m;
  }

  lemma DecodeEncoded(c: Codec, m: bytes, tail: bytes)
    requires Carried(c, m, tail == [])
    ensures Decode(c, Encode(c, m) + tail) == Frame(|Encode(c, m)|, m)
  {
    hide Decode;
    match c {
      case Line => DecodeEncodedLine(m, tail);
      case Bracket => DecodeEncodedBracket(m, tail);
      case Length => DecodeEncodedLength(m, tail);
    }
  }

  lemma LengthFieldOf(m: bytes, tail: bytes)
    ensures var data := Encode(Length, m) + tail;
      |data| >= 8 && data[..4] == MAGIC && LengthField(data) == Signed(Unsigned(|m|))
  {
    var v := Htobe32(Unsigned(|m|));
    assert (Encode(Length, m) + tail)[4..8] == Store32(v);
    LoadStore(v);
    HtobeIsItsOwnInverse(Unsigned(|m|));
  }

  lemma CarriedTail(c: Codec, ms: seq<bytes>)
    requires AllCarried(c, ms) && ms != []
    ensures AllCarried(c, ms[1..]) && Carried(c, ms[0], EncodeAll(c, ms[1..]) == [])
  {
    assert forall i | 0 <= i < |ms[1..]| :: ms[1..][i] == ms[i + 1];
    if |ms| > 1 { assert |Encode(c, ms[1..][0])| > 0; }
    assert Carried(c, ms[0], |ms| == 1);
  }

  lemma {:induction false} PumpEncoded(c: Codec, ms: seq<bytes>)
    requires AllCarried(c, ms)
    ensures Pump(c, EncodeAll(c, ms)) == Input(ms, [], Waiting) && EotSafe(c, EncodeAll(c, ms))
    decreases |ms|
  {
    hide Pump, Decode, Encode, AllCarried, Carried;
    if ms == [] {
      DecodeNothing(c);
      PumpStop(c, []);
    } else {
      var s, tail := EncodeAll(c, ms), EncodeAll(c, ms[1..]);
      CarriedTail(c, ms);
      PumpEncoded(c, ms[1..]);
      DecodeEncoded(c, ms[0], tail);
      EncodedStart(c, ms[0], tail);
      assert s[|Encode(c, ms[0])|..] == tail;
      PumpFrame(c, s);
      assert [ms[0]] + ms[1..] == ms;
    }
  }

  /** An encoding that the codec does not carry does not come back as the first message of any stream it starts. */
  lemma DecodeNotCarried(c: Codec, m: bytes, tail: bytes)
    requires !Carried(c, m, tail == []) && (c == Line ==> '\n' in m)
    ensures var o := Decode(c, Encode(c, m) + tail); o.Frame? ==> o.msg != m
  {
    match c {
      case Line => LineNotCarried(m, tail);
      case Bracket => BracketNotCarried(m, tail);
      case Length => LengthFieldOf(m, tail);
    }
  }

  /** A line break inside the message ends it early. */
  lemma LineNotCarried(m: bytes, tail: bytes)
    requires '\n' in m
    ensures var o := Decode(Line, Encode(Line, m) + tail); o.Frame? && |o.msg| < |m|
  {
    var data := Encode(Line, m) + tail;
    var i := Find(m, '\n');
    assert i < |m| by { assert exists k :: 0 <= k < |m| && m[k] == '\n'; }
    assert data[..i + 1] == m[..i + 1];
    assert forall k | 0 <= k <= i :: data[k] == m[k];
    FindUnique(data, '\n', i);
  }

  /** So does a closing bracket; and an empty last message is never looked at. */
  lemma BracketNotCarried(m: bytes, tail: bytes)
    requires '}' in m || (m == [] && tail == [])
    ensures var o := Decode(Bracket, Encode(Bracket, m) + tail); o.Frame? ==> |o.msg| < |m|
  {
    var data := Encode(Bracket, m) + tail;
    if '}' in m {
      var i := Find(m, '}');
      assert i < |m| by { assert exists k :: 0 <= k < |m| && m[k] == '}'; }
      hide Find;
      assert data[0] == '{' && data[i + 1] == m[i];
      forall k | 0 <= k < i + 1 ensures data[k] != '}' {
        if k > 0 { assert data[k] == m[k - 1]; }
      }
      FindUnique(data, '}', i + 1);
      assert |data[1..i + 1]| == i;
    }
  }

  lemma {:induction false} PumpNotCarried(c: Codec, ms: seq<bytes>)
    requires !AllCarried(c, ms)
    ensures Pump(c, EncodeAll(c, ms)) != Input(ms, [], Waiting) || !EotSafe(c, EncodeAll(c, ms))
    decreases |ms|
  {
    var m, tail := ms[0], EncodeAll(c, ms[1..]);
    assert tail == [] <==> |ms| == 1 by { if |ms| > 1 { assert |Encode(c, ms[1])| > 0; } }
    var data := Encode(c, m) + tail;
    assert data == EncodeAll(c, ms);
    if Carried(c, m, tail == []) {
      assert !AllCarried(c, ms[1..]) by {
        if AllCarried(c, ms[1..]) {
          forall i | 0 <= i < |ms| ensures Carried(c, ms[i], i == |ms| - 1) {
            if i > 0 { assert Carried(c, ms[1..][i - 1], i - 1 == |ms[1..]| - 1); }
          }
        }
      }
      PumpNotCarried(c, ms[1..]);
      DecodeEncoded(c, m, tail);
      assert data[|Encode(c, m)|..] == tail;
      var p := Pump(c, tail);
      if Prepend([m], p) == Input(ms, [], Waiting) {
        assert p.msgs == ([m] + p.msgs)[1..] == ms[1..];
      }
    } else if c == Line && '\n' !in m {
      assert data[0] == EOT && |data| > 1;
    } else {
      DecodeNotCarried(c, m, tail);
    }
  }

  /**
   * A list of messages survives every way of cutting its encoding, with nothing left over, if and only if the codec
   * carries each of them.
   */
  lemma MessagesSurviveExactly(c: Codec, ms: seq<bytes>)
    ensures (forall chunks | Concat(chunks) == EncodeAll(c, ms) ::
               FeedAll(c, NOTHING, chunks) == Input(ms, [], Waiting))
            <==> AllCarried(c, ms)
  {
    hide Pump, FeedAll, AllCarried, EncodeAll, Concat;
    var s := EncodeAll(c, ms);
    SplitsAgreeExactly(c, s);
    if AllCarried(c, ms) {
      PumpEncoded(c, ms);
    } else {
      PumpNotCarried(c, ms);
      ConcatOne(s);
      FeedOnce(c, NOTHING, s);
      assert [] + s == s;
      assert Concat([s]) == s;
    }
  }

  lemma ConcatOne(s: bytes)
    ensures Concat([s]) == s
  {
    assert [s][1..] == [];
    assert Concat([s]) == s + Concat([]) == s;
  }

  /** At every point of a transfer the messages delivered are the first ones and the buffer holds what follows them. */
  lemma {:induction false} PartwayThrough(c: Codec, ms: seq<bytes>, a: bytes, b: bytes) returns (k: nat)
    requires AllCarried(c, ms) && a + b == EncodeAll(c, ms)
    ensures k <= |ms|
    ensures Pump(c, a).msgs == ms[..k] && Pump(c, a).status == Waiting
    ensures EncodeAll(c, ms[..k]) + Pump(c, a).rest == a
    decreases |ms|
  {
    hide Pump, Decode;
    if Decode(c, a) == More {
      PumpStop(c, a);
      assert ms[..0] == [] && EncodeAll(c, []) + a == a;
      return 0;
    }
    assert ms != [] by { if ms == [] { assert a == []; DecodeNothing(c); } }
    var m, tail := ms[0], EncodeAll(c, ms[1..]);
    assert Carried(c, m, |ms| == 1);
    assert forall i | 0 <= i < |ms[1..]| :: ms[1..][i] == ms[i + 1];
    assert tail == [] ==> |ms| == 1 by { if |ms| > 1 { assert |Encode(c, ms[1])| > 0; } }
    hide Encode;
    FirstFrame(c, m, tail, a, b);
    var j := PartwayThrough(c, ms[1..], a[|Encode(c, m)|..], b);
    k := j + 1;
    PumpFrame(c, a);
    OneFrameMore(c, ms, a, j);
  }

  lemma OneFrameMore(c: Codec, ms: seq<bytes>, a: bytes, j: nat)
    requires j < |ms| && Encode(c, ms[0]) <= a
    ensures ms[..j + 1] == [ms[0]] + ms[1..][..j]
    ensures forall rest | EncodeAll(c, ms[1..][..j]) + rest == a[|Encode(c, ms[0])|..] ::
              EncodeAll(c, ms[..j + 1]) + rest == a
  {
    hide Encode;
    var m := ms[0];
    assert ms[..j + 1][1..] == ms[1..][..j];
    assert a == Encode(c, m) + a[|Encode(c, m)|..];
    forall rest | EncodeAll(c, ms[1..][..j]) + rest == a[|Encode(c, m)|..]
      ensures EncodeAll(c, ms[..j + 1]) + rest == a
    {
      assert Encode(c, m) + EncodeAll(c, ms[1..][..j]) + rest == Encode(c, m) + (EncodeAll(c, ms[1..][..j]) + rest);
    }
  }

  lemma EncodedStart(c: Codec, m: bytes, tail: bytes)
    requires c != Length ==> Carried(c, m, tail == [])
    ensures |Encode(c, m)| > 0 && (c != Length ==> (Encode(c, m) + tail)[0] != EOT)
  {
  }

  lemma FirstFrame(c: Codec, m: bytes, tail: bytes, a: bytes, b: bytes)
    requires Carried(c, m, tail == []) && a + b == Encode(c, m) + tail && Decode(c, a) != More
    ensures Decode(c, a) == Frame(|Encode(c, m)|, m)
    ensures |Encode(c, m)| <= |a| && a[..|Encode(c, m)|] == Encode(c, m) && a[|Encode(c, m)|..] + b == tail
  {
    DecodeEncoded(c, m, tail);
    EncodedStart(c, m, tail);
    assert a != [] ==> (a + b)[0] == a[0];
    assert !LoneEot(a) by { if c == Length && LoneEot(a) { LoneEotIsText(c, a); } }
    hide Decode;
    DecodeExtends(c, a, b);
    var n := |Encode(c, m)|;
    assert a[..n] == (a + b)[..n] == Encode(c, m);
    assert a[n..] + b == (a + b)[n..] == tail;
  }

  // ----- A partial message left by an earlier connection -----

  /** The bytes a list of length-prefixed messages takes. */
  function FrameBytes(ms: seq<bytes>): nat
    decreases |ms|
  {
    if ms == [] then 0 else |ms[0]| + 8 + FrameBytes(ms[1..])
  }

  lemma {:induction false} LengthPumpCounts(data: bytes)
    ensures FrameBytes(Pump(Length, data).msgs) + |Pump(Length, data).rest| == |data|
    decreases |data|
  {
    hide LengthField;
    var o := Decode(Length, data);
    if o.Frame? {
      assert |o.msg| + 8 == o.size;
      var p := Pump(Length, data[o.size..]);
      LengthPumpCounts(data[o.size..]);
      PumpFrame(Length, data);
      assert ([o.msg] + p.msgs)[1..] == p.msgs;
    } else {
      PumpStop(Length, data);
    }
  }

  lemma {:induction false} EncodedCounts(ms: seq<bytes>)
    ensures |EncodeAll(Length, ms)| == FrameBytes(ms)
    decreases |ms|
  {
    hide Store32, Htobe32;
    if ms != [] { EncodedCounts(ms[1..]); }
  }

  /** A partial line makes the next message longer than what was sent. */
  lemma LineCarriesOver(rest: bytes, m: bytes, tail: bytes)
    requires Decode(Line, rest) == More && rest != [] && '\n' !in m
    ensures var o := Decode(Line, rest + (Encode(Line, m) + tail)); o.Frame? && o.msg != m
  {
    var data := rest + (Encode(Line, m) + tail);
    var i := |rest| + |m| + 1;
    assert forall k | 0 <= k < |rest| :: data[k] == rest[k];
    assert forall k | 0 <= k < |m| :: data[|rest| + k] == m[k];
    assert data[i] == '\n' && data[i - 1] == '\r';
    forall k | 0 <= k < i ensures data[k] != '\n' {
      if |rest| <= k < |rest| + |m| { assert data[k] == m[k - |rest|]; }
    }
    FindUnique(data, '\n', i);
    assert |data[..i - 1]| > |m|;
  }

  /** What a bracketed stream makes of a partial message: nothing, an empty message, or a longer one. */
  lemma BracketCarriesOver(rest: bytes, m: bytes, tail: bytes)
    requires Decode(Bracket, rest) == More && rest != [] && '}' !in m
    ensures
      var o := Decode(Bracket, rest + (Encode(Bracket, m) + tail));
      o == More || (rest == "{}" && o == Frame(2, [])) || (o.Frame? && o.msg != m)
  {
    var data := rest + (Encode(Bracket, m) + tail);
    assert data[0] == rest[0];
    if rest[0] == '{' {
      var j := Find(rest, '}');
      assert forall k | 0 <= k < |rest| :: data[k] == rest[k];
      if j < |rest| {
        assert |rest| == 2;
        FindUnique(data, '}', 1);
        assert rest == "{}" && data[1..1] == [];
      } else {
        var i := |rest| + 1 + |m|;
        assert forall k | 0 <= k < |m| :: data[|rest| + 1 + k] == m[k];
        assert data[|rest|] == '{' && data[i] == '}';
        forall k | 0 <= k < i ensures data[k] != '}' {
          if |rest| + 1 <= k { assert data[k] == m[k - |rest| - 1]; }
        }
        FindUnique(data, '}', i);
        assert |data[1..i]| > |m|;
      }
    }
  }

  lemma CarriesOver(c: Codec, rest: bytes, ms: seq<bytes>)
    requires Decode(c, rest) == More && AllCarried(c, ms) && rest != []
    ensures Pump(c, rest + EncodeAll(c, ms)) != Input(ms, [], Waiting)
  {
    var e := EncodeAll(c, ms);
    var data := rest + e;
    hide Pump, Decode, Encode;
    if c == Length {
      LengthPumpCounts(data);
      EncodedCounts(ms);
      assert FrameBytes(Pump(c, data).msgs) + |Pump(c, data).rest| != FrameBytes(ms);
    } else if ms == [] {
      assert data == rest;
      PumpStop(c, rest);
    } else {
      var m, tail := ms[0], EncodeAll(c, ms[1..]);
      assert Carried(c, m, |ms| == 1);
      if c == Line { LineCarriesOver(rest, m, tail); } else { BracketCarriesOver(rest, m, tail); }
      var o := Decode(c, data);
      if o.Frame? {
        PumpFrame(c, data);
        if o == Frame(2, []) && rest == "{}" {
          assert data[2..] == e;
          PumpEncoded(c, ms);
        }
      } else {
        PumpStop(c, data);
      }
    }
  }

  /**
   * The buffer outlives a connection, so the bytes of a partial message are put in front of what the next connection
   * receives; its messages come through as they were sent, however they are cut, if and only if there are none.
   */
  lemma CarriedOverExactly(c: Codec, rest: bytes, ms: seq<bytes>)
    requires Decode(c, rest) == More && AllCarried(c, ms)
    ensures (forall chunks | Concat(chunks) == EncodeAll(c, ms) ::
               FeedAll(c, Input([], rest, Waiting), chunks) == Input(ms, [], Waiting))
            <==> rest == []
  {
    hide Pump, FeedAll, AllCarried, EncodeAll, Concat, Decode;
    if rest == [] {
      MessagesSurviveExactly(c, ms);
    } else {
      var s := EncodeAll(c, ms);
      CarriesOver(c, rest, ms);
      ConcatOne(s);
      FeedOnce(c, Input([], rest, Waiting), s);
      assert Concat([s]) == s;
    }
  }

  /** A malformed message that stays in the buffer makes every later connection's input malformed at once. */
  lemma MalformedCarriesOver(c: Codec, rest: bytes, s: bytes)
    requires Decode(c, rest) == Bad
    ensures Pump(c, rest + s) == Input([], rest + s, Broken)
  {
    assert !LoneEot(rest) by { if LoneEot(rest) { LoneEotIsText(c, rest); } }
    DecodeExtends(c, rest, s);
    PumpStop(c, rest + s);
  }

  lemma FeedOnce(c: Codec, st: Input, s: bytes)
    requires st.msgs == [] && st.status == Waiting
    ensures FeedAll(c, st, [s]) == Pump(c, st.rest + s)
  {
    assert [s][1..] == [];
    var f := Feed(c, st, s);
    assert FeedAll(c, st, [s]) == FeedAll(c, f, [s][1..]) == f;
    assert [] + Pump(c, st.rest + s).msgs == Pump(c, st.rest + s).msgs;
  }
}
