/** Length-prefixed frames of named, serialised messages; the serialiser itself is a parameter. */
module ProtoMsg {
  import opened Bytes
  import opened ByteOrder
  import opened Buffers

  /** The registered message types and what parsing a payload of one of them gives. */
  datatype Registry<!M> = Registry(names: set<bytes>, parse: (bytes, bytes) -> Parse<M>)

  datatype Parse<M> = Parsed(msg: M) | Unparsable

  /** `OutOfFrame` stands for lengths that make the program read outside the bytes it was given. */
  datatype Result<M> = TooSmall | BadFormat | OutOfFrame | UnknownType | BadPayload | Decoded(msg: M, size: nat)

  function Frame(name: bytes, payload: bytes): bytes {
    Store32(Unsigned(8 + |name| + |payload|)) + Store32(Unsigned(|name|)) + name + payload
  }

  /** `decode`, with the 32-bit sum of its length test. */
  function Decode<M>(reg: Registry<M>, s: bytes): Result<M> {
    if |s| < 8 then TooSmall
    else
      var msglen, namelen := Load32(s[..4]) as int, Load32(s[4..8]) as int;
      if |s| < msglen || |s| < Unsigned(4 + namelen) then BadFormat
      else if |s| < 8 + namelen then OutOfFrame
      else if s[8..8 + namelen] !in reg.names then UnknownType
      else if msglen < 8 + namelen then OutOfFrame
      else
        match reg.parse(s[8..8 + namelen], s[8 + namelen..msglen])
        case Parsed(m) => Decoded(m, msglen)
        case Unparsable => BadPayload
  }

  /** `msgComplete`. */
  predicate IsComplete(s: bytes) { |s| >= 4 && |s| >= Load32(s[..4]) }

  lemma FrameFields(name: bytes, payload: bytes, tail: bytes)
    ensures
      var f := Frame(name, payload);
      var s := f + tail;
      && |f| == 8 + |name| + |payload|
      && Load32(s[..4]) == Unsigned(|f|) && Load32(s[4..8]) == Unsigned(|name|)
      && s[8..8 + |name|] == name && s[8 + |name|..|f|] == payload
  {
    hide Store32, Load32;
    var a, b := Store32(Unsigned(8 + |name| + |payload|)), Store32(Unsigned(|name|));
    var s := Frame(name, payload) + tail;
    assert s[..4] == a && s[4..8] == b;
    LoadStore(Unsigned(8 + |name| + |payload|));
    LoadStore(Unsigned(|name|));
  }

  /**
   * A frame comes back as its message, taking exactly its own bytes and leaving whatever follows it alone, exactly
   * when its length fits the 32-bit field.
   */
  lemma FrameRoundTripExactly<M>(reg: Registry<M>, name: bytes, payload: bytes, m: M, tail: bytes)
    requires name in reg.names && reg.parse(name, payload) == Parsed(m)
    ensures Decode(reg, Frame(name, payload) + tail) == Decoded(m, |Frame(name, payload)|)
            <==> |Frame(name, payload)| < TWO32
  {
    FrameFields(name, payload, tail);
    hide Store32, Load32, Frame;
  }

  /** Four bytes as the number they spell, least significant first. */
  function Little(a: byte, b: byte, c: byte, d: byte): nat {
    a as int + 0x100 * b as int + 0x1_0000 * c as int + 0x100_0000 * d as int
  }

  /** A frame, byte for byte: its length and its name's, the name, and the payload. */
  lemma FrameOnTheWire(name: bytes, payload: bytes)
    requires |Frame(name, payload)| < TWO32
    ensures
      var f := Frame(name, payload);
      && |f| == 8 + |name| + |payload|
      && Little(f[0], f[1], f[2], f[3]) == |f| && Little(f[4], f[5], f[6], f[7]) == |name|
      && f[8..8 + |name|] == name && f[8 + |name|..] == payload
  {
    var f := Frame(name, payload);
    FrameFields(name, payload, []);
    hide Frame;
    assert f + [] == f;
    assert f[..4] == [f[0], f[1], f[2], f[3]] && f[4..8] == [f[4], f[5], f[6], f[7]];
    hide Store32;
  }

  /**
   * The first `n` bytes of a frame and what follows it: too few for a header, too few for the frame, a name nobody has
   * registered, a payload that cannot be parsed, or the message, and nothing else.
   */
  lemma FrameIsReadExactly<M>(reg: Registry<M>, name: bytes, payload: bytes, tail: bytes, n: nat)
    requires |Frame(name, payload)| < TWO32 && n <= |Frame(name, payload) + tail|
    ensures Decode(reg, (Frame(name, payload) + tail)[..n]) ==
      if n < 8 then TooSmall
      else if n < |Frame(name, payload)| then BadFormat
      else if name !in reg.names then UnknownType
      else
        match reg.parse(name, payload)
        case Parsed(m) => Decoded(m, |Frame(name, payload)|)
        case Unparsable => BadPayload
  {
    FrameFields(name, payload, tail);
    hide Store32, Load32, Frame;
    var s := Frame(name, payload) + tail;
    var p := s[..n];
    if n >= 8 {
      assert p[..4] == s[..4] && p[4..8] == s[4..8];
      if n >= |Frame(name, payload)| {
        assert p[8..8 + |name|] == s[8..8 + |name|];
        assert p[8 + |name|..|Frame(name, payload)|] == s[8 + |name|..|Frame(name, payload)|];
      }
    }
  }

  /** A frame is complete when its last byte is there and not before. */
  lemma CompleteExactly(name: bytes, payload: bytes, tail: bytes, n: nat)
    requires |Frame(name, payload)| < TWO32 && 4 <= n <= |Frame(name, payload) + tail|
    ensures IsComplete((Frame(name, payload) + tail)[..n]) <==> n >= |Frame(name, payload)|
  {
    FrameFields(name, payload, tail);
    hide Load32, Frame;
    var s := Frame(name, payload) + tail;
    assert s[..n][..4] == s[..4];
  }

  /** Whether `decode` goes past its tests on the lengths: with the header there, and both sums within the buffer. */
  predicate PassesTests(s: bytes) {
    |s| >= 8 && Load32(s[..4]) <= |s| && Unsigned(4 + Load32(s[4..8])) <= |s|
  }

  /** Whether the frame says it is long enough for its own header and name. */
  predicate CoversName(s: bytes)
    requires |s| >= 8
  {
    8 + Load32(s[4..8]) <= Load32(s[..4])
  }

  /**
   * The program stays inside the bytes it was given, whatever message types are registered, if and only if its tests
   * reject the buffer or the frame covers its own name: the test of 4 bytes and the name is four bytes short, and
   * nothing compares the frame's length with the name's.
   */
  lemma StaysInsideExactly<M>(s: bytes, parse: (bytes, bytes) -> Parse<M>)
    ensures (forall names :: Decode(Registry(names, parse), s) != OutOfFrame) <==> (PassesTests(s) ==> CoversName(s))
  {
    if PassesTests(s) && !CoversName(s) {
      var namelen := Load32(s[4..8]) as int;
      var names := if |s| < 8 + namelen then {} else {s[8..8 + namelen]};
      assert Decode(Registry(names, parse), s) == OutOfFrame;
    }
  }

  /** An eight-byte buffer that passes the tests although the name it announces lies behind its end. */
  lemma NameBehindTheEnd<M>(reg: Registry<M>)
    ensures Decode(reg, Store32(8) + Store32(4)) == OutOfFrame
  {
    LoadStore(8);
    LoadStore(4);
    var a, b := Store32(8), Store32(4);
    hide Store32, Load32;
    assert (a + b)[..4] == a && (a + b)[4..8] == b;
  }

  datatype Message = Message(name: bytes, payload: bytes)

  function FrameAll(ms: seq<Message>): bytes
    decreases |ms|
  {
    if ms == [] then [] else Frame(ms[0].name, ms[0].payload) + FrameAll(ms[1..])
  }

  /** The messages a reader takes from a buffer while it holds a complete one. */
  function DecodeAll<M>(reg: Registry<M>, s: bytes): seq<M>
    decreases |s|
  {
    if !IsComplete(s) then []
    else
      match Decode(reg, s)
      case Decoded(m, n) => if 0 < n <= |s| then [m] + DecodeAll(reg, s[n..]) else []
      case _ => []
  }

  predicate Readable<M>(reg: Registry<M>, m: Message) {
    && m.name in reg.names && reg.parse(m.name, m.payload).Parsed?
    && |Frame(m.name, m.payload)| < TWO32
  }

  /** A sequence of frames comes back as the sequence of messages. */
  lemma {:induction false} FramesComeBack<M>(reg: Registry<M>, ms: seq<Message>)
    requires forall m | m in ms :: Readable(reg, m)
    ensures |DecodeAll(reg, FrameAll(ms))| == |ms|
    ensures forall i | 0 <= i < |ms| :: Parsed(DecodeAll(reg, FrameAll(ms))[i]) == reg.parse(ms[i].name, ms[i].payload)
    decreases |ms|
  {
    if ms != [] {
      var m, tail := ms[0], FrameAll(ms[1..]);
      assert m in ms && Readable(reg, m);
      var f := Frame(m.name, m.payload);
      FrameRoundTripExactly(reg, m.name, m.payload, reg.parse(m.name, m.payload).msg, tail);
      CompleteExactly(m.name, m.payload, tail, |f + tail|);
      hide Decode, IsComplete, Frame;
      assert (f + tail)[..|f + tail|] == f + tail && (f + tail)[|f|..] == tail;
      FramesComeBack(reg, ms[1..]);
      DecodeOneMore(reg, f + tail, reg.parse(m.name, m.payload).msg, |f|);
    }
  }

  lemma DecodeOneMore<M>(reg: Registry<M>, s: bytes, m: M, n: nat)
    requires IsComplete(s) && Decode(reg, s) == Decoded(m, n) && 0 < n <= |s|
    ensures DecodeAll(reg, s) == [m] + DecodeAll(reg, s[n..])
  {
  }

  /**
   * Writes a frame behind what the buffer holds. The length goes in last, at the frame's place in whatever storage
   * the buffer has by then.
   */
  method Encode(name: bytes, payload: bytes, buf: Buffer)
    requires buf.Valid()
    modifies buf.Repr()
    ensures buf.Valid() && fresh(buf.Repr() - old(buf.Repr()))
    ensures buf.Contents() == old(buf.Contents()) + Frame(name, payload)
  {
    hide Store32, Frame;
    ghost var before := buf.Contents();
    var offset := buf.Length();
    var zero := Store32(0);
    buf.AppendSlice(zero);
    AppendRest(name, payload, buf);
    ghost var rest := Store32(Unsigned(|name|)) + name + payload;
    var len := Store32(Unsigned(buf.Length() - offset));
    buf.Overwrite(offset, len);
    Patched(before, zero, rest, len);
    FrameIs(before, name, payload, len);
  }

  /** The name's length, the name, and the serialised message, which goes straight into the space reserved for it. */
  method AppendRest(name: bytes, payload: bytes, buf: Buffer)
    requires buf.Valid()
    modifies buf.Repr()
    ensures buf.Valid() && fresh(buf.Repr() - old(buf.Repr()))
    ensures buf.Contents() == old(buf.Contents()) + (Store32(Unsigned(|name|)) + name + payload)
  {
    hide Store32;
    ghost var before := buf.Contents();
    var namelen := Store32(Unsigned(|name|));
    buf.AppendSlice(namelen);
    buf.AppendSlice(name);
    buf.AppendSlice(payload);
    assert before + namelen + name + payload == before + (namelen + name + payload);
  }

  lemma FrameIs(before: bytes, name: bytes, payload: bytes, len: bytes)
    requires len == Store32(Unsigned(8 + |name| + |payload|))
    ensures before + len + (Store32(Unsigned(|name|)) + name + payload) == before + Frame(name, payload)
  {
    hide Store32;
    var namelen := Store32(Unsigned(|name|));
    assert before + len + (namelen + name + payload) == before + (len + namelen + name + payload);
  }

  lemma Patched(before: bytes, zero: bytes, rest: bytes, len: bytes)
    requires |zero| == |len|
    ensures var s := before + zero + rest;
      s[..|before|] + len + s[|before| + |len|..] == before + len + rest
  {
    var s := before + zero + rest;
    assert s[..|before|] == before && s[|before| + |len|..] == rest;
  }

  /** Takes the first message out of the buffer, or leaves the buffer alone. */
  method DecodeFrom<M>(reg: Registry<M>, buf: Buffer) returns (r: Result<M>)
    requires buf.Valid()
    modifies buf.Repr()
    ensures buf.Valid() && buf.Repr() <= old(buf.Repr())
    ensures r == Decode(reg, old(buf.Contents()))
    ensures buf.Contents() == if r.Decoded? then old(buf.Contents())[r.size..] else old(buf.Contents())
  {
    r := Decode(reg, buf.Data());
    if r.Decoded? {
      buf.Consume(r.size);
    }
  }
}
