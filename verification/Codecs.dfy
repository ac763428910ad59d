/** The three message codecs: what they accept, what they write, and the loops that do it. */
module Codecs {
  import opened Bytes
  import opened ByteOrder
  import opened Buffers

  datatype Codec = Line | Bracket | Length

  /**
   * What one attempt to decode reports: a partial message, a message with the bytes it takes, malformed input
   * (a negative count), or a positive count with a slice of negative length, which no caller may use.
   */
  datatype Outcome = More | Frame(size: nat, msg: bytes) | Bad | Wild(size: nat)

  const EOT: byte := 4 as char
  const MAGIC: bytes := "mBdT"
  const MAX_LENGTH: int := 1024 * 1024

  /** Position of the first `x`, or the length when there is none. */
  function Find(data: bytes, x: byte): (i: nat)
    ensures i <= |data|
    ensures i < |data| ==> data[i] == x
    ensures Without(data, x, i)
  {
    if data == [] then 0 else if data[0] == x then 0 else
      var i := Find(data[1..], x);
      assert forall k | 0 < k < i + 1 :: data[k] == data[1..][k - 1];
      i + 1
  }

  /** No `x` among the first `i` bytes. */
  predicate Without(data: bytes, x: byte, i: nat)
    requires i <= |data|
  {
    forall k | 0 <= k < i :: data[k] != x
  }

  lemma FindUnique(data: bytes, x: byte, i: nat)
    requires i < |data| && data[i] == x && Without(data, x, i)
    ensures Find(data, x) == i
  {
  }

  predicate LoneEot(data: bytes) { data == [EOT] }

  function DecodeLine(data: bytes): Outcome {
    if LoneEot(data) then Frame(1, data) else
      var i := Find(data, '\n');
      if i == |data| then More
      else Frame(i + 1, if i > 0 && data[i - 1] == '\r' then data[..i - 1] else data[..i])
  }

  function DecodeBracket(data: bytes): Outcome {
    if LoneEot(data) then Frame(1, data)
    else if |data| <= 2 || data[0] != '{' then More
    else
      var i := Find(data, '}');
      if i == |data| then More else Frame(i + 1, data[1..i])
  }

  /** The length field of a frame of at least eight bytes. */
  function LengthField(data: bytes): int
    requires |data| >= 8
  {
    Signed(Htobe32(Load32(data[4..8])))
  }

  function DecodeLength(data: bytes): Outcome {
    if |data| < 8 then More else
      var len := LengthField(data);
      if len > MAX_LENGTH || data[..4] != MAGIC then Bad
      else if |data| < len + 8 || len == -8 then More
      else if len < -8 then Bad
      else if len < 0 then Wild(len + 8)
      else Frame(len + 8, data[8..8 + len])
  }

  function Decode(c: Codec, data: bytes): (o: Outcome)
    ensures o.Frame? ==> 0 < o.size <= |data|
  {
    match c
    case Line => DecodeLine(data)
    case Bracket => DecodeBracket(data)
    case Length => DecodeLength(data)
  }

  function Encode(c: Codec, msg: bytes): bytes {
    match c
    case Line => msg + "\r\n"
    case Bracket => "{" + msg + "}"
    case Length => MAGIC + Store32(Htobe32(Unsigned(|msg|))) + msg
  }

  // ----- The codecs as the program runs them -----

  class LineCodec {
    constructor () {}

    method TryDecode(data: bytes) returns (o: Outcome)
      ensures o == Decode(Line, data)
    {
      if |data| == 1 && data[0] == EOT {
        return Frame(1, data);
      }
      for i := 0 to |data|
        invariant Without(data, '\n', i)
      {
        if data[i] == '\n' {
          FindUnique(data, '\n', i);
          if i > 0 && data[i - 1] == '\r' {
            return Frame(i + 1, data[..i - 1]);
          } else {
            return Frame(i + 1, data[..i]);
          }
        }
      }
      return More;
    }

    method EncodeTo(msg: bytes, buf: Buffer)
      requires buf.Valid()
      modifies buf.Repr()
      ensures buf.Valid() && fresh(buf.Repr() - old(buf.Repr()))
      ensures buf.Contents() == old(buf.Contents()) + Encode(Line, msg)
    {
      buf.AppendSlice(msg);
      buf.AppendSlice("\r\n");
    }
  }

  class BracketCodec {
    constructor () {}

    method TryDecode(data: bytes) returns (o: Outcome)
      ensures o == Decode(Bracket, data)
    {
      if |data| == 1 && data[0] == EOT {
        return Frame(1, data);
      }
      if |data| <= 2 {
        return More;
      }
      if data[0] != '{' {
        return More;
      }
      for i := 0 to |data|
        invariant Without(data, '}', i)
      {
        if data[i] == '}' {
          FindUnique(data, '}', i);
          return Frame(i + 1, data[1..i]);
        }
      }
      return More;
    }

    method EncodeTo(msg: bytes, buf: Buffer)
      requires buf.Valid()
      modifies buf.Repr()
      ensures buf.Valid() && fresh(buf.Repr() - old(buf.Repr()))
      ensures buf.Contents() == old(buf.Contents()) + Encode(Bracket, msg)
    {
      ghost var before := buf.Contents();
      buf.AppendSlice("{");
      buf.AppendSlice(msg);
      assert buf.Contents() == before + ("{" + msg);
      buf.AppendSlice("}");
    }
  }

  class LengthCodec {
    constructor () {}

    method TryDecode(data: bytes) returns (o: Outcome)
      ensures o == Decode(Length, data)
    {
      if |data| < 8 {
        return More;
      }
      var len := Signed(Htobe32(Load32(data[4..8])));
      if len > MAX_LENGTH || data[..4] != MAGIC {
        return Bad;
      }
      if |data| >= len + 8 {
        var r := len + 8;
        if r > 0 {
          return if len < 0 then Wild(r) else Frame(r, data[8..8 + len]);
        }
        return if r < 0 then Bad else More;
      }
      return More;
    }

    method EncodeTo(msg: bytes, buf: Buffer)
      requires buf.Valid()
      modifies buf.Repr()
      ensures buf.Valid() && fresh(buf.Repr() - old(buf.Repr()))
      ensures buf.Contents() == old(buf.Contents()) + Encode(Length, msg)
    {
      hide Store32, Htobe32;
      ghost var before := buf.Contents();
      var field := Store32(Htobe32(Unsigned(|msg|)));
      buf.AppendSlice(MAGIC);
      buf.AppendSlice(field);
      assert buf.Contents() == before + (MAGIC + field);
      buf.AppendSlice(msg);
    }
  }

  method EncodeTo(c: Codec, msg: bytes, buf: Buffer)
    requires buf.Valid()
    modifies buf.Repr()
    ensures buf.Valid() && fresh(buf.Repr() - old(buf.Repr()))
    ensures buf.Contents() == old(buf.Contents()) + Encode(c, msg)
  {
    match c {
      case Line =>
        var codec := new LineCodec();
        codec.EncodeTo(msg, buf);
      case Bracket =>
        var codec := new BracketCodec();
        codec.EncodeTo(msg, buf);
      case Length =>
        var codec := new LengthCodec();
        codec.EncodeTo(msg, buf);
    }
  }

  // ----- The bytes on the wire -----

  /** A line ends at the first line feed, which one carriage return in front of it belongs to. */
  lemma LineFramesExactly(data: bytes, n: nat, msg: bytes)
    ensures Decode(Line, data) == Frame(n, msg) <==>
      if data == [4 as char] then n == 1 && msg == data
      else
        && 0 < n <= |data| && data[n - 1] == '\n' && (forall k | 0 <= k < n - 1 :: data[k] != '\n')
        && msg == data[..n - if n > 1 && data[n - 2] == '\r' then 2 else 1]
    ensures Decode(Line, data) == More || Decode(Line, data).Frame?
  {
    if 0 < n <= |data| && data[n - 1] == '\n' && forall k | 0 <= k < n - 1 :: data[k] != '\n' {
      FindUnique(data, '\n', n - 1);
    }
  }

  /** A bracketed message of at least three bytes in all ends at the first closing bracket. */
  lemma BracketFramesExactly(data: bytes, n: nat, msg: bytes)
    ensures Decode(Bracket, data) == Frame(n, msg) <==>
      if data == [4 as char] then n == 1 && msg == data
      else
        && |data| > 2 && data[0] == '{'
        && 1 < n <= |data| && data[n - 1] == '}' && (forall k | 0 <= k < n - 1 :: data[k] != '}')
        && msg == data[1..n - 1]
    ensures Decode(Bracket, data) == More || Decode(Bracket, data).Frame?
  {
    if 0 < n <= |data| && data[n - 1] == '}' && forall k | 0 <= k < n - 1 :: data[k] != '}' {
      FindUnique(data, '}', n - 1);
    }
  }

  /** The number that bytes 4 to 7 spell, most significant first. */
  function Spelled(data: bytes): nat
    requires |data| >= 8
  {
    0x100_0000 * data[4] as int + 0x1_0000 * data[5] as int + 0x100 * data[6] as int + data[7] as int
  }

  lemma FieldIsSpelled(data: bytes)
    requires |data| >= 8
    ensures LengthField(data) == if Spelled(data) < 0x8000_0000 then Spelled(data) else Spelled(data) - 0x1_0000_0000
  {
    assert data[4..8] == [data[4], data[5], data[6], data[7]];
    NetworkOrderIsRead(data[4], data[5], data[6], data[7]);
    hide Htobe32, Load32;
  }

  /**
   * A frame of the length codec is the four letters, a length of at most 1 MiB spelled most significant byte first,
   * and as many bytes; other letters or a longer length are malformed, apart from lengths of -8 to -1, which the
   * program takes for something else.
   */
  lemma LengthFramesExactly(data: bytes, n: nat, msg: bytes)
    requires |data| >= 8
    ensures Decode(Length, data) == Frame(n, msg) <==>
      && data[..4] == "mBdT" && Spelled(data) <= 1024 * 1024
      && n == 8 + Spelled(data) <= |data| && msg == data[8..n]
    ensures Decode(Length, data) == Bad <==>
      data[..4] != "mBdT" || 1024 * 1024 < Spelled(data) < 0xFFFF_FFF8
    ensures Decode(Length, data).Wild? <==> data[..4] == "mBdT" && Spelled(data) > 0xFFFF_FFF8
  {
    FieldIsSpelled(data);
    hide LengthField, Spelled;
  }

  /** What each encoder writes, byte for byte. */
  lemma EncodedBytes(msg: bytes)
    requires |msg| < 0x1_0000_0000
    ensures Encode(Line, msg) == msg + "\r\n" && Encode(Bracket, msg) == "{" + msg + "}"
    ensures
      var s := Encode(Length, msg);
      |s| == 8 + |msg| && s[..4] == "mBdT" && Spelled(s) == |msg| && s[8..] == msg
  {
    hide Store32, Htobe32, BigEndian, Spelled, Unsigned;
    EncodedLength(msg);
    BigEndianSpells(|msg|);
    SpelledBehind(MAGIC, BigEndian(|msg|), msg);
  }

  lemma EncodedLength(msg: bytes)
    requires |msg| < 0x1_0000_0000
    ensures Encode(Length, msg) == MAGIC + BigEndian(|msg|) + msg
  {
    hide Store32, Htobe32, BigEndian, Unsigned;
    SmallIsUnsigned(|msg|);
    HtobeIsNetworkOrder(|msg|);
  }

  lemma SmallIsUnsigned(n: nat)
    requires n < 0x1_0000_0000
    ensures Unsigned(n) == n
  {
  }

  lemma SpelledBehind(four: bytes, field: bytes, rest: bytes)
    requires |four| == 4 && |field| == 4
    ensures
      var s := four + field + rest;
      && s[..4] == four && s[8..] == rest
      && Spelled(s)
         == 0x100_0000 * field[0] as int + 0x1_0000 * field[1] as int + 0x100 * field[2] as int + field[3] as int
  {
    var s := four + field + rest;
    assert s[4] == field[0] && s[5] == field[1] && s[6] == field[2] && s[7] == field[3];
  }

  lemma BigEndianSpells(v: uint32)
    ensures
      var f := BigEndian(v);
      0x100_0000 * f[0] as int + 0x1_0000 * f[1] as int + 0x100 * f[2] as int + f[3] as int == v
  {
    assert v / 0x1_0000 == v / 0x100 / 0x100;
    assert v / 0x100_0000 == v / 0x1_0000 / 0x100;
  }

  // ----- Decoding does not depend on what follows, except after a lone EOT -----

  lemma FindExtends(data: bytes, more: bytes, x: byte)
    requires Find(data, x) < |data|
    ensures Find(data + more, x) == Find(data, x)
  {
    FindUnique(data + more, x, Find(data, x));
  }

  lemma DecodeLineExtends(data: bytes, more: bytes)
    requires DecodeLine(data) != More && !LoneEot(data)
    ensures DecodeLine(data + more) == DecodeLine(data)
  {
    hide Find;
    var all, i := data + more, Find(data, '\n');
    FindExtends(data, more, '\n');
    assert |all| >= |data| && !LoneEot(all) by { assert data != []; assert all[0] == data[0]; }
    assert all[..i] == data[..i];
    if i > 0 { assert all[i - 1] == data[i - 1] && all[..i - 1] == data[..i - 1]; }
  }

  lemma DecodeBracketExtends(data: bytes, more: bytes)
    requires DecodeBracket(data) != More && !LoneEot(data)
    ensures DecodeBracket(data + more) == DecodeBracket(data)
  {
    hide Find;
    var all, i := data + more, Find(data, '}');
    FindExtends(data, more, '}');
    assert all[0] == data[0];
    assert all[1..i] == data[1..i];
  }

  lemma DecodeLengthExtends(data: bytes, more: bytes)
    requires DecodeLength(data) != More
    ensures DecodeLength(data + more) == DecodeLength(data)
  {
    hide Htobe32, Load32;
    var all := data + more;
    assert all[4..8] == data[4..8] && all[..4] == data[..4];
    var len := LengthField(data);
    if 0 <= len && len + 8 <= |data| { assert all[8..8 + len] == data[8..8 + len]; }
  }

  lemma DecodeExtends(c: Codec, data: bytes, more: bytes)
    requires Decode(c, data) != More && !LoneEot(data)
    ensures Decode(c, data + more) == Decode(c, data)
  {
    hide DecodeLine, DecodeBracket, DecodeLength;
    match c {
      case Line => DecodeLineExtends(data, more);
      case Bracket => DecodeBracketExtends(data, more);
      case Length => DecodeLengthExtends(data, more);
    }
  }

  /** A frame is found as soon as its own bytes are there and one more. */
  lemma DecodeShortens(c: Codec, data: bytes, n: nat)
    requires Decode(c, data).Frame? && Decode(c, data).size < n <= |data|
    ensures Decode(c, data[..n]) == Decode(c, data)
  {
    var o := Decode(c, data);
    var p := data[..n];
    match c {
      case Line =>
        var i := Find(data, '\n');
        assert p[..i] == data[..i];
        FindUnique(p, '\n', i);
        if i > 0 { assert p[..i - 1] == data[..i - 1]; }
      case Bracket =>
        var i := Find(data, '}');
        assert p[..i] == data[..i] && p[1..i] == data[1..i];
        FindUnique(p, '}', i);
      case Length =>
        assert p[4..8] == data[4..8] && p[..4] == data[..4];
        assert p[8..o.size] == data[8..o.size];
    }
  }
}
