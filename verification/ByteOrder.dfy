/** 32-bit integers in memory on a little-endian machine, and the conversion to network order. */
module ByteOrder {
  import opened Bytes

  const TWO32: int := 0x1_0000_0000
  const TWO31: int := 0x8000_0000

  type uint32 = x: int | 0 <= x < TWO32

  /** The four bytes a little-endian machine keeps `v` in. */
  function Store32(v: uint32): (s: bytes)
    ensures |s| == 4
  {
    [(v % 0x100) as char, (v / 0x100 % 0x100) as char, (v / 0x1_0000 % 0x100) as char, (v / 0x100_0000) as char]
  }

  function Load32(s: bytes): uint32
    requires |s| == 4
  {
    s[0] as int + 0x100 * s[1] as int + 0x1_0000 * s[2] as int + 0x100_0000 * s[3] as int
  }

  /** Reads the value's own memory from its first byte down, most significant first. */
  function Htobe32(v: uint32): uint32 {
    var s := Store32(v);
    0x100_0000 * s[0] as int + 0x1_0000 * s[1] as int + 0x100 * s[2] as int + s[3] as int
  }

  /** The four bytes of `v` in network order, most significant first. */
  function BigEndian(v: uint32): (s: bytes)
    ensures |s| == 4
  {
    [(v / 0x100_0000) as char, (v / 0x1_0000 % 0x100) as char, (v / 0x100 % 0x100) as char, (v % 0x100) as char]
  }

  function Signed(v: uint32): int { if v >= TWO31 then v - TWO32 else v }

  function Unsigned(n: int): uint32 { n % TWO32 }

  lemma Digits(a: int, b: int, c: int, d: int)
    requires 0 <= a < 0x100 && 0 <= b < 0x100 && 0 <= c < 0x100 && 0 <= d < 0x100
    ensures var v := a + 0x100 * b + 0x1_0000 * c + 0x100_0000 * d;
      v % 0x100 == a && v / 0x100 % 0x100 == b && v / 0x1_0000 % 0x100 == c && v / 0x100_0000 == d && v < TWO32
  {
    var v := a + 0x100 * b + 0x1_0000 * c + 0x100_0000 * d;
    assert v / 0x100 == b + 0x100 * c + 0x1_0000 * d;
    assert v / 0x1_0000 == c + 0x100 * d;
  }

  lemma LoadStore(v: uint32)
    ensures Load32(Store32(v)) == v
  {
    assert v / 0x1_0000 == v / 0x100 / 0x100;
    assert v / 0x100_0000 == v / 0x1_0000 / 0x100;
  }

  /** The most significant byte of what `Htobe32` gives lies first in memory. */
  lemma HtobeIsNetworkOrder(v: uint32)
    ensures Store32(Htobe32(v)) == BigEndian(v)
  {
    var s := Store32(v);
    Digits(s[3] as int, s[2] as int, s[1] as int, s[0] as int);
    assert v / 0x100_0000 < 0x100;
  }

  /** So four bytes in memory are read, most significant first, as the number they spell. */
  lemma NetworkOrderIsRead(a: byte, b: byte, c: byte, d: byte)
    ensures Htobe32(Load32([a, b, c, d]))
         == 0x100_0000 * a as int + 0x1_0000 * b as int + 0x100 * c as int + d as int
  {
    Digits(a as int, b as int, c as int, d as int);
  }

  /** One function serves both directions of the conversion. */
  lemma HtobeIsItsOwnInverse(v: uint32)
    ensures Htobe32(Htobe32(v)) == v
  {
    var s := Store32(v);
    Digits(s[3] as int, s[2] as int, s[1] as int, s[0] as int);
    LoadStore(v);
  }
}
