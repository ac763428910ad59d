/** The read loop of a connected TcpConn: what one read event brings in, whatever the sizes of its reads. */
module TcpInput {
  import opened Bytes
  import opened Buffers

  /** What the kernel has for one read call: bytes (none means the peer closed), an interruption, or nothing for now. */
  datatype ReadResult = Got(data: bytes) | Interrupted | WouldBlock | Broke

  /** The bytes one read event brings in; when the script runs out there is nothing more for now. */
  function Received(script: seq<ReadResult>): bytes
    decreases |script|
  {
    if script == [] then [] else
      match script[0]
      case Got(data) => if data == [] then [] else data + Received(script[1..])
      case Interrupted => Received(script[1..])
      case _ => []
  }

  /** Whether the read event ends in a close by the peer or an error. */
  predicate HangsUp(script: seq<ReadResult>)
    decreases |script|
  {
    script != [] &&
    match script[0]
    case Got(data) => data == [] || HangsUp(script[1..])
    case Interrupted => HangsUp(script[1..])
    case WouldBlock => false
    case Broke => true
  }

  /** The chunks in a script, put together. */
  function Chunks(script: seq<ReadResult>): bytes
    decreases |script|
  {
    if script == [] then [] else (if script[0].Got? then script[0].data else []) + Chunks(script[1..])
  }

  predicate GoesOn(r: ReadResult) { r == Interrupted || (r.Got? && r.data != []) }

  /**
   * A read event takes every chunk up to the first answer that is neither bytes nor an interruption, and takes that
   * for the end of the stream if and only if it is an empty read or an error.
   */
  lemma {:induction false} ReadsUntilStopped(before: seq<ReadResult>, stop: ReadResult, after: seq<ReadResult>)
    requires (forall r | r in before :: GoesOn(r)) && !GoesOn(stop)
    ensures Received(before + [stop] + after) == Chunks(before) == Received(before)
    ensures HangsUp(before + [stop] + after) <==> stop == Broke || stop == Got([])
    ensures !HangsUp(before)
    decreases |before|
  {
    if before == [] {
      assert before + [stop] + after == [stop] + after;
    } else {
      assert (before + [stop] + after)[1..] == before[1..] + [stop] + after;
      assert before[0] in before;
      ReadsUntilStopped(before[1..], stop, after);
    }
  }

  function Left(script: seq<ReadResult>): nat
    decreases |script|
  {
    if script == [] then 0
    else 1 + (if script[0].Got? then |script[0].data| else 0) + Left(script[1..])
  }

  /** A script cut in two inside one chunk brings in the same bytes. */
  lemma CutChunk(data: bytes, k: nat, rest: seq<ReadResult>)
    requires 0 < k <= |data|
    ensures var next := if k == |data| then rest else [Got(data[k..])] + rest;
      && Received([Got(data)] + rest) == data[..k] + Received(next)
      && HangsUp([Got(data)] + rest) == HangsUp(next)
      && Left(next) < Left([Got(data)] + rest)
  {
    assert ([Got(data)] + rest)[1..] == rest && ([Got(data[k..])] + rest)[1..] == rest;
    assert data == data[..k] + data[k..];
    assert k == |data| ==> data[..k] == data;
    assert data[..k] + data[k..] + Received(rest) == data[..k] + (data[k..] + Received(rest));
  }

  /** What the next read leaves to come. */
  lemma Unfolds(script: seq<ReadResult>)
    ensures script == [] ==> Received(script) == [] && !HangsUp(script)
    ensures script != [] ==>
      var rest := script[1..];
      match script[0]
      case Interrupted =>
        Received(script) == Received(rest) && HangsUp(script) == HangsUp(rest) && Left(rest) < Left(script)
      case Got(data) => data == [] ==> Received(script) == [] && HangsUp(script)
      case r => Received(script) == [] && HangsUp(script) == r.Broke?
  {
  }

  /** One read of a chunk: what fits in the free space goes into the buffer, the rest stays with the kernel. */
  method ReadChunk(input: Buffer, data: bytes, rest: seq<ReadResult>) returns (left: seq<ReadResult>)
    requires input.Valid() && input.e < input.cap && data != []
    modifies input.Repr()
    ensures input.Valid() && input.exp == old(input.exp) && input.Repr() == old(input.Repr())
    ensures input.Contents() + Received(left) == old(input.Contents()) + Received([Got(data)] + rest)
    ensures HangsUp(left) == HangsUp([Got(data)] + rest) && Left(left) < Left([Got(data)] + rest)
  {
    hide Received, HangsUp, Left;
    var space := input.cap - input.e;
    var k := if |data| < space then |data| else space;
    CutChunk(data, k, rest);
    left := if k == |data| then rest else [Got(data[k..])] + rest;
    assert input.Contents() + (data[..k] + Received(left)) == input.Contents() + data[..k] + Received(left);
    input.Fill(data[..k]);
  }

  /** One read into the free space, and whether the loop is over then and why. */
  method ReadOnce(input: Buffer, script: seq<ReadResult>) returns (left: seq<ReadResult>, over: bool, hungUp: bool)
    requires input.Valid() && input.e < input.cap
    modifies input.Repr()
    ensures input.Valid() && input.exp == old(input.exp) && input.Repr() == old(input.Repr())
    ensures input.Contents() + Received(left) == old(input.Contents()) + Received(script)
    ensures over ==> Received(left) == [] && hungUp == HangsUp(script)
    ensures !over ==> HangsUp(left) == HangsUp(script) && Left(left) < Left(script)
  {
    hide Received, HangsUp, Left;
    Unfolds(script);
    Unfolds([]);
    left, over, hungUp := [], true, false;
    if script != [] {
      var r, rest := script[0], script[1..];
      assert script == [r] + rest;
      match r {
        case Interrupted => left, over := rest, false;
        case WouldBlock =>
        case Broke => hungUp := true;
        case Got(data) =>
          if |data| == 0 {
            hungUp := true;
          } else {
            left := ReadChunk(input, data, rest);
            over := false;
          }
      }
    }
  }

  /** The read loop: takes bytes into the buffer until the kernel has no more or the stream ends. */
  method ReadLoop(input: Buffer, script: seq<ReadResult>) returns (hungUp: bool)
    requires input.Valid() && input.exp > 0
    modifies input.Repr()
    ensures input.Valid() && input.exp == old(input.exp) && fresh(input.Repr() - old(input.Repr()))
    ensures input.Contents() == old(input.Contents()) + Received(script)
    ensures hungUp == HangsUp(script)
  {
    hide Received, HangsUp, Left;
    hungUp := false;
    var left, over := script, false;
    ghost var all := input.Contents() + Received(script);
    while !over
      invariant input.Valid() && input.exp == old(input.exp) && fresh(input.Repr() - old(input.Repr()))
      invariant input.Contents() + Received(left) == all
      invariant if over then Received(left) == [] && hungUp == HangsUp(script) else HangsUp(left) == HangsUp(script)
      decreases !over, Left(left)
    {
      input.MakeRoomToRead();
      left, over, hungUp := ReadOnce(input, left);
    }
  }
}
