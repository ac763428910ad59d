/** The output half of a connected TcpConn, as the object updates it. */
module TcpOutput {
  import opened Bytes
  import opened Buffers
  import opened Codecs
  import S = Sending

  class TcpConn {
    const output: Buffer
    var open: bool
    var writeEnabled: bool
    var faulted: bool
    /** The bytes the kernel took; the program keeps no such field. */
    ghost var wire: bytes

    ghost predicate Valid()
      reads this, output
    {
      output.Valid() && this !in output.Repr()
    }

    ghost function Repr(): set<object>
      reads this, output
    {
      {this} + output.Repr()
    }

    ghost function Out(): S.Out
      requires output.Valid()
      reads this, output, output.buf
    {
      S.Out(open, writeEnabled, output.Contents(), wire, faulted)
    }

    /** A connection that has just become connected. */
    constructor ()
      ensures Valid() && fresh(Repr())
      ensures Out() == S.Out(true, false, [], [], false)
    {
      output := new Buffer();
      open, writeEnabled, faulted, wire := true, false, false, [];
    }

    /** Writes `data` until it is done, blocked, reset or stuck; -1 stands for a reset, as in the program. */
    method ISend(data: bytes, script: seq<S.WriteResult>) returns (sent: int, left: seq<S.WriteResult>)
      modifies this`writeEnabled, this`wire
      ensures var s := S.ISend(old(writeEnabled), |data|, script);
        && sent == (if s.reset then -1 else s.n) && left == s.script
        && writeEnabled == s.interest && wire == old(wire) + data[..s.n]
    {
      ghost var goal := S.ISend(writeEnabled, |data|, script);
      var n := 0;
      left := script;
      while n < |data|
        invariant 0 <= n <= |data|
        invariant wire == old(wire) + data[..n]
        invariant n <= goal.n && S.ISend(writeEnabled, |data| - n, left) == goal.(n := goal.n - n)
        decreases |left|, |data| - n
      {
        if left == [] {
          writeEnabled := true;
          return n, left;
        }
        var r := left[0];
        left := left[1..];
        match r {
          case Wrote(k) =>
            var took := S.Taken(k, |data| - n);
            wire := wire + data[n..n + took];
            assert data[..n] + data[n..n + took] == data[..n + took];
            n := n + took;
          case Interrupted =>
          case WouldBlock =>
            if !writeEnabled {
              writeEnabled := true;
            }
            return n, left;
          case Reset => return -1, left;
          case Other => return n, left;
        }
      }
      sent := n;
    }

    /** Writes what it can of the output buffer and drops that much from it, as both flushing paths do. */
    method WriteOutput(script: seq<S.WriteResult>) returns (reset: bool, left: seq<S.WriteResult>)
      requires Valid()
      modifies Repr()
      ensures Valid() && fresh(Repr() - old(Repr()))
      ensures var o := old(Out()); var s := S.ISend(o.interest, |o.queue|, script);
        && reset == s.reset && left == s.script
        && Out() == o.(wire := o.wire + o.queue[..s.n], interest := s.interest,
                       queue := if s.reset then o.queue else o.queue[s.n..])
    {
      hide S.ISend;
      var sent;
      sent, left := ISend(output.Data(), script);
      reset := sent == -1;
      if !reset {
        output.Consume(sent);
      }
    }

    method SendBytes(data: bytes, script: seq<S.WriteResult>) returns (left: seq<S.WriteResult>)
      requires Valid()
      modifies Repr()
      ensures Valid() && fresh(Repr() - old(Repr()))
      ensures S.Step(Out(), left) == S.SendBytes(old(Out()), data, script)
    {
      hide S.ISend;
      left := script;
      if open {
        var rest := data;
        if output.Length() == 0 {
          var sent;
          sent, left := ISend(data, script);
          if sent == -1 {
            open := false;
            return;
          }
          rest := data[sent..];
        }
        if |rest| > 0 {
          output.AppendSlice(rest);
        }
      }
    }

    /** Writes what it can of the caller's buffer and drops that much from it. */
    method WriteFrom(buf: Buffer, script: seq<S.WriteResult>) returns (reset: bool, left: seq<S.WriteResult>)
      requires Valid() && buf.Valid() && buf.Repr() !! Repr()
      modifies this`writeEnabled, this`wire, buf
      ensures Valid() && Repr() == old(Repr()) && buf.Valid() && buf.Repr() <= old(buf.Repr())
      ensures var o, data := old(Out()), old(buf.Contents()); var s := S.ISend(o.interest, |data|, script);
        && reset == s.reset && left == s.script
        && Out() == o.(wire := o.wire + data[..s.n], interest := s.interest)
        && buf.Contents() == if s.reset then data else data[s.n..]
    {
      hide S.ISend;
      var sent;
      sent, left := ISend(buf.Data(), script);
      reset := sent == -1;
      if !reset {
        buf.Consume(sent);
      }
    }

    /** Moves the caller's buffer to the end of the output buffer. */
    method Queue(buf: Buffer)
      requires Valid() && buf.Valid() && buf.Repr() !! Repr()
      modifies output.Repr(), buf.Repr()
      ensures Valid() && buf.Valid() && buf.Repr() !! Repr()
      ensures fresh(Repr() + buf.Repr() - old(Repr()) - old(buf.Repr()))
      ensures Out() == old(Out()).(queue := old(Out()).queue + old(buf.Contents())) && buf.Contents() == []
    {
      output.Absorb(buf);
    }

    /** `send(Buffer &)` with a buffer of the caller's. */
    method SendBuffer(buf: Buffer, script: seq<S.WriteResult>) returns (left: seq<S.WriteResult>)
      requires Valid() && buf.Valid() && buf.Repr() !! Repr()
      modifies Repr(), buf.Repr()
      ensures Valid() && buf.Valid() && buf.Repr() !! Repr()
      ensures fresh(Repr() + buf.Repr() - old(Repr()) - old(buf.Repr()))
      ensures S.Step(Out(), left) == S.SendBuffer(old(Out()), old(buf.Contents()), script)
      ensures open ==> buf.Contents() == []
    {
      hide S.ISend;
      left := script;
      if open {
        if writeEnabled {
          Queue(buf);
        }
        if buf.Length() > 0 {
          var reset;
          reset, left := WriteFrom(buf, script);
          if reset {
            open := false;
            return;
          }
        } else {
          S.ISendNothing(false, script);
        }
        if buf.Length() > 0 {
          Queue(buf);
          if !writeEnabled {
            writeEnabled := true;
          }
        }
      }
    }

    /** `send(Buffer &)` with the connection's own output buffer: absorbing it into itself does nothing. */
    method SendOutput(script: seq<S.WriteResult>) returns (left: seq<S.WriteResult>)
      requires Valid()
      modifies Repr()
      ensures Valid() && fresh(Repr() - old(Repr()))
      ensures S.Step(Out(), left) == S.SendOutput(old(Out()), script)
    {
      hide S.ISend;
      left := script;
      if open {
        if writeEnabled {
          AbsorbSelf();
        }
        if output.Length() > 0 {
          var reset;
          reset, left := WriteOutput(script);
          if reset {
            open := false;
            return;
          }
        } else {
          S.ISendNothing(writeEnabled, script);
        }
        if output.Length() > 0 {
          AbsorbSelf();
          if !writeEnabled {
            writeEnabled := true;
          }
        }
      }
    }

    method AbsorbSelf()
      requires Valid()
      modifies output.Repr()
      ensures unchanged(this) && unchanged(output) && Valid() && Out() == old(Out())
    {
      output.Absorb(output);
    }

    method SendMsg(codec: Codec, msg: bytes, script: seq<S.WriteResult>) returns (left: seq<S.WriteResult>)
      requires Valid()
      modifies Repr()
      ensures Valid() && fresh(Repr() - old(Repr()))
      ensures S.Step(Out(), left) == S.SendMsg(old(Out()), codec, msg, script)
    {
      hide Encode, S.SendOutput;
      EncodeTo(codec, msg, output);
      left := SendOutput(script);
    }

    method Do(op: S.SendOp, script: seq<S.WriteResult>) returns (left: seq<S.WriteResult>)
      requires Valid()
      modifies Repr()
      ensures Valid() && fresh(Repr() - old(Repr()))
      ensures S.Step(Out(), left) == S.Do(old(Out()), op, script)
    {
      hide S.SendBytes, S.SendBuffer, S.SendOutput, S.SendMsg;
      match op {
        case Bytes(data) => left := SendBytes(data, script);
        case Buf(data) =>
          var buf := new Buffer();
          buf.AppendSlice(data);
          assert buf.Contents() == data;
          left := SendBuffer(buf, script);
        case Msg(codec, msg) => left := SendMsg(codec, msg, script);
        case Put(data) =>
          output.AppendSlice(data);
          left := SendOutput(script);
        case Flush => left := SendOutput(script);
      }
    }

    /** What the writable callback sends, call by call. */
    method RunCallback(ops: seq<S.SendOp>, script: seq<S.WriteResult>) returns (left: seq<S.WriteResult>)
      requires Valid()
      modifies Repr()
      ensures Valid() && fresh(Repr() - old(Repr()))
      ensures S.Step(Out(), left) == S.DoAll(old(Out()), ops, script)
    {
      hide S.Do;
      left := script;
      var i := 0;
      assert ops[0..] == ops;
      while i < |ops|
        invariant 0 <= i <= |ops|
        invariant Valid() && fresh(Repr() - old(Repr()))
        invariant S.DoAll(Out(), ops[i..], left) == S.DoAll(old(Out()), ops, script)
      {
        assert ops[i..][1..] == ops[i + 1..];
        left := Do(ops[i], left);
        i := i + 1;
      }
    }

    /** A write event in the connected state. */
    method HandleWrite(ops: seq<S.SendOp>, script: seq<S.WriteResult>) returns (left: seq<S.WriteResult>)
      requires Valid()
      modifies Repr()
      ensures Valid() && fresh(Repr() - old(Repr()))
      ensures S.Step(Out(), left) == S.HandleWrite(old(Out()), ops, script)
    {
      hide S.ISend, S.DoAll;
      left := script;
      if open {
        var reset;
        reset, left := WriteOutput(script);
        if reset {
          open := false;
          return;
        }
        if output.Length() == 0 {
          left := RunCallback(ops, left);
        }
        if output.Length() == 0 {
          if !open {
            faulted := true;
          } else if writeEnabled {
            writeEnabled := false;
          }
        }
      }
    }
  }
}
