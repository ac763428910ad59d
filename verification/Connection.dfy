/** The connection as the program updates it: its input buffer in place, and its callbacks inside one another. */
module Connection {
  import opened Bytes
  import opened Buffers
  import opened Codecs
  import opened TcpInput
  import opened Lifecycle
  import opened Reentry
  import S = Sending

  class TcpConn {
    const reader: Reader
    const input: Buffer
    var state: State
    var channel: Channel
    var hasState: bool
    var hasRead: bool
    var hasWritable: bool
    /** The output half, as a value; TcpOutput has it in place. */
    var out: Outgoing
    var idle: Idle
    var reconnects: bool
    var exited: bool
    var connectTimer: bool
    var waiting: bool
    var retries: nat
    var health: Health
    /** The state callbacks and messages of the current attach, and its stream; the program keeps no such lists. */
    ghost var notes: seq<State>
    ghost var delivered: seq<bytes>
    ghost var stream: bytes

    ghost predicate Valid()
      reads this, input
    {
      input.Valid() && this !in input.Repr() && input.exp > 0
    }

    ghost function Repr(): set<object>
      reads this, input
    {
      {this} + input.Repr()
    }

    ghost function View(): Conn
      requires input.Valid()
      reads this, input, input.buf
    {
      Conn(state, channel, notes, Hooks(hasState, hasRead, hasWritable, reader),
           Intake(input.Contents(), delivered, stream), out,
           Link(idle, reconnects, exited, connectTimer, waiting, retries), health)
    }

    constructor (hasState: bool, hasWritable: bool, reader: Reader, reconnects: bool)
      ensures Valid() && fresh(Repr()) && View() == New(hasState, hasWritable, reader, reconnects)
    {
      this.hasState, this.hasRead, this.reader, this.reconnects := hasState, reader != NoReader, reader, reconnects;
      this.hasWritable, out := hasWritable, Outgoing(false, [], [], [], true, false);
      input := new Buffer();
      state, channel, idle, health := Invalid, Null, Unused, Sound;
      exited, connectTimer, waiting, retries := false, false, false, 0;
      notes, delivered, stream := [], [], [];
    }

    predicate HasOpen()
      reads this
    {
      channel == Chan(true)
    }

    /** What bounds the nesting of the calls below: the acts to come and the one descriptor there is to close. */
    function Nesting(acts: seq<Act>): nat
      reads this
    {
      2 * |acts| + if HasOpen() then 1 else 0
    }

    /** The run of a callback changes the buffer by consuming from it, at most. */
    twostate predicate Shrinks()
      reads this, input
    {
      Valid() && input.Repr() <= old(input.Repr()) && input.exp == old(input.exp)
    }

    /** `readcb_(con)`. */
    method ReadCallback(acts: seq<Act>) returns (left: seq<Act>)
      requires Valid() && health == Sound
      modifies this, input
      ensures Shrinks()
      ensures Walk(View(), left) == Lifecycle.ReadCallback(old(View()), acts)
      decreases Nesting(acts), 2
    {
      hide Lifecycle.MessageLoop, React;
      match reader {
        case NoReader => left := acts;
        case Raw => left := RawCallback(acts);
        case Messages(codec) => left := MessageLoop(codec, acts);
      }
    }

    /** A read callback of the user's own: it takes bytes and then acts. */
    method RawCallback(acts: seq<Act>) returns (left: seq<Act>)
      requires Valid() && health == Sound && reader == Raw
      modifies this, input
      ensures Shrinks()
      ensures Walk(View(), left) == Lifecycle.ReadCallback(old(View()), acts)
      decreases Nesting(acts), 1
    {
      hide React;
      if acts == [] {
        health := Unfinished;
        return [];
      }
      input.Consume(if acts[0].takes <= input.Length() then acts[0].takes else input.Length());
      assert View() == Took(old(View()), acts[0]);
      left := RunReaction(acts[0].does, acts[1..]);
    }

    /** The loop that onMsg installs: a message is consumed after its callback, from whatever the buffer holds then. */
    method MessageLoop(codec: Codec, acts: seq<Act>) returns (left: seq<Act>)
      requires Valid() && health == Sound
      modifies this, input
      ensures Shrinks()
      ensures Walk(View(), left) == Lifecycle.MessageLoop(old(View()), codec, acts)
      decreases Nesting(acts), 1
    {
      hide Decode, Lifecycle.MessageLoop, React, Close;
      left := acts;
      while true
        invariant Shrinks() && health == Sound
        invariant |left| < |acts| || (left == acts && channel == old(channel))
        invariant Lifecycle.MessageLoop(View(), codec, left) == Lifecycle.MessageLoop(old(View()), codec, acts)
        decreases |left|
      {
        var data := input.Data();
        var o := Decode(codec, data);
        if !o.Frame? {
          MessageLoopStop(View(), codec, left);
          if o.Wild? {
            health := Faulted;
          } else if o.Bad? {
            left := CloseChannel(left);
          }
          return;
        }
        if left == [] {
          MessageLoopShort(View(), codec);
          health := Unfinished;
          return;
        }
        var goOn;
        goOn, left := Deliver(codec, o, left);
        if !goOn {
          return;
        }
      }
    }

    /** One turn of the loop: the callback, and then the frame is consumed, whatever the callback has done. */
    method Deliver(codec: Codec, o: Outcome, acts: seq<Act>) returns (goOn: bool, left: seq<Act>)
      requires Valid() && health == Sound && acts != []
      requires o.Frame? && o == Decode(codec, input.Contents())
      modifies this, input
      ensures Shrinks() && |left| < |acts| && (goOn ==> health == Sound)
      ensures Lifecycle.MessageLoop(old(View()), codec, acts)
        == if goOn then Lifecycle.MessageLoop(View(), codec, left) else Walk(View(), left)
      decreases Nesting(acts), 0, 0
    {
      hide Decode, Lifecycle.MessageLoop, React;
      left := RunMessageCallback(o.msg, acts);
      MessageLoopTurn(old(View()), codec, acts, o, Walk(View(), left));
      if health == Sound {
        ConsumeFrame(o.size);
      }
      goOn := health == Sound;
    }

    /** `getInput().consume(r)`, which does not look at what is left. */
    method ConsumeFrame(n: nat)
      requires Valid() && health == Sound
      modifies this`health, input
      ensures Shrinks()
      ensures View() == Consumed(old(View()), n)
    {
      if input.Length() < n {
        health := Faulted;
      } else {
        input.Consume(n);
      }
    }

    /** `cb(con, msg)`. */
    method RunMessageCallback(msg: bytes, acts: seq<Act>) returns (left: seq<Act>)
      requires Valid() && health == Sound && acts != []
      modifies this, input
      ensures Shrinks()
      ensures Walk(View(), left)
        == React(Delivered(old(View()), msg), acts[0].does, acts[1..])
      decreases Nesting(acts), 0, 0, 0
    {
      hide React;
      delivered := delivered + [msg];
      left := RunReaction(acts[0].does, acts[1..]);
    }

    /** `channel_->close()` through a pointer that may be null. */
    method CloseChannel(acts: seq<Act>) returns (left: seq<Act>)
      requires Valid() && health == Sound
      modifies this, input
      ensures Shrinks()
      ensures Walk(View(), left) == Close(old(View()), acts)
      decreases Nesting(acts), 0, 1
    {
      hide Cleanup;
      left := acts;
      if channel == Null {
        health := Faulted;
      } else {
        left := ChannelClose(acts);
      }
    }

    /** `Channel::close`: the descriptor goes first, and then the channel's read callback runs. */
    method ChannelClose(acts: seq<Act>) returns (left: seq<Act>)
      requires Valid() && health == Sound && channel != Null
      modifies this, input
      ensures Shrinks()
      ensures Walk(View(), left) == Close(old(View()), acts)
      decreases Nesting(acts), 0, 0
    {
      hide Cleanup;
      left := acts;
      if channel.open {
        channel := Chan(false);
        left := HandleReadClosed(acts);
      }
    }

    /** handleRead on a closed descriptor: neither the handshake's poll nor the read loop finds anything. */
    method HandleReadClosed(acts: seq<Act>) returns (left: seq<Act>)
      requires Valid() && health == Sound && channel == Chan(false)
      modifies this, input
      ensures Shrinks()
      ensures Walk(View(), left) == if Live(old(View())) then Cleanup(old(View()), acts) else Walk(old(View()), acts)
      decreases Nesting(acts), 4
    {
      left := acts;
      if state == Handshaking || state == Connected {
        left := DoCleanup(acts);
      }
    }

    method DoCleanup(acts: seq<Act>) returns (left: seq<Act>)
      requires Valid() && health == Sound
      modifies this, input
      ensures Shrinks()
      ensures Walk(View(), left) == Cleanup(old(View()), acts)
      decreases Nesting(acts), 3
    {
      hide Finish, Detach, Lifecycle.ReadCallback;
      left := acts;
      if hasRead && input.Length() > 0 {
        left := ReadCallback(acts);
        if health != Sound {
          return;
        }
      }
      ghost var c := View();
      EndState();
      DetachChannel();
      FinishIs(c);
    }

    /** The middle of cleanup: the final state and its callback. */
    method EndState()
      requires Valid()
      modifies this
      ensures Valid() && View() == Ended(old(View()))
      ensures state == Closed || state == Failed
    {
      state := if state == Handshaking then Failed else Closed;
      connectTimer := false;
      if hasState {
        notes := notes + [state];
      }
    }

    /** The end of cleanup: a reconnect, or the end of the connection. */
    method DetachChannel()
      requires Valid() && health == Sound && !Live(View())
      modifies this
      ensures Valid() && View() == Detach(old(View()))
    {
      hide Reconnect;
      if reconnects && !exited {
        DoReconnect();
      } else if idle == Erased {
        health := Faulted;
      } else {
        EndForGood();
      }
    }

    /** The callbacks and idle nodes go, and the channel with them. */
    method EndForGood()
      requires Valid()
      modifies this`idle, this`hasRead, this`hasState, this`hasWritable, this`channel
      ensures Valid()
      ensures View() ==
        var d := old(View());
        d.(link := d.link.(idle := if d.link.idle == Registered then Erased else d.link.idle),
           hooks := d.hooks.(hasRead := false, hasState := false, hasWritable := false), channel := Null)
    {
      if idle == Registered {
        idle := Erased;
      }
      hasRead, hasState, hasWritable := false, false, false;
      // The channel is taken off before it is closed, and its read callback finds a closed or failed connection.
      channel := Null;
      assert input.Contents() == old(input.Contents());
    }

    method DoReconnect()
      requires Valid() && health == Sound && !Live(View())
      modifies this`waiting, this`retries, this`health, this`channel
      ensures Valid() && View() == Reconnect(old(View()))
    {
      hide Close;
      waiting, retries := true, retries + 1;
      if channel == Null {
        health := Faulted;
      } else {
        CloseEnded();
        channel := Null;
      }
      assert input.Contents() == old(input.Contents());
    }

    /** `channel_->close()` on a closed or failed connection, whose read callback then does nothing. */
    method CloseEnded()
      requires Valid() && !Live(View()) && channel != Null
      modifies this`channel
      ensures Valid() && channel == Chan(false) && Walk(View(), []) == Close(old(View()), [])
    {
      CloseOfDead(View(), []);
      hide Close;
      if channel.open {
        channel := Chan(false);
      }
    }

    /** The rest of a user callback, deed by deed. */
    method RunReaction(does: seq<Deed>, acts: seq<Act>) returns (left: seq<Act>)
      requires Valid() && health == Sound
      modifies this, input
      ensures Shrinks()
      ensures Walk(View(), left) == React(old(View()), does, acts)
      decreases Nesting(acts), 5, 0
    {
      hide DoDeed, React;
      left := acts;
      var i := 0;
      assert does[0..] == does;
      while i < |does|
        invariant 0 <= i <= |does| && Shrinks() && health == Sound
        invariant Nesting(left) <= old(Nesting(acts))
        invariant React(View(), does[i..], left) == React(old(View()), does, acts)
      {
        ghost var c, before := View(), left;
        left := RunDeed(does[i], left);
        ReactTurn(c, does[i..], before, Walk(View(), left));
        assert does[i..][1..] == does[i + 1..];
        if health != Sound {
          return;
        }
        i := i + 1;
      }
      assert does[i..] == [];
      ReactStop(View(), left);
    }

    /** closeNow and the sends look at the channel first, and at the descriptor not at all. */
    method RunDeed(d: Deed, acts: seq<Act>) returns (left: seq<Act>)
      requires Valid() && health == Sound
      modifies this, input
      ensures Shrinks()
      ensures Walk(View(), left) == DoDeed(old(View()), d, acts)
      decreases Nesting(acts), 4, 1
    {
      hide Close, Cleanup, Attempt;
      left := acts;
      if d.CloseNow? {
        if channel == Chan(false) { CloseOfClosed(View(), acts); }
        if channel != Null {
          left := ChannelClose(acts);
        }
      } else {
        left := RunSend(d, acts);
      }
    }

    /**
     * A send: a reset leads to cleanup, and switching write interest on asks the poller, whose fatal check fails on a
     * closed descriptor.
     */
    method RunSend(d: Deed, acts: seq<Act>) returns (left: seq<Act>)
      requires Valid() && health == Sound && d.Send?
      modifies this, input
      ensures Shrinks()
      ensures Walk(View(), left) == DoDeed(old(View()), d, acts)
      decreases Nesting(acts), 4, 0
    {
      hide Close, Cleanup, S.Do;
      left := acts;
      ghost var c := View();
      var half := S.Out(channel != Null, out.interest, out.queue, out.wire, false);
      var answers := if channel != Chan(true) then [S.Other] else if out.broken then [S.Reset] else d.writes;
      var o := S.Do(half, d.op, answers).out;
      var reset := channel != Null && !o.open;
      if channel == Chan(false) && !out.interest && o.interest && !reset {
        health := Aborted;
        return;
      }
      out := Outgoing(o.interest, o.queue, o.wire, out.handed + S.Payload(d.op),
                      out.clean && (channel == Chan(true) ==> S.Clean(d.writes)), out.broken || reset);
      assert View() == After(c, d);
      if reset {
        left := DoCleanup(acts);
      }
    }

    /** A state callback or a writable callback. */
    method RunCallback(acts: seq<Act>) returns (left: seq<Act>)
      requires Valid() && health == Sound
      modifies this, input
      ensures Shrinks()
      ensures Walk(View(), left) == RunAct(old(View()), acts)
    {
      hide React;
      if acts == [] {
        health := Unfinished;
        return [];
      }
      left := RunReaction(acts[0].does, acts[1..]);
    }

    method HandleHandshake(ok: bool, acts: seq<Act>) returns (failed: bool, left: seq<Act>)
      requires Valid() && health == Sound && state == Handshaking
      modifies this, input
      ensures Shrinks()
      ensures Walk(View(), left) == Handshake(old(View()), ok, acts) && failed == !ok
    {
      hide RunAct, Cleanup;
      if ok {
        state := Connected;
        out := out.(interest := false, clean := out.clean && |out.queue| == 0);
        left := acts;
        if hasState {
          notes := notes + [Connected];
        }
        assert View() == Greet(old(View()));
        if hasState {
          left := RunCallback(acts);
        }
        return false, left;
      }
      left := DoCleanup(acts);
      return true, left;
    }

    /** The read event: the handshake first if there is one, then everything the socket has, then the read callback. */
    method HandleRead(shook: bool, script: seq<ReadResult>, acts: seq<Act>)
      requires Valid() && health == Sound && (Live(View()) ==> HasOpen())
      modifies Repr()
      ensures Valid() && fresh(Repr() - old(Repr()))
      ensures View() == Read(old(View()), Readable(shook, Received(script), HangsUp(script), acts))
    {
      hide Handshake, ReadConnected, Received, HangsUp;
      var left := acts;
      if state == Handshaking {
        HandshakeStaysOpen(View(), shook, acts);
        var failed;
        failed, left := HandleHandshake(shook, acts);
        if failed || health != Sound {
          return;
        }
      }
      if state == Connected {
        ReadAll(script, left);
      }
    }

    /** The read loop and what follows it: cleanup when the stream has ended, and else the read callback. */
    method ReadAll(script: seq<ReadResult>, acts: seq<Act>)
      requires Valid() && health == Sound && HasOpen()
      modifies Repr()
      ensures Valid() && fresh(Repr() - old(Repr()))
      ensures View() == ReadConnected(old(View()), Received(script), HangsUp(script), acts).c
    {
      hide Lifecycle.ReadCallback, Cleanup;
      var hungUp := ReadLoop(input, script);
      stream := stream + Received(script);
      assert View() == Receive(old(View()), Received(script));
      if hungUp {
        var _ := DoCleanup(acts);
      } else if hasRead && input.Length() > 0 {
        var _ := ReadCallback(acts);
      }
    }

    /** The write event. */
    method HandleWrite(shook: bool, writes: seq<S.WriteResult>, acts: seq<Act>)
      requires Valid() && health == Sound && (Live(View()) ==> HasOpen())
      modifies this, input
      ensures Shrinks()
      ensures View() == Write(old(View()), Writable(shook, writes, acts))
    {
      hide Handshake, WriteConnected;
      if state == Handshaking {
        var _, _ := HandleHandshake(shook, acts);
      } else if state == Connected {
        FlushAndCall(writes, acts);
      }
    }

    /** Flushes the queue, runs the writable callback once it is empty, and switches write interest off after that. */
    method FlushAndCall(writes: seq<S.WriteResult>, acts: seq<Act>)
      requires Valid() && health == Sound && HasOpen()
      modifies this, input
      ensures Shrinks()
      ensures View() == WriteConnected(old(View()), writes, acts)
    {
      hide Cleanup, RunAct;
      var reset := FlushQueue(writes);
      if reset {
        var _ := DoCleanup(acts);
        return;
      }
      if |out.queue| == 0 && hasWritable {
        var _ := RunCallback(acts);
      }
      if health == Sound && |out.queue| == 0 {
        SwitchInterestOff();
      }
    }

    /** `channel_->enableWrite(false)` through a pointer that may be null. */
    method SwitchInterestOff()
      requires Valid()
      modifies this`health, this`out
      ensures Valid()
      ensures View() ==
        var c := old(View());
        if c.channel == Null then Fault(c) else c.(out := c.out.(interest := false))
    {
      if channel == Null {
        health := Faulted;
      } else {
        out := out.(interest := false);
      }
    }

    method FlushQueue(writes: seq<S.WriteResult>) returns (reset: bool)
      requires Valid() && HasOpen()
      modifies this`out
      ensures Valid() && View() == Flushed(old(View()), writes) && reset == FlushResets(old(View()), writes)
    {
      hide S.WriteQueue;
      var half := S.Out(true, out.interest, out.queue, out.wire, false);
      var o := S.WriteQueue(half, if out.broken then [S.Reset] else writes).out;
      reset := !o.open;
      out := Outgoing(o.interest, o.queue, o.wire, out.handed, out.clean && S.Clean(writes), out.broken || reset);
    }
  }
}
