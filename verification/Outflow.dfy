/** What a connection's output side keeps over whole runs, whatever its callbacks do inside one another. */
module Outflow {
  import opened Bytes
  import opened Codecs
  import opened Lifecycle
  import opened Reentry
  import S = Sending

  /**
   * While the records say that the output side is clean: on a socket that can still write, what is on the wire and
   * what is queued are what was handed over, in order, and no queued byte is stranded; otherwise a prefix is on the
   * wire.
   */
  predicate Kept(c: Conn) {
    c.out.clean ==>
      if IsOpen(c) && !c.out.broken then S.Flowing(Half(c)) && S.Conserves(Half(c), c.out.handed)
      else c.out.wire <= c.out.handed
  }

  lemma KeptAlike(c: Conn, d: Conn)
    requires Kept(c) && d.out == c.out && (IsOpen(d) ==> IsOpen(c))
    ensures Kept(d)
  {
    if IsOpen(c) && !c.out.broken && c.out.clean { PrefixOfAll(c.out.wire, c.out.queue); }
  }

  lemma PrefixOfAll(a: bytes, b: bytes)
    ensures a <= a + b
  {
  }

  // ----- Sending -----

  /** A write that fails at once takes nothing. */
  lemma FailedTakesNothing(o: S.Out, op: S.SendOp, r: S.WriteResult)
    requires r == S.Other || r == S.Reset
    ensures S.Do(o, op, [r]).out.wire == o.wire
  {
    FailedWrite(o.interest, |S.Payload(op)|, r);
    FailedWrite(false, |S.Payload(op)|, r);
    FailedWrite(o.interest, |o.queue|, r);
    FailedWrite(o.interest, |o.queue + S.Payload(op)|, r);
    assert forall s: bytes | |s| >= 0 :: o.wire + s[..0] == o.wire;
    hide S.ISend, Encode;
  }

  lemma FailedWrite(interest: bool, len: nat, r: S.WriteResult)
    requires r == S.Other || r == S.Reset
    ensures S.ISend(interest, len, [r]).n == 0
  {
  }

  lemma PrefixGrows(a: bytes, b: bytes, c: bytes)
    requires a <= b
    ensures a <= b + c
  {
  }

  lemma AfterKeeps(c: Conn, d: Deed)
    requires Kept(c)
    ensures Kept(After(c, d))
  {
    hide S.Do, S.Flowing, S.Conserves, S.Clean;
    if d.Send? && c.out.clean {
      if IsOpen(c) && !c.out.broken { OpenSendKeeps(c, d); } else { FailedSendKeeps(c, d); }
    }
  }

  lemma OpenSendKeeps(c: Conn, d: Deed)
    requires d.Send? && IsOpen(c) && !c.out.broken && S.Flowing(Half(c)) && S.Conserves(Half(c), c.out.handed)
    ensures Kept(After(c, d))
  {
    hide S.Do, S.Clean, S.Payload;
    if S.Clean(d.writes) { S.DoConserves(Half(c), d.op, d.writes, c.out.handed); }
  }

  lemma FailedSendKeeps(c: Conn, d: Deed)
    requires d.Send? && (!IsOpen(c) || c.out.broken) && c.out.wire <= c.out.handed
    ensures Kept(After(c, d))
  {
    FailedTakesNothing(Half(c), d.op, if IsOpen(c) then S.Reset else S.Other);
    PrefixGrows(c.out.wire, c.out.handed, S.Payload(d.op));
    hide S.Do, S.Payload, S.Clean;
  }

  lemma FlushedKeeps(c: Conn, writes: seq<S.WriteResult>)
    requires Kept(c) && IsOpen(c)
    ensures Kept(Flushed(c, writes))
  {
    if c.out.clean {
      PrefixOfAll(c.out.wire, c.out.queue);
      if c.out.broken {
        FailedWrite(c.out.interest, |c.out.queue|, S.Reset);
        assert c.out.wire + c.out.queue[..0] == c.out.wire;
      } else if S.Clean(writes) {
        S.WriteQueueConserves(Half(c), writes, c.out.handed);
        hide S.WriteQueue;
      }
    }
  }

  // ----- Callbacks inside callbacks -----

  lemma {:induction false} ReactKeeps(c: Conn, does: seq<Deed>, acts: seq<Act>)
    requires Kept(c)
    ensures Kept(React(c, does, acts).c)
    decreases Fuel(c, acts), 5, |does|
  {
    hide React, DoDeed, Kept;
    if does == [] {
      ReactStop(c, acts);
    } else {
      var w := DoDeed(c, does[0], acts);
      ReactTurn(c, does, acts, w);
      DeedKeeps(c, does[0], acts);
      if w.c.health == Sound { ReactKeeps(w.c, does[1..], w.acts); }
    }
  }

  lemma {:induction false} DeedKeeps(c: Conn, d: Deed, acts: seq<Act>)
    requires Kept(c)
    ensures Kept(DoDeed(c, d, acts).c)
    decreases Fuel(c, acts), 4
  {
    AfterKeeps(c, d);
    AfterIs(c, d);
    hide Kept, After, Closes, Resets, Aborts, Close, Cleanup;
    KeptAlike(c, Abort(c));
    if Closes(c, d) {
      CloseKeeps(c, acts);
    } else if Resets(c, d) {
      CleanupKeeps(After(c, d), acts);
    }
  }

  lemma {:induction false} CloseKeeps(c: Conn, acts: seq<Act>)
    requires Kept(c)
    ensures Kept(Close(c, acts).c)
    decreases Fuel(c, acts), 0
  {
    hide Kept, Cleanup;
    KeptAlike(c, Fault(c));
    KeptAlike(c, c.(channel := Chan(false)));
    if IsOpen(c) && Live(c) { CleanupKeeps(c.(channel := Chan(false)), acts); }
  }

  lemma FinishKeeps(c: Conn)
    requires Kept(c)
    ensures Kept(Finish(c))
  {
    assert Finish(c).out == c.out;
    hide Kept, Finish;
    KeptAlike(c, Finish(c));
  }

  lemma {:induction false} CleanupKeeps(c: Conn, acts: seq<Act>)
    requires Kept(c)
    ensures Kept(Cleanup(c, acts).c)
    decreases Fuel(c, acts), 3
  {
    CleanupUnfolds(c, acts);
    hide Kept, Cleanup, ReadCallback, Finish;
    CallbackKeeps(c, acts);
    var w := if c.hooks.hasRead && c.intake.input != [] then ReadCallback(c, acts) else Walk(c, acts);
    FinishKeeps(w.c);
  }

  lemma {:induction false} CallbackKeeps(c: Conn, acts: seq<Act>)
    requires Kept(c)
    ensures Kept(ReadCallback(c, acts).c)
    decreases Fuel(c, acts), 2
  {
    hide Kept, React, MessageLoop;
    KeptAlike(c, TooFew(c).c);
    if c.hooks.reader.Messages? {
      LoopKeeps(c, c.hooks.reader.codec, acts);
    } else if c.hooks.reader == Raw && acts != [] {
      KeptAlike(c, Took(c, acts[0]));
      ReactKeeps(Took(c, acts[0]), acts[0].does, acts[1..]);
    }
  }

  lemma ConsumedKeeps(c: Conn, n: nat)
    requires Kept(c)
    ensures Kept(Consumed(c, n))
  {
    hide Kept;
    KeptAlike(c, Consumed(c, n));
  }

  lemma {:induction false} LoopKeeps(c: Conn, codec: Codec, acts: seq<Act>)
    requires Kept(c)
    ensures Kept(MessageLoop(c, codec, acts).c)
    decreases Fuel(c, acts), 1
  {
    hide Kept, React, MessageLoop, Close, Decode, Consumed, Delivered;
    var o := Decode(codec, c.intake.input);
    if o.Frame? && acts != [] {
      var d := Delivered(c, o.msg);
      DeliveredKeeps(c, o.msg);
      var w := React(d, acts[0].does, acts[1..]);
      MessageLoopTurn(c, codec, acts, o, w);
      ReactKeeps(d, acts[0].does, acts[1..]);
      ConsumedKeeps(w.c, o.size);
      var e := Consumed(w.c, o.size);
      if e.health == Sound { LoopKeeps(e, codec, w.acts); }
    } else if o.Frame? {
      MessageLoopShort(c, codec);
      ShortKeeps(c);
    } else {
      CloseKeeps(c, acts);
      LoopEndKeeps(c, codec, acts);
    }
  }

  lemma ShortKeeps(c: Conn)
    requires Kept(c)
    ensures Kept(TooFew(c).c) && Kept(Fault(c))
  {
    hide Kept;
    KeptAlike(c, TooFew(c).c);
    KeptAlike(c, Fault(c));
  }

  lemma DeliveredKeeps(c: Conn, m: bytes)
    requires Kept(c)
    ensures Kept(Delivered(c, m)) && Delivered(c, m).channel == c.channel
  {
    hide Kept;
    KeptAlike(c, Delivered(c, m));
  }

  lemma LoopEndKeeps(c: Conn, codec: Codec, acts: seq<Act>)
    requires Kept(c) && Kept(Close(c, acts).c) && !Decode(codec, c.intake.input).Frame?
    ensures Kept(MessageLoop(c, codec, acts).c)
  {
    hide Kept, MessageLoop, Close, Decode, Fault;
    ShortKeeps(c);
    MessageLoopStop(c, codec, acts);
  }

  // ----- Events -----

  lemma RunActKeeps(c: Conn, acts: seq<Act>)
    requires Kept(c)
    ensures Kept(RunAct(c, acts).c)
  {
    hide Kept, React;
    KeptAlike(c, TooFew(c).c);
    if acts != [] { ReactKeeps(c, acts[0].does, acts[1..]); }
  }

  lemma HandshakeKeeps(c: Conn, ok: bool, acts: seq<Act>)
    requires Kept(c) && IsOpen(c)
    ensures Kept(Handshake(c, ok, acts).c)
  {
    assert Kept(Greet(c)) by { assert c.out.wire + [] == c.out.wire; }
    hide Kept, RunAct, Cleanup, Greet;
    RunActKeeps(Greet(c), acts);
    CleanupKeeps(c, acts);
  }

  lemma ReadConnectedKeeps(c: Conn, data: bytes, end: bool, acts: seq<Act>)
    requires Kept(c)
    ensures Kept(ReadConnected(c, data, end, acts).c)
  {
    hide Kept, Cleanup, ReadCallback;
    var f := Receive(c, data);
    KeptAlike(c, f);
    CleanupKeeps(f, acts);
    CallbackKeeps(f, acts);
  }

  lemma WriteConnectedKeeps(c: Conn, writes: seq<S.WriteResult>, acts: seq<Act>)
    requires Kept(c) && IsOpen(c)
    ensures Kept(WriteConnected(c, writes, acts))
  {
    FlushedKeeps(c, writes);
    var f := Flushed(c, writes);
    hide Flushed, FlushResets, RunAct, Cleanup, Kept;
    CleanupKeeps(f, acts);
    RunActKeeps(f, acts);
    var d := if f.out.queue == [] && f.hooks.hasWritable then RunAct(f, acts).c else f;
    KeptAlike(d, Fault(d));
    if d.out.queue == [] { QuietKeeps(d); }
  }

  lemma QuietKeeps(c: Conn)
    requires Kept(c) && c.out.queue == []
    ensures Kept(c.(out := c.out.(interest := false)))
  {
  }

  /** Between events a sound connection that is live has an open socket that can write, and others have no channel. */
  predicate AtRest(c: Conn) {
    c.health == Sound ==>
      (c.channel != Null ==> Live(c)) && (Live(c) ==> IsOpen(c) && !c.out.broken)
  }

  lemma ComesToRest(c: Conn, d: Conn)
    requires c.health == Sound && AtRest(c) && (d.health == Sound ==> Comes(c, d))
    ensures AtRest(d)
  {
  }

  lemma ReactRests(c: Conn, does: seq<Deed>, acts: seq<Act>)
    requires c.health == Sound && AtRest(c)
    ensures AtRest(React(c, does, acts).c)
  {
    hide React, Comes;
    ReactOutcome(c, does, acts);
    ReactComes(c, does, React(c, does, acts));
    ComesToRest(c, React(c, does, acts).c);
  }

  lemma CleanupRests(c: Conn, acts: seq<Act>)
    requires Ready(c)
    ensures AtRest(Cleanup(c, acts).c)
  {
    hide Cleanup;
    CleanupOutcome(c, acts);
  }

  lemma CallbackRests(c: Conn, acts: seq<Act>)
    requires c.health == Sound && AtRest(c)
    ensures AtRest(ReadCallback(c, acts).c)
  {
    hide ReadCallback, Comes;
    CallbackOutcome(c, acts);
    ComesToRest(c, ReadCallback(c, acts).c);
  }

  lemma RunActRests(c: Conn, acts: seq<Act>)
    requires c.health == Sound && AtRest(c)
    ensures AtRest(RunAct(c, acts).c)
  {
    hide React;
    if acts != [] { ReactRests(c, acts[0].does, acts[1..]); }
  }

  lemma HandshakeRests(c: Conn, ok: bool, acts: seq<Act>)
    requires c.health == Sound && AtRest(c) && c.state == Handshaking
    ensures AtRest(Handshake(c, ok, acts).c)
  {
    hide RunAct, Cleanup;
    RunActRests(Greet(c), acts);
    CleanupRests(c, acts);
  }

  lemma ReadConnectedRests(c: Conn, data: bytes, end: bool, acts: seq<Act>)
    requires c.health == Sound && AtRest(c)
    ensures AtRest(ReadConnected(c, data, end, acts).c)
  {
    hide Cleanup, ReadCallback;
    var f := Receive(c, data);
    CleanupRests(f, acts);
    CallbackRests(f, acts);
  }

  lemma WriteConnectedRests(c: Conn, writes: seq<S.WriteResult>, acts: seq<Act>)
    requires c.health == Sound && AtRest(c) && Live(c)
    ensures AtRest(WriteConnected(c, writes, acts))
  {
    hide Flushed, FlushResets, RunAct, Cleanup;
    var f := Flushed(c, writes);
    FlushedIs(c, writes);
    FlushedCalm(c, writes);
    if FlushResets(c, writes) { CleanupRests(f, acts); } else { RunActRests(f, acts); }
  }

  lemma FlushedCalm(c: Conn, writes: seq<S.WriteResult>)
    ensures !FlushResets(c, writes) ==> Flushed(c, writes).out.broken == c.out.broken
  {
  }

  predicate Good(c: Conn) { Kept(c) && AtRest(c) }

  lemma ReadIsGood(c: Conn, e: Event)
    requires Good(c) && c.health == Sound && e.Readable?
    ensures Good(Read(c, e))
  {
    hide Kept, AtRest, Handshake, ReadConnected;
    assert Live(c) ==> IsOpen(c) by { if Live(c) { LiveIsOpen(c); } }
    if c.state == Handshaking {
      HandshakeKeeps(c, e.shook, e.acts);
      HandshakeRests(c, e.shook, e.acts);
    }
    var w := if c.state == Handshaking then Handshake(c, e.shook, e.acts) else Walk(c, e.acts);
    if w.c.health == Sound {
      ReadConnectedKeeps(w.c, e.data, e.end, w.acts);
      ReadConnectedRests(w.c, e.data, e.end, w.acts);
    }
  }

  lemma LiveIsOpen(c: Conn)
    requires AtRest(c) && c.health == Sound && Live(c)
    ensures IsOpen(c) && !c.out.broken
  {
  }

  lemma WriteIsGood(c: Conn, e: Event)
    requires Good(c) && c.health == Sound && e.Writable?
    ensures Good(Write(c, e))
  {
    hide Kept, AtRest, Handshake, WriteConnected;
    assert Live(c) ==> IsOpen(c) by { if Live(c) { LiveIsOpen(c); } }
    if c.state == Handshaking {
      HandshakeKeeps(c, e.shook, e.acts);
      HandshakeRests(c, e.shook, e.acts);
    } else if c.state == Connected {
      WriteConnectedKeeps(c, e.writes, e.acts);
      WriteConnectedRests(c, e.writes, e.acts);
    }
  }

  lemma StepIsGood(c: Conn, e: Event)
    requires Good(c) && c.health == Sound && Possible(c, e)
    ensures Good(Step(c, e))
  {
    hide Read, Write, React, Close;
    match e
    case Readable(_, _, _, _) => ReadIsGood(c, e);
    case Writable(_, _, _) => WriteIsGood(c, e);
    case User(does, acts) =>
      ReactKeeps(c, does, acts);
      ReactRests(c, does, acts);
    case ConnectTimeout(acts) => TimeoutIsGood(c, acts);
    case _ => QuietStepIsGood(c, e);
  }

  lemma TimeoutIsGood(c: Conn, acts: seq<Act>)
    requires Good(c) && c.health == Sound && Possible(c, ConnectTimeout(acts))
    ensures Good(Step(c, ConnectTimeout(acts)))
  {
    hide Close, React, Kept;
    var d := c.(link := c.link.(connectTimer := false));
    KeptAlike(c, d);
    CloseKeeps(d, acts);
    if d.state == Handshaking {
      OpenCloseIsReact(d, acts);
      ReactRests(d, [CloseNow], acts);
    }
  }

  lemma QuietStepIsGood(c: Conn, e: Event)
    requires Good(c) && c.health == Sound && Possible(c, e)
    requires Attaches(e) || e.SetReconnect? || e.AddIdle? || e.Exit?
    ensures Good(Step(c, e))
  {
    hide Read, Write, React, Close;
    assert [] + c.out.queue == c.out.queue;
    hide S.Flowing, S.Conserves;
    if !Attaches(e) { KeptAlike(c, Step(c, e)); }
  }

  lemma {:induction false} RunIsGood(c: Conn, events: seq<Event>)
    requires Good(c) && PossibleRun(c, events)
    ensures Good(Run(c, events))
    decreases |events|
  {
    hide Good, Step, Possible;
    if events != [] {
      StepIsGood(c, events[0]);
      RunIsGood(Step(c, events[0]), events[1..]);
    }
  }

  /**
   * In every run, tame or not: as long as the handshake has found nothing queued and no write has failed in a way that
   * the write loop does not tell apart, the bytes of a live connection that are on the wire and those that are queued
   * are what has been handed over, in order, and queued bytes wait for a write event; and of a connection that has gone
   * a prefix is on the wire.
   */
  lemma EveryRunConserves(start: Conn, events: seq<Event>)
    requires start == New(start.hooks.hasState, start.hooks.hasWritable, start.hooks.reader, start.link.reconnects)
    requires PossibleRun(start, events)
    ensures
      var c := Run(start, events);
      c.out.clean ==>
        if c.health == Sound && Live(c) then
          c.out.wire + c.out.queue == c.out.handed && (c.out.queue != [] ==> c.out.interest)
        else
          c.out.wire <= c.out.handed
  {
    assert Good(start);
    RunIsGood(start, events);
    var c := Run(start, events);
    hide Run;
    PrefixOfAll(c.out.wire, c.out.queue);
  }
}
