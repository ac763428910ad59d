/** What comes of callbacks that send on a closed descriptor or close in place: exact conditions and concrete runs. */
module Mishaps {
  import opened Bytes
  import opened ByteOrder
  import opened Codecs
  import opened Framing
  import opened Lifecycle
  import opened Reentry
  import S = Sending

  // ----- Sending on a closed descriptor -----

  lemma StuckSend(interest: bool, len: nat)
    ensures S.ISend(interest, len, [S.Other]) == S.Sent(0, false, len > 0, interest, if len > 0 then [] else [S.Other])
  {
  }

  /**
   * Exactly which sends stop the program: with write interest off, those of a buffer or of what is printed that find
   * something to write, because they switch it on for a descriptor the poller does not know any more. A byte range is
   * only queued.
   */
  lemma AbortsExactly(c: Conn, op: S.SendOp, writes: seq<S.WriteResult>)
    ensures Aborts(c, Send(op, writes)) <==>
      && c.channel == Chan(false) && !c.out.interest && !op.Bytes?
      && (if op.Buf? then op.data else c.out.queue + S.Payload(op)) != []
  {
    if c.channel == Chan(false) {
      StuckSend(c.out.interest, |S.Payload(op)|);
      StuckSend(c.out.interest, |c.out.queue + S.Payload(op)|);
      assert op.Flush? ==> c.out.queue + S.Payload(op) == c.out.queue;
    }
    hide S.ISend, Encode;
  }

  // ----- A message callback that closes at once -----

  /** Deeds in a row, the first of them gentle. */
  lemma {:induction false} ReactOn(c: Conn, a: seq<Deed>, b: seq<Deed>, acts: seq<Act>)
    requires c.health == Sound && Gentle(c, a)
    ensures React(c, a + b, acts) == React(Sent(c, a), b, acts)
    decreases |a|
  {
    hide React, DoDeed, After, Closes, Resets, Aborts;
    if a == [] {
      assert a + b == b;
    } else {
      assert (a + b)[0] == a[0] && (a + b)[1..] == a[1..] + b;
      AfterIs(c, a[0]);
      DoDeedGently(c, a[0], acts);
      ReactTurn(c, a + b, acts, Walk(After(c, a[0]), acts));
      ReactOn(After(c, a[0]), a[1..], b, acts);
    }
  }

  /** The connection a callback has sent on and then closed. */
  function ClosedAfter(c: Conn, sends: seq<Deed>): Conn { Sent(c, sends).(channel := Chan(false)) }

  lemma ClosingReaction(c: Conn, sends: seq<Deed>, acts: seq<Act>)
    requires Ready(c) && IsOpen(c) && Gentle(c, sends)
    ensures React(c, sends + [CloseNow], acts) == Cleanup(ClosedAfter(c, sends), acts)
  {
    ReactOn(c, sends, [CloseNow], acts);
    SentIs(c, sends);
    OpenCloseIsReact(Sent(c, sends), acts);
    hide React, Sent, Cleanup;
  }

  /** A loop on a closed descriptor that comes through has had gentle callbacks only. */
  lemma {:induction false} ClosedLoopIsGentle(c: Conn, codec: Codec, acts: seq<Act>)
    requires Ready(c) && !IsOpen(c)
    ensures Sounds(MessageLoop(c, codec, acts)) ==> Inert(c, acts, Frames(codec, c.intake.input))
    decreases |acts|
  {
    hide React, Close, Decode, Frames, MessageLoop, Gentle, Sent, Inert, Consumed;
    FramesOf(codec, c.intake.input);
    NoneInert(c, acts);
    var o := Decode(codec, c.intake.input);
    if o.Frame? && acts != [] {
      var d := Delivered(c, o.msg);
      var w := React(d, acts[0].does, acts[1..]);
      MessageLoopTurn(c, codec, acts, o, w);
      ReactOutcome(d, acts[0].does, acts[1..]);
      GentleAlike(c, d, acts[0].does);
      var e := Consumed(w.c, o.size);
      ConsumedIs(w.c, o.size);
      if e.health == Sound {
        SentIs(d, acts[0].does);
        GentleTurn(c, d, acts, Frames(codec, c.intake.input), w, o.size);
        ClosedLoopIsGentle(e, codec, w.acts);
      }
    } else if o.Frame? {
      MessageLoopShort(c, codec);
    }
  }

  /** What the loop of such a connection comes to when the callbacks after the closing one are gentle. */
  lemma ClosingCallback(c: Conn, codec: Codec, sends: seq<Deed>, acts: seq<Act>) returns (d: Conn)
    requires Core(c) && c.state == Connected && c.hooks.reader == Messages(codec)
      && Decode(codec, c.intake.input).Frame?
    requires Pump(codec, c.intake.input).status != Undefined
    requires acts != [] && acts[0].does == sends + [CloseNow] && Gentle(c, sends)
    requires Inert(ClosedAfter(c, sends), acts[1..], Frames(codec, c.intake.input))
    ensures |acts| > Frames(codec, c.intake.input)
    ensures
      var o, p := Decode(codec, c.intake.input), Pump(codec, c.intake.input);
      && d.channel == Null && d.health == Sound && d.intake.input == p.rest && !Live(d)
        && (Reconnecting(c) ==> d.link.waiting)
      && d.intake.delivered == c.intake.delivered + [o.msg] + p.msgs
      && MessageLoop(c, codec, acts) ==
           var rest := acts[1 + |p.msgs|..];
           var e := Consumed(d, o.size);
           if e.health != Sound then Walk(e, rest) else MessageLoop(e, codec, rest)
  {
    hide Pump, Decode, Finish, MessageLoop, Cleanup, Gentle, Sent, Inert, SentBy, React;
    var o, p := Decode(codec, c.intake.input), Pump(codec, c.intake.input);
    var e := Delivered(c, o.msg);
    var f, f0 := ClosedAfter(e, sends), ClosedAfter(c, sends);
    GentleAlike(c, e, sends);
    SentIs(e, sends);
    SentIs(c, sends);
    InertAlike(f0, f, acts[1..], Frames(codec, c.intake.input));
    ClosingReaction(e, sends, acts[1..]);
    PumpRest(codec, c.intake.input);
    CleanupUnfolds(f, acts[1..]);
    QuietLoop(f, codec, acts[1..]);
    var g := Looped(f, p, SentBy(f, acts[1..], |p.msgs|).out);
    ClosedDrain(f, g, codec, acts[1..]);
    d := Finish(g);
    assert acts[1..][|p.msgs|..] == acts[1 + |p.msgs|..];
    MessageLoopTurn(c, codec, acts, o, Walk(d, acts[1 + |p.msgs|..]));
  }

  /** The cleanup of the closed connection, once its loop is over. */
  lemma ClosedDrain(f: Conn, g: Conn, codec: Codec, acts: seq<Act>)
    requires LiveCore(f) && f.channel == Chan(false) && f.hooks.reader == Messages(codec) && f.hooks.hasRead
      && f.intake.input != []
    requires Inert(f, acts, Frames(codec, f.intake.input)) && Frames(codec, f.intake.input) <= |acts|
    requires var p := Pump(codec, f.intake.input);
      p.status != Undefined
      && g == Looped(f, p, SentBy(f, acts, |p.msgs|).out)
    ensures Cleanup(f, acts) == Walk(Finish(g), acts[Frames(codec, f.intake.input)..])
    ensures
      var d := Finish(g);
      && d.channel == Null && d.health == Sound && SameInput(g, d) && !Live(d)
      && (Reconnecting(f) ==> d.link.waiting)
  {
    CleanupUnfolds(f, acts);
    QuietLoop(f, codec, acts);
    FinishEndsWell(g);
    var rest := acts[Frames(codec, f.intake.input)..];
    CloseOfClosed(g, rest);
    hide Pump, MessageLoop, Cleanup, Inert, SentBy, Close;
  }

  /**
   * So a message callback that closes at once, after any sends of its own, always has its message handed out again;
   * and no further harm is done exactly when none of the callbacks that then run on the closed descriptor switches
   * write interest on, and the bytes left behind all messages reach beyond a second copy of its frame and hold nothing
   * malformed there.
   */
  lemma ClosingCallbackFaultsExactly(c: Conn, codec: Codec, sends: seq<Deed>, acts: seq<Act>)
    requires Core(c) && c.state == Connected && c.hooks.reader == Messages(codec)
      && Decode(codec, c.intake.input).Frame?
    requires Pump(codec, c.intake.input).status != Undefined
    requires acts != [] && acts[0].does == sends + [CloseNow] && Gentle(c, sends)
    requires |acts| > Frames(codec, c.intake.input) + |c.intake.input|
    ensures
      var o, p, d := Decode(codec, c.intake.input), Pump(codec, c.intake.input), MessageLoop(c, codec, acts).c;
      var gentle := Inert(ClosedAfter(c, sends), acts[1..], |p.msgs|);
      && (gentle ==> c.intake.delivered + [o.msg] + p.msgs <= d.intake.delivered)
      && (d.health == Sound <==>
            gentle && |p.rest| >= o.size && Pump(codec, p.rest[o.size..]).status == Waiting)
  {
    hide Pump, MessageLoop, Decode, Core, Inert, Gentle, Sent;
    var o, p := Decode(codec, c.intake.input), Pump(codec, c.intake.input);
    if Inert(ClosedAfter(c, sends), acts[1..], |p.msgs|) {
      var d := ClosingCallback(c, codec, sends, acts);
      if |p.rest| >= o.size {
        var tail := p.rest[o.size..];
        FewFrames(codec, tail);
        RestIsShorter(codec, c.intake.input);
        LoopWithoutChannel(Consumed(d, o.size), codec, acts[1 + |p.msgs|..]);
      }
    } else {
      UngentleClosing(c, codec, sends, acts);
    }
  }

  lemma UngentleClosing(c: Conn, codec: Codec, sends: seq<Deed>, acts: seq<Act>)
    requires Core(c) && c.state == Connected && c.hooks.reader == Messages(codec)
      && Decode(codec, c.intake.input).Frame?
    requires acts != [] && acts[0].does == sends + [CloseNow] && Gentle(c, sends)
    requires !Inert(ClosedAfter(c, sends), acts[1..], Frames(codec, c.intake.input))
    ensures MessageLoop(c, codec, acts).c.health != Sound
  {
    hide Pump, MessageLoop, Decode, Inert, Gentle, Sent, React, Cleanup, Finish;
    var o := Decode(codec, c.intake.input);
    var e := Delivered(c, o.msg);
    GentleAlike(c, e, sends);
    SentIs(c, sends);
    SentIs(e, sends);
    ClosingReaction(e, sends, acts[1..]);
    var f := ClosedAfter(e, sends);
    InertAlike(ClosedAfter(c, sends), f, acts[1..], Frames(codec, c.intake.input));
    ClosedLoopIsGentle(f, codec, acts[1..]);
    CleanupUnfolds(f, acts[1..]);
    MessageLoopTurn(c, codec, acts, o, Cleanup(f, acts[1..]));
  }

  /** Once the channel is gone, callbacks can do no harm but malformed input does. */
  lemma LoopWithoutChannel(c: Conn, codec: Codec, acts: seq<Act>)
    requires c.health == Sound && c.channel == Null && |acts| >= Frames(codec, c.intake.input)
    ensures
      var d := MessageLoop(c, codec, acts).c;
      c.intake.delivered <= d.intake.delivered && (d.health == Sound <==> Pump(codec, c.intake.input).status == Waiting)
  {
    var p := Pump(codec, c.intake.input);
    NoChannelIsInert(c, acts, |p.msgs|);
    QuietLoop(c, codec, acts);
    hide Pump, MessageLoop, Close, Inert, SentBy;
    NullClose(Looped(c, p, SentBy(c, acts, |p.msgs|).out),
              acts[|p.msgs|..]);
    assert c.intake.delivered <= c.intake.delivered + p.msgs;
  }

  lemma NullClose(c: Conn, acts: seq<Act>)
    requires c.channel == Null
    ensures Close(c, acts) == Walk(Fault(c), acts)
  {
  }

  lemma {:induction false} FewFrames(codec: Codec, data: bytes)
    ensures Frames(codec, data) <= |data|
    decreases |data|
  {
    FramesOf(codec, data);
    if Decode(codec, data).Frame? { FewFrames(codec, data[Decode(codec, data).size..]); }
  }

  lemma {:induction false} RestIsShorter(codec: Codec, data: bytes)
    ensures |Pump(codec, data).rest| <= |data|
    decreases |data|
  {
    var o := Decode(codec, data);
    if o.Frame? { PumpFrame(codec, data); RestIsShorter(codec, data[o.size..]); } else { PumpStop(codec, data); }
  }

  // ----- Concrete runs -----

  lemma TwoEvents(c: Conn, a: Event, b: Event)
    requires c.health == Sound && Possible(c, a) && Step(c, a).health == Sound && Possible(Step(c, a), b)
    ensures PossibleRun(c, [a, b]) && Run(c, [a, b]) == Step(Step(c, a), b)
  {
    var d := Step(c, a);
    assert [a, b][1..] == [b] && [b][1..] == [];
    hide Step;
    assert PossibleRun(Step(d, b), []) && Run(Step(d, b), []) == Step(d, b);
    assert PossibleRun(d, [b]) && Run(d, [b]) == Step(d, b);
  }

  lemma {:induction false} RunsInTwo(c: Conn, a: seq<Event>, b: seq<Event>)
    requires PossibleRun(c, a) && PossibleRun(Run(c, a), b)
    ensures PossibleRun(c, a + b) && Run(c, a + b) == Run(Run(c, a), b)
    decreases |a|
  {
    hide Step, Possible;
    if a == [] {
      assert a + b == b;
    } else {
      assert (a + b)[1..] == a[1..] + b;
      RunsInTwo(Step(c, a[0]), a[1..], b);
    }
  }

  const IDLY := Act(0, [])

  /** How a connection of the given kind comes to be connected: its state callback, if it has one, does nothing. */
  function Opening(dials: bool): seq<Event> {
    [if dials then Dial(false) else Accept, Writable(true, [], [IDLY])]
  }

  function Opened(start: Conn): Conn {
    start.(state := Connected, channel := Chan(true), notes := if start.hooks.hasState then [Connected] else [],
           out := Outgoing(false, [], [], [], true, false))
  }

  lemma OpeningOpens(start: Conn, dials: bool)
    requires start == New(start.hooks.hasState, start.hooks.hasWritable, start.hooks.reader, start.link.reconnects)
    ensures PossibleRun(start, Opening(dials)) && Run(start, Opening(dials)) == Opened(start)
  {
    var events := Opening(dials);
    var c := Step(start, events[0]);
    hide Handshake;
    IdleHandshake(c);
    assert Step(c, events[1]) == Greet(c);
    GreetOpens(start, c);
    hide Step;
    TwoEvents(start, events[0], events[1]);
  }

  lemma IdleHandshake(c: Conn)
    ensures Handshake(c, true, [IDLY]).c == Greet(c)
  {
    ReactStop(Greet(c), []);
    assert [IDLY][1..] == [];
    hide React, Greet;
  }

  lemma GreetOpens(start: Conn, c: Conn)
    requires start == New(start.hooks.hasState, start.hooks.hasWritable, start.hooks.reader, start.link.reconnects)
    requires c == Attach(start).(link := Attach(start).link.(connectTimer := c.link.connectTimer))
      && !c.link.connectTimer
    ensures Greet(c) == Opened(start)
  {
    assert [] + [Connected] == [Connected];
  }

  /** A run that opens a connection and goes on with these events. */
  lemma AfterOpening(start: Conn, dials: bool, events: seq<Event>)
    requires start == New(start.hooks.hasState, start.hooks.hasWritable, start.hooks.reader, start.link.reconnects)
    requires PossibleRun(Opened(start), events)
    ensures PossibleRun(start, Opening(dials) + events)
    ensures Run(start, Opening(dials) + events) == Run(Opened(start), events)
  {
    hide Opening, Opened;
    OpeningOpens(start, dials);
    RunsInTwo(start, Opening(dials), events);
  }

  lemma OneEvent(c: Conn, e: Event)
    requires c.health == Sound && Possible(c, e)
    ensures PossibleRun(c, [e]) && Run(c, [e]) == Step(c, e)
  {
    assert [e][1..] == [];
    hide Step;
    assert PossibleRun(Step(c, e), []) && Run(Step(c, e), []) == Step(c, e);
  }

  /** A message and the beginning of a longer one. */
  function TwoFrames(m: bytes, next: bytes, k: nat): bytes
    requires k <= |Encode(Length, next)|
  {
    Encode(Length, m) + Encode(Length, next)[..k]
  }

  /** Part of a frame, with its whole header, is not decoded yet. */
  lemma PartOfAFrame(next: bytes, k: nat)
    requires 8 <= k < |next| + 8 && |next| <= MAX_LENGTH
    ensures Pump(Length, Encode(Length, next)[..k]) == Input([], Encode(Length, next)[..k], Waiting)
  {
    hide Store32, Htobe32, Load32, LengthField, Pump, Decode;
    var f := Encode(Length, next);
    var part := f[..k];
    assert f + [] == f && |f| == |next| + 8;
    LengthFieldOf(next, []);
    SameHeader(f, part);
    PartIsNotDecoded(part);
    PumpStop(Length, part);
  }

  lemma PartIsNotDecoded(part: bytes)
    requires 8 <= |part| < LengthField(part) + 8 && LengthField(part) <= MAX_LENGTH && part[..4] == MAGIC
    ensures Decode(Length, part) == More
  {
    hide LengthField;
  }

  lemma SameHeader(f: bytes, part: bytes)
    requires 8 <= |part| && part <= f
    ensures LengthField(part) == LengthField(f) && part[..4] == f[..4]
  {
    hide Htobe32, Load32;
    assert part[4..8] == f[4..8] && part[..4] == f[..4];
  }

  /** Four bytes into its payload, a frame does not look like one. */
  lemma MiddleIsBad(next: bytes)
    requires |next| == 100 && forall i | 0 <= i < 100 :: next[i] == 'x'
    ensures Decode(Length, Encode(Length, next)[..24][12..]) == Bad
  {
    var tail := Encode(Length, next)[..24][12..];
    assert tail[0] == Encode(Length, next)[12] == next[4];
    assert tail[..4] != MAGIC by { assert tail[..4][0] == 'x' && MAGIC[0] == 'm'; }
    hide Encode, Htobe32, Load32;
  }

  lemma PingAndPart(part: bytes)
    requires Pump(Length, part) == Input([], part, Waiting)
    ensures
      var data := Encode(Length, "ping") + part;
      Decode(Length, data) == Frame(12, "ping") && Pump(Length, data) == Input(["ping"], part, Waiting)
  {
    var data := Encode(Length, "ping") + part;
    DecodeEncoded(Length, "ping", part);
    PumpFrame(Length, data);
    assert |Encode(Length, "ping")| == 12 && data[12..] == part;
    hide Decode, Encode, Pump;
    assert ["ping"] + [] == ["ping"];
  }

  /**
   * A run of a reconnecting client: the first message's callback closes the connection at once. The message is
   * delivered twice, its bytes are taken a second time from the next message, what is then left is malformed, and the
   * loop closes a channel that is null.
   */
  lemma ClosingInPlaceFaults(next: bytes)
    requires |next| == 100 && forall i | 0 <= i < 100 :: next[i] == 'x'
    ensures
      var start := New(true, false, Messages(Length), true);
      var events := Opening(true) + [Readable(true, TwoFrames("ping", next, 24), false, [Act(0, [CloseNow]), IDLY])];
      PossibleRun(start, events)
      && var d := Run(start, events);
         d.health == Faulted && d.channel == Null && d.link.waiting && d.intake.delivered == ["ping", "ping"]
  {
    var start := New(true, false, Messages(Length), true);
    var data := TwoFrames("ping", next, 24);
    var e := Readable(true, data, false, [Act(0, [CloseNow]), IDLY]);
    var c := Opened(start);
    hide MessageLoop, Encode, Pump, Decode, Fault, TwoFrames;
    TwoFramesAre(next);
    assert [] + data == data;
    PartOfAFrame(next, 24);
    MiddleIsBad(next);
    ClosingInPlace(Receive(c, data), Encode(Length, next)[..24]);
    ReadIsLoop(c, data, e.acts);
    hide Step, Opened, Receive;
    OneEvent(c, e);
    AfterOpening(start, true, [e]);
  }

  lemma TwoFramesAre(next: bytes)
    requires |next| == 100
    ensures |Encode(Length, next)| == 108 && TwoFrames("ping", next, 24) != []
    ensures TwoFrames("ping", next, 24) == Encode(Length, "ping") + Encode(Length, next)[..24]
  {
  }

  lemma ReadIsLoop(c: Conn, data: bytes, acts: seq<Act>)
    requires c.state == Connected && c.health == Sound && IsOpen(c) && c.hooks.hasRead
    requires c.hooks.reader == Messages(Length) && data != []
    ensures Step(c, Readable(true, data, false, acts)) == MessageLoop(Receive(c, data), Length, acts).c
  {
    hide MessageLoop;
  }

  lemma ClosingInPlace(c: Conn, part: bytes)
    requires Core(c) && c.state == Connected && c.hooks.reader == Messages(Length) && Reconnecting(c)
    requires c.intake.input == Encode(Length, "ping") + part && c.intake.delivered == []
    requires |part| == 24 && Pump(Length, part) == Input([], part, Waiting) && Decode(Length, part[12..]) == Bad
    ensures
      var d := MessageLoop(c, Length, [Act(0, [CloseNow]), IDLY]).c;
      d.health == Faulted && d.channel == Null && d.link.waiting && d.intake.delivered == ["ping", "ping"]
  {
    hide Decode, Encode, MessageLoop, Pump, Inert, Sent, Gentle, Cleanup, Finish, ClosedAfter;
    var acts := [Act(0, [CloseNow]), IDLY];
    PingAndPart(part);
    assert [] + [CloseNow] == [CloseNow] && acts[1..] == [IDLY];
    IdlyIsInert(ClosedAfter(c, []));
    NothingIsGentle(c);
    hide Core;
    var d := ClosingCallback(c, Length, [], acts);
    CloseWithoutChannel(d, part, acts[2..]);
    assert [] + ["ping"] + ["ping"] == ["ping", "ping"];
  }

  lemma NothingIsGentle(c: Conn)
    ensures Gentle(c, [])
  {
  }

  lemma CloseWithoutChannel(d: Conn, part: bytes, acts: seq<Act>)
    requires d.health == Sound && d.channel == Null && d.intake.input == part && |part| == 24
      && Decode(Length, part[12..]) == Bad
    ensures var e := Consumed(d, 12); e.health == Sound && MessageLoop(e, Length, acts) == Walk(Fault(e), acts)
  {
    MessageLoopStop(Consumed(d, 12), Length, acts);
    NullClose(Consumed(d, 12), acts);
    hide Decode, MessageLoop, Close;
  }

  lemma IdlyIsInert(c: Conn)
    ensures Inert(c, [IDLY], 1)
  {
    assert Inert(Sent(c, []), [IDLY][1..], 0) && Gentle(c, []);
  }

  /** And another: malformed bytes that arrive together with the end of the stream. */
  lemma MalformedAtTheEndReportsTwice(data: bytes)
    requires |data| == 8 && data[0] == 'x'
    ensures
      var start := New(true, false, Messages(Length), true);
      var events := Opening(true) + [Readable(true, data, true, [])];
      PossibleRun(start, events)
      && var d := Run(start, events);
         d.notes == [Connected, Closed, Closed] && d.health == Faulted
  {
    var start := New(true, false, Messages(Length), true);
    var e := Readable(true, data, true, []);
    BadAtTheEnd(Opened(start), data);
    hide Step;
    OneEvent(Opened(start), e);
    AfterOpening(start, true, [e]);
  }

  lemma BadAtTheEnd(client: Conn, data: bytes)
    requires |data| == 8 && data[0] == 'x' && client == Opened(New(true, false, Messages(Length), true))
    ensures
      var d := Step(client, Readable(true, data, true, []));
      d.notes == [Connected, Closed, Closed] && d.health == Faulted
  {
    var c := Receive(client, data);
    var e := c.(channel := Chan(false));
    assert [] + data == data;
    assert Decode(Length, data) == Bad by { assert data[..4][0] == 'x' && MAGIC[0] == 'm'; }
    hide Decode;
    MessageLoopStop(c, Length, []);
    CleanupUnfolds(c, []);
    CleanupOfBad(e, Length, []);
    hide MessageLoop, Cleanup;
    assert [Connected] + [Closed] == [Connected, Closed]
      && [Connected, Closed] + [Closed] == [Connected, Closed, Closed];
  }

  // ----- A pipelined request -----

  /** What an HTTP handler does with one request: takes it, and prints and flushes the response. */
  function Answer(request: bytes, response: bytes, writes: seq<S.WriteResult>): Act {
    Act(|request|, [Send(S.Put(response), writes)])
  }

  /** The kernel takes the whole response. */
  lemma WholeResponse(c: Conn, response: bytes)
    requires IsOpen(c) && c.health == Sound && !c.out.interest && c.out.queue == [] && !c.out.broken && response != []
    ensures
      var does := [Send(S.Put(response), [S.Wrote(|response|)])];
      Gentle(c, does) && !Sent(c, does).out.interest && Sent(c, does).out.queue == []
  {
    var d := Send(S.Put(response), [S.Wrote(|response|)]);
    var n := |response|;
    S.ISendNothing(false, []);
    assert S.ISend(false, n, [S.Wrote(n)]) == S.ISend(false, 0, []).(n := n + 0) by { assert [S.Wrote(n)][1..] == []; }
    hide S.ISend;
    assert [] + response == response && response[n..] == [];
    var o := Attempt(c, d.op, d.writes);
    assert o.open && !o.interest && o.queue == [];
    hide Attempt;
    assert [d][1..] == [] && Sent(c, [d]) == Sent(After(c, d), []) && Gentle(After(c, d), []);
  }

  /**
   * A server that answers one request in each read event and closes, through close(), after the first, as one does for
   * HTTP/1.0. A client that pipelines two requests stops it: the close finds the second request in the buffer, and its
   * response is flushed to the closed descriptor.
   */
  lemma PipelinedRequestAborts(first: bytes, second: bytes, response: bytes)
    requires first != [] && second != [] && response != []
    ensures
      var start := New(false, false, Raw, false);
      var events := Opening(false)
        + [Readable(true, first + second, false, [Answer(first, response, [S.Wrote(|response|)])]),
           User([CloseNow], [Answer(second, response, [])])];
      PossibleRun(start, events) && Run(start, events).health == Aborted
  {
    var start := New(false, false, Raw, false);
    var c := Opened(start);
    var a := Readable(true, first + second, false, [Answer(first, response, [S.Wrote(|response|)])]);
    var b := User([CloseNow], [Answer(second, response, [])]);
    var d := FirstAnswered(c, first, second, response);
    SecondAborts(d, second, response);
    hide Step;
    TwoEvents(c, a, b);
    AfterOpening(start, false, [a, b]);
  }

  lemma FirstAnswered(c: Conn, first: bytes, second: bytes, response: bytes) returns (d: Conn)
    requires Core(c) && c.state == Connected && c.hooks.hasRead && c.hooks.reader == Raw && c.intake.input == []
    requires !c.out.interest && c.out.queue == [] && !c.out.broken && first != [] && response != []
    ensures d == Step(c, Readable(true, first + second, false, [Answer(first, response, [S.Wrote(|response|)])]))
    ensures d.health == Sound && IsOpen(d) && Live(d) && d.hooks.hasRead && d.hooks.reader == Raw
      && d.intake.input == second
    ensures !d.out.interest && d.out.queue == []
  {
    var act := Answer(first, response, [S.Wrote(|response|)]);
    var f := Receive(c, first + second);
    assert [] + (first + second) == first + second && (first + second)[|first|..] == second;
    var t := Took(f, act);
    WholeResponse(t, response);
    GentleReaction(t, act.does, []);
    SentIs(t, act.does);
    assert [act][1..] == [];
    hide React, Sent, Gentle;
    d := Sent(t, act.does);
  }

  lemma SecondAborts(c: Conn, second: bytes, response: bytes)
    requires c.health == Sound && IsOpen(c) && Live(c) && c.hooks.hasRead && c.hooks.reader == Raw
      && c.intake.input == second != []
    requires !c.out.interest && c.out.queue == [] && response != []
    ensures Step(c, User([CloseNow], [Answer(second, response, [])])).health == Aborted
  {
    var act := Answer(second, response, []);
    var e := c.(channel := Chan(false));
    var t := Took(e, act);
    OpenCloseIsReact(c, [act]);
    CleanupUnfolds(e, [act]);
    AbortsExactly(t, S.Put(response), []);
    assert [] + response == response;
    hide Cleanup, Attempt;
    ReactTurn(t, act.does, [], Walk(Abort(t), []));
    assert [act][1..] == [];
    hide React;
  }
}
