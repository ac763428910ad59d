/** Exactly which event takes a connection into which state, with which callbacks and what registrations. */
module Transitions {
  import opened Bytes
  import opened Codecs
  import opened Framing
  import opened Lifecycle
  import S = Sending

  /** Input and output apart, nothing has changed. */
  predicate SameButData(c: Conn, d: Conn) { d == c.(intake := d.intake, out := d.out) }

  /** A read callback that ends the connection: on malformed input, or by closing or meeting a reset itself. */
  predicate ReaderEnds(f: Conn, acts: seq<Act>) {
    f.hooks.hasRead && f.intake.input != [] &&
    match f.hooks.reader
    case NoReader => false
    case Raw => acts != [] && !Gentle(Took(f, acts[0]), acts[0].does)
    case Messages(codec) => Pump(codec, f.intake.input).status == Broken
  }

  /** A read event that ends the connection: at the end of the stream or an error, or in its read callback. */
  predicate ReadEnds(c: Conn, data: bytes, end: bool, acts: seq<Act>) { end || ReaderEnds(Receive(c, data), acts) }

  /** A write event that ends it: on a reset, or in the writable callback, which runs once everything is written. */
  predicate WriteEnds(c: Conn, writes: seq<S.WriteResult>, acts: seq<Act>) {
    FlushResets(c, writes) ||
    (Flushed(c, writes).out.queue == [] && c.hooks.hasWritable && acts != []
     && !Gentle(Flushed(c, writes), acts[0].does))
  }

  /** The handshake has come through, and the connection is about to be reported. */
  predicate Greets(c: Conn, e: Event) { c.state == Handshaking && (e.Readable? || e.Writable?) && e.shook }

  /** The callback that reports the connection ends it. */
  predicate GreetingEnds(c: Conn, acts: seq<Act>) { c.hooks.hasState && acts != [] && !Gentle(Greet(c), acts[0].does) }

  /** Exactly the events that end a live connection. */
  predicate Ends(c: Conn, e: Event) {
    match e
    case Readable(shook, data, end, acts) =>
      if c.state == Connected then ReadEnds(c, data, end, acts)
      else !shook || GreetingEnds(c, acts) || ReadEnds(Entered(c, acts), data, end, ActsAfter(c, acts))
    case Writable(shook, writes, acts) =>
      if c.state == Connected then WriteEnds(c, writes, acts) else !shook || GreetingEnds(c, acts)
    case User(does, _) => !Gentle(c, does)
    case ConnectTimeout(_) => c.state == Handshaking
    case _ => false
  }

  // ----- The parts of an event -----

  /** A live connection goes on, or ends as it must. */
  predicate Moves(c: Conn, d: Conn, ends: bool) { if ends then EndsWell(c, d) else SameButData(c, d) }

  lemma EndsFrom(c: Conn, f: Conn, d: Conn)
    requires EndsWell(f, d) && SameButData(c, f) && c.state == Connected
    ensures EndsWell(c, d)
  {
    EndsWellLike(c, f, d);
  }

  lemma ReadMoves(c: Conn, data: bytes, end: bool, acts: seq<Act>)
    requires Inv(c) && c.state == Connected && ReadTame(c, data, end, acts)
    ensures Moves(c, ReadConnected(c, data, end, acts).c, ReadEnds(c, data, end, acts))
  {
    hide UpToDate, EndsWell, Cleanup, CleanupTame, ReadCallback;
    var f := Receive(c, data);
    if end {
      CleanupEndsWell(f, acts);
      EndsFrom(c, f, Cleanup(f, acts).c);
    } else if f.hooks.hasRead && f.intake.input != [] {
      ReaderMoves(f, acts);
      if ReaderEnds(f, acts) { EndsFrom(c, f, ReadCallback(f, acts).c); }
    }
  }

  lemma ReaderMoves(f: Conn, acts: seq<Act>)
    requires Core(f) && f.state == Connected && f.hooks.hasRead && f.intake.input != []
    requires
      match f.hooks.reader
      case NoReader => true
      case Raw => acts != [] && ReactTame(Took(f, acts[0]), acts[0].does, acts[1..])
      case Messages(codec) =>
        Inert(f, acts, |Pump(codec, f.intake.input).msgs|) && Pump(codec, f.intake.input).status != Undefined
    ensures Moves(f, ReadCallback(f, acts).c, ReaderEnds(f, acts))
  {
    hide EndsWell, React, ReactTame, Gentle, Sent, Inert, Pump, MessageLoop;
    match f.hooks.reader
    case NoReader =>
    case Raw =>
      var t := Took(f, acts[0]);
      if Gentle(t, acts[0].does) {
        GentleReaction(t, acts[0].does, acts[1..]);
        SentIs(t, acts[0].does);
      } else {
        ReactEndsWell(t, acts[0].does, acts[1..]);
        EndsFrom(f, t, React(t, acts[0].does, acts[1..]).c);
      }
    case Messages(codec) => MessagesMove(f, codec, acts);
  }

  lemma MessagesMove(f: Conn, codec: Codec, acts: seq<Act>)
    requires Core(f) && f.state == Connected && f.hooks.reader == Messages(codec)
    requires Inert(f, acts, |Pump(codec, f.intake.input).msgs|) && Pump(codec, f.intake.input).status != Undefined
    ensures Moves(f, MessageLoop(f, codec, acts).c, Pump(codec, f.intake.input).status == Broken)
  {
    hide Pump, Decode, Cleanup, MessageLoop, Finish, SentBy, EndsWell;
    var p := Pump(codec, f.intake.input);
    QuietLoop(f, codec, acts);
    SentByIs(f, acts, |p.msgs|);
    if p.status == Broken {
      PumpRest(codec, f.intake.input);
      var d := Looped(f, p, SentBy(f, acts, |p.msgs|).out).(channel := Chan(false));
      CleanupOfBad(d, codec, acts[|p.msgs|..]);
      FinishEndsWell(d);
      EndsWellLike(f, d, Finish(d));
    }
  }

  lemma GreetIs(c: Conn)
    requires Inv(c) && c.state == Handshaking
    ensures
      var d := Greet(c);
      && Inv(d) && d == c.(state := Connected, notes := d.notes, out := d.out)
      && d.notes == if c.hooks.hasState then [Connected] else []
  {
    GreetKeepsInv(c);
    hide UpToDate;
    assert [] + [Connected] == [Connected];
  }

  lemma HandshakeMoves(c: Conn, ok: bool, acts: seq<Act>)
    requires Inv(c) && c.state == Handshaking && HandshakeTame(c, ok, acts)
    ensures
      var w := Handshake(c, ok, acts);
      if !ok then EndsWell(c, w.c)
      else if GreetingEnds(c, acts) then EndsWell(Greet(c), w.c)
      else w == Walk(Entered(c, acts), ActsAfter(c, acts)) && SameButData(Greet(c), w.c) && Enters(c, ok, acts)
  {
    GreetIs(c);
    hide React, Cleanup, CleanupTame, ReactTame, Inv, Gentle, Sent, Greet, EndsWell;
    if !ok {
      LiveIsCore(c);
      CleanupEndsWell(c, acts);
    } else if c.hooks.hasState {
      LiveIsCore(Greet(c));
      if Gentle(Greet(c), acts[0].does) {
        GentleReaction(Greet(c), acts[0].does, acts[1..]);
        SentIs(Greet(c), acts[0].does);
      } else {
        ReactEndsWell(Greet(c), acts[0].does, acts[1..]);
      }
    }
  }

  lemma LiveIsCore(c: Conn)
    requires Inv(c) && Live(c)
    ensures LiveCore(c) && c.health == Sound
  {
    hide UpToDate;
    assert c.(channel := Chan(true)) == c;
  }

  lemma WriteMoves(c: Conn, writes: seq<S.WriteResult>, acts: seq<Act>)
    requires Inv(c) && c.state == Connected && WriteTame(c, writes, acts)
    ensures Moves(c, WriteConnected(c, writes, acts), WriteEnds(c, writes, acts))
  {
    var f := Flushed(c, writes);
    FlushedIs(c, writes);
    assert LiveCore(f) by { hide UpToDate; LiveIsCore(c); }
    hide Inv, Flushed, FlushResets, React, Cleanup, CleanupTame, ReactTame, Gentle, Sent, EndsWell;
    if FlushResets(c, writes) {
      CleanupEndsWell(f, acts);
      EndsFrom(c, f, Cleanup(f, acts).c);
    } else if f.out.queue == [] && f.hooks.hasWritable {
      if Gentle(f, acts[0].does) {
        GentleReaction(f, acts[0].does, acts[1..]);
        SentIs(f, acts[0].does);
      } else {
        ReactEndsWell(f, acts[0].does, acts[1..]);
        EndsFrom(c, f, React(f, acts[0].does, acts[1..]).c);
      }
    }
  }

  // ----- Every event -----

  /** What a live connection is to start with: as it was, or connected and reported. */
  function Begun(c: Conn, e: Event): Conn {
    if Greets(c, e) then Greet(c)
    else if e.ConnectTimeout? then c.(link := c.link.(connectTimer := false))
    else c
  }

  /**
   * What an event does to a live connection. If it ends it, the connection is closed or failed, was reported so after
   * whatever has been reported before, and waits for a reconnect exactly if it is to have one. If it does not, nothing
   * changes but input and output, the handshake's outcome, and the connect timer.
   */
  lemma LiveMovesExactly(c: Conn, e: Event)
    requires Inv(c) && Possible(c, e) && Tame(c, e) && Live(c)
    requires e.Readable? || e.Writable? || e.User? || e.ConnectTimeout?
    ensures Moves(Begun(c, e), Step(c, e), Ends(c, e))
  {
    hide Inv, React, ReactTame, Gentle, Sent, EndsWell, Greet, Handshake, HandshakeTame, ReadConnected, ReadTame,
      WriteConnected, WriteTame, ReadEnds, WriteEnds, Close;
    LiveIsCore(c);
    match e
    case Readable(shook, data, end, acts) =>
      if c.state == Connected { ReadMoves(c, data, end, acts); } else { FirstReadMoves(c, e); }
    case Writable(shook, writes, acts) =>
      if c.state == Connected { WriteMoves(c, writes, acts); } else { FirstWriteMoves(c, e); }
    case User(does, acts) => ReactMoves(c, does, acts);
    case ConnectTimeout(acts) => TimeoutMoves(c, acts);
  }

  lemma ReactMoves(c: Conn, does: seq<Deed>, acts: seq<Act>)
    requires LiveCore(c) && c.health == Sound && ReactTame(c, does, acts)
    ensures Moves(c, React(c, does, acts).c, !Gentle(c, does))
  {
    hide React, ReactTame, Gentle, Sent, EndsWell;
    if Gentle(c, does) {
      GentleReaction(c, does, acts);
      SentIs(c, does);
    } else {
      ReactEndsWell(c, does, acts);
    }
  }

  lemma TimeoutMoves(c: Conn, acts: seq<Act>)
    requires Inv(c) && Live(c) && Possible(c, ConnectTimeout(acts)) && Tame(c, ConnectTimeout(acts))
    ensures Moves(Begun(c, ConnectTimeout(acts)), Step(c, ConnectTimeout(acts)), c.state == Handshaking)
  {
    LiveIsCore(c);
    hide UpToDate, React, ReactTame, EndsWell, Close, Gentle;
    if c.state == Handshaking {
      var d := c.(link := c.link.(connectTimer := false));
      OpenCloseIsReact(d, acts);
      ReactMoves(d, [CloseNow], acts);
      CloseIsNotGentle(d);
    }
  }

  lemma CloseIsNotGentle(c: Conn)
    requires IsOpen(c)
    ensures !Gentle(c, [CloseNow])
  {
  }

  lemma FirstReadMoves(c: Conn, e: Event)
    requires Inv(c) && c.state == Handshaking && e.Readable? && Tame(c, e)
    ensures Moves(Begun(c, e), Read(c, e), Ends(c, e))
  {
    HandshakeMoves(c, e.shook, e.acts);
    HandshakeKeepsInv(c, e.shook, e.acts);
    GreetIs(c);
    hide Inv, Handshake, HandshakeTame, ReadConnected, ReadTame, ReadEnds, EndsWell, Greet, Entered, GreetingEnds;
    InvIsSound();
    if e.shook && !GreetingEnds(c, e.acts) {
      var d := Entered(c, e.acts);
      ReadMoves(d, e.data, e.end, ActsAfter(c, e.acts));
      if ReadEnds(d, e.data, e.end, ActsAfter(c, e.acts)) { EndsFrom(Greet(c), d, Read(c, e)); }
    } else if e.shook {
      EndedIsNotConnected(Greet(c), Handshake(c, e.shook, e.acts).c);
    }
  }

  lemma EndedIsNotConnected(c: Conn, d: Conn)
    requires EndsWell(c, d)
    ensures d.state != Connected
  {
  }

  lemma FirstWriteMoves(c: Conn, e: Event)
    requires Inv(c) && c.state == Handshaking && e.Writable? && Tame(c, e)
    ensures Moves(Begun(c, e), Write(c, e), Ends(c, e))
  {
    HandshakeMoves(c, e.shook, e.acts);
    hide Inv, Handshake, HandshakeTame, EndsWell, Greet, GreetingEnds;
  }

  /** After a write event that the connection survives, write interest is left on only for what is still queued. */
  lemma WriteSettlesInterest(c: Conn, e: Event)
    requires Inv(c) && c.state == Connected && e.Writable? && Possible(c, e) && Tame(c, e)
    ensures var d := Step(c, e); Live(d) && d.out.queue == [] ==> !d.out.interest
  {
    WriteMoves(c, e.writes, e.acts);
    hide React, Cleanup, Flushed, FlushResets, ReactTame, CleanupTame, Gentle, UpToDate;
    if FlushResets(c, e.writes) {
      assert WriteEnds(c, e.writes, e.acts);
    }
  }

  /** To a connection that is not live only its owner's calls, a retry or a first attach can do anything. */
  lemma DeadStaysDead(c: Conn, e: Event)
    requires Inv(c) && Possible(c, e) && !Live(c) && (e.Readable? || e.Writable? || e.User? || e.ConnectTimeout?)
    ensures Step(c, e) == c.(out := Step(c, e).out)
  {
    hide UpToDate, React, Sent;
    if e.User? {
      NoChannelIsGentle(c, e.does);
      GentleReaction(c, e.does, e.acts);
      SentIs(c, e.does);
    }
  }

  /**
   * A first attach and each retry start over with an open descriptor, write interest and nothing reported or delivered,
   * but with the bytes that an earlier attach has left in the buffers; the connect timer runs if one was asked for and
   * the base has not exited, and no retry is left.
   */
  lemma AttachStartsOver(c: Conn, e: Event)
    requires Inv(c) && Possible(c, e) && Attaches(e)
    ensures
      var d := Step(c, e);
      && d.state == Handshaking && IsOpen(d) && d.notes == [] && d.intake.delivered == [] && d.health == Sound
      && d.hooks == c.hooks && d.intake.input == c.intake.input && d.intake.stream == c.intake.input
      && d.out.interest && d.out.queue == c.out.queue && d.out.wire == []
      && !d.link.waiting && d.link.retries == 0 && d.link.reconnects == c.link.reconnects && d.link.idle == c.link.idle
      && (!e.Accept? ==> (d.link.connectTimer <==> e.timeout && !c.link.exited))
  {
    hide UpToDate;
  }

  // ----- What is reported over whole runs -----

  /** Every state callback of an attach, up to and including the one for its state. */
  function Reports(state: State): seq<State> {
    match state
    case Connected => [Connected]
    case Closed => [Connected, Closed]
    case Failed => [Failed]
    case _ => []
  }

  /** What has been reported in this attach is everything there was to report, or nothing if nobody listens. */
  predicate Told(c: Conn, listened: bool) {
    && (if !listened then c.notes == []
        else c.notes == Reports(c.state) || (c.state == Closed && c.notes == [Failed]))
    && (Live(c) || c.state == Invalid || c.link.waiting ==> c.hooks.hasState == listened)
    && (c.hooks.hasState ==> listened)
  }

  lemma EndIsTold(c: Conn, d: Conn, listened: bool)
    requires Live(c) && Told(c, listened) && EndsWell(c, d)
    ensures Told(d, listened)
  {
  }

  lemma BegunIsTold(c: Conn, e: Event, listened: bool)
    requires Inv(c) && Live(c) && Told(c, listened)
    ensures Live(Begun(c, e)) && Told(Begun(c, e), listened)
  {
    if Greets(c, e) { GreetIs(c); }
    hide Greet, UpToDate;
  }

  lemma StepIsTold(c: Conn, e: Event, listened: bool)
    requires Inv(c) && Possible(c, e) && Tame(c, e) && Told(c, listened)
    ensures Told(Step(c, e), listened)
  {
    hide UpToDate, EndsWell, Read, Write, React, Close, Tame, Ends, Begun;
    if e.Readable? || e.Writable? || e.User? || e.ConnectTimeout? {
      if Live(c) {
        LiveMovesExactly(c, e);
        BegunIsTold(c, e, listened);
        if Ends(c, e) { EndIsTold(Begun(c, e), Step(c, e), listened); }
      } else {
        DeadStaysDead(c, e);
      }
    }
  }

  lemma {:induction false} RunIsTold(c: Conn, events: seq<Event>, listened: bool)
    requires Inv(c) && PossibleRun(c, events) && TameRun(c, events) && Told(c, listened)
    ensures Told(Run(c, events), listened)
    decreases |events|
  {
    hide Inv, Step, Tame, Told, ToDeliver, ToStream;
    if events != [] {
      StepKeepsInv(c, events[0]);
      StepIsTold(c, events[0], listened);
      RunIsTold(Step(c, events[0]), events[1..], listened);
    }
  }

  /**
   * In every tame run each change of state is reported, once and in order: a connection that is connected has reported
   * just that, one that is closed its opening and its end, and one that has failed its failure. (A connection can be
   * closed after it has failed, if its leftover input makes it go through cleanup twice; nothing is reported then.)
   */
  lemma EveryRunReports(start: Conn, events: seq<Event>)
    requires start == New(start.hooks.hasState, start.hooks.hasWritable, start.hooks.reader, start.link.reconnects)
    requires PossibleRun(start, events) && TameRun(start, events)
    ensures
      var c := Run(start, events);
      if start.hooks.hasState then c.notes == Reports(c.state) || (c.state == Closed && c.notes == [Failed])
      else c.notes == []
  {
    NewKeepsInv(start.hooks.hasState, start.hooks.hasWritable, start.hooks.reader, start.link.reconnects);
    RunIsTold(start, events, start.hooks.hasState);
  }

  // ----- Reconnecting over whole runs -----

  /** Whether the connection is to be made again, by what its owner said last. */
  function Wished(start: bool, events: seq<Event>): bool
    decreases |events|
  {
    if events == [] then start
    else Wished(if events[0].SetReconnect? then events[0].on else start, events[1..])
  }

  /** Not detached for good. */
  predicate Attachable(c: Conn) { Live(c) || c.link.waiting || c.state == Invalid }

  lemma StepKeepsWish(c: Conn, e: Event)
    requires Inv(c) && Possible(c, e) && Tame(c, e)
    ensures
      var d := Step(c, e);
      && d.link.reconnects == (if e.SetReconnect? then e.on else c.link.reconnects)
      && (d.link.exited <==> c.link.exited || e == Exit)
      && (Attachable(d) ==>
            Attachable(c) && (d.link.idle == Registered <==> c.link.idle == Registered || e == AddIdle))
  {
    hide UpToDate, Read, Write, React, Close, Tame, Ends;
    if e.Readable? || e.Writable? || e.User? || e.ConnectTimeout? {
      if Live(c) {
        if Greets(c, e) { GreetIs(c); }
        LiveMovesExactly(c, e);
      } else {
        DeadStaysDead(c, e);
      }
    }
  }

  lemma {:induction false} RunKeepsWish(c: Conn, events: seq<Event>)
    requires Inv(c) && PossibleRun(c, events) && TameRun(c, events)
    ensures Run(c, events).link.reconnects == Wished(c.link.reconnects, events)
    ensures Run(c, events).link.exited <==> c.link.exited || Exit in events
    ensures Attachable(Run(c, events)) ==>
      Attachable(c) && (Run(c, events).link.idle == Registered <==> c.link.idle == Registered || AddIdle in events)
    decreases |events|
  {
    hide Inv, Step, Tame, ToDeliver, ToStream;
    if events != [] {
      StepKeepsInv(c, events[0]);
      StepKeepsWish(c, events[0]);
      RunKeepsWish(Step(c, events[0]), events[1..]);
      assert forall e :: e in events <==> e == events[0] || e in events[1..];
    }
  }

  /**
   * In every tame run, a connection that ends registers for a reconnect, with one timer, if and only if its owner last
   * asked for reconnecting and the base has not exited; a retry is then possible at once and starts it over. Otherwise
   * it drops its callbacks. The nodes of its idle callbacks, if it has any, stay for the next time or are erased.
   */
  lemma EveryEndReconnectsExactly(start: Conn, events: seq<Event>, e: Event, timeout: bool)
    requires start == New(start.hooks.hasState, start.hooks.hasWritable, start.hooks.reader, start.link.reconnects)
    requires PossibleRun(start, events) && TameRun(start, events)
    requires var c := Run(start, events); Live(c) && Possible(c, e) && Tame(c, e) && Ends(c, e)
    ensures
      var c := Run(start, events);
      var d := Step(c, e);
      var again := Wished(start.link.reconnects, events) && Exit !in events;
      && (d.link.waiting <==> again) && d.link.retries == (if again then 1 else 0)
      && (Possible(d, Retry(timeout)) <==> again)
      && (!again ==> !d.hooks.hasState && !d.hooks.hasRead && !d.hooks.hasWritable)
      && d.link.idle == if AddIdle !in events then Unused else if again then Registered else Erased
  {
    var c := Run(start, events);
    NewKeepsInv(start.hooks.hasState, start.hooks.hasWritable, start.hooks.reader, start.link.reconnects);
    RunKeepsInv(start, events);
    RunKeepsWish(start, events);
    LiveMovesExactly(c, e);
    if Greets(c, e) { GreetIs(c); }
    hide UpToDate, Step, Run, Ends, Tame, TameRun, PossibleRun;
  }
}
