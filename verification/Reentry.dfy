/**
 * What goes wrong when callbacks run inside callbacks: exactly which events leave a connection in order, what a
 * message callback that closes in place leads to, and when a nest of callbacks ends.
 */
module Reentry {
  import opened Bytes
  import opened Codecs
  import opened Framing
  import opened Lifecycle
  import S = Sending

  // ----- What any callbacks can do to a connection -----

  /** Between callbacks: a channel that is still there belongs to a live connection. */
  predicate Ready(c: Conn) { c.health == Sound && (c.channel != Null ==> Live(c)) }

  predicate Sounds(w: Walk) { w.c.health == Sound }

  /** Nothing but data has moved: no close, and no reset. */
  predicate SameButData(c: Conn, d: Conn) {
    d == c.(intake := c.intake.(input := d.intake.input, delivered := d.intake.delivered), out := d.out)
      && d.out.broken == c.out.broken
  }

  lemma {:induction false} SentSameButData(c: Conn, does: seq<Deed>)
    requires Gentle(c, does)
    ensures SameButData(c, Sent(c, does))
    decreases |does|
  {
    hide Attempt;
    if does != [] { SentSameButData(After(c, does[0]), does[1..]); }
  }

  /** Gone through cleanup. */
  predicate Gone(c: Conn, d: Conn) {
    && d.channel == Null && !Live(d) && d.hooks.reader == c.hooks.reader && d.health == Sound
    && (Reconnecting(d) <==> Reconnecting(c))
    && (c.link.idle == Registered && !Reconnecting(c) ==> d.link.idle == Erased)
  }

  /** What a callback leaves: the connection with other data, or gone if its descriptor was open. */
  predicate Comes(c: Conn, d: Conn) { SameButData(c, d) || (IsOpen(c) && Gone(c, d)) }

  lemma ComesOn(c: Conn, d: Conn, e: Conn)
    requires Comes(c, d) && Comes(d, e)
    ensures Comes(c, e) && (Ready(c) ==> Ready(e))
  {
  }

  lemma ComesToData(c: Conn, d: Conn)
    requires SameButData(c, d)
    ensures Comes(c, d) && (Ready(c) ==> Ready(d))
  {
  }

  lemma ComesToGone(c: Conn, d: Conn)
    requires IsOpen(c) && Gone(c, d)
    ensures Comes(c, d) && Ready(d)
  {
  }

  /** Going through cleanup a second time. */
  lemma GoneTwice(c: Conn, d: Conn)
    requires Gone(c, d)
    ensures Fragile(c) ==> Finish(d).health == Faulted
    ensures Finish(d).health == Sound ==> Gone(c, Finish(d))
  {
  }

  lemma GoneOnce(c: Conn, d: Conn)
    requires SameButData(c, d) && c.health == Sound
    ensures Finish(d).health == Sound ==> Gone(c, Finish(d))
  {
    var e := Ended(d);
    assert !Live(e) && e.hooks.reader == c.hooks.reader && e.health == Sound && e.link.idle == c.link.idle
      && e.channel == c.channel;
    hide Ended;
  }

  lemma GoneLike(c: Conn, c': Conn, d: Conn, d': Conn)
    requires c' == c.(channel := c'.channel, out := c'.out,
      intake := c.intake.(input := c'.intake.input, delivered := c'.intake.delivered))
    requires Gone(c', d) && SameButData(d, d')
    ensures Gone(c, d')
  {
  }

  lemma ConsumedIs(c: Conn, n: nat)
    ensures var d := Consumed(c, n);
      d.health == Sound ==> SameButData(c, d) && c.health == Sound && d.intake.delivered == c.intake.delivered
  {
  }

  lemma {:induction false} LoopOutcome(c: Conn, codec: Codec, acts: seq<Act>)
    requires Ready(c)
    ensures var w := MessageLoop(c, codec, acts); Sounds(w) ==> Comes(c, w.c)
    decreases Fuel(c, acts), 1
  {
    hide React, Close, Decode, MessageLoop, Comes, Gone, SameButData, Consumed;
    var o := Decode(codec, c.intake.input);
    if o.Frame? && acts != [] {
      var d := Delivered(c, o.msg);
      var w := React(d, acts[0].does, acts[1..]);
      MessageLoopTurn(c, codec, acts, o, w);
      assert SameButData(c, d) by { DeliveredIs(c, o.msg); }
      ComesToData(c, d);
      ReactOutcome(d, acts[0].does, acts[1..]);
      ReactComes(d, acts[0].does, w);
      var e := Consumed(w.c, o.size);
      ConsumedIs(w.c, o.size);
      if e.health == Sound {
        ComesToData(w.c, e);
        ComesOn(c, d, w.c);
        ComesOn(c, w.c, e);
        LoopOutcome(e, codec, w.acts);
        var f := MessageLoop(e, codec, w.acts);
        if Sounds(f) { ComesOn(c, e, f.c); }
      }
    } else if o.Frame? {
      MessageLoopShort(c, codec);
    } else {
      MessageLoopStop(c, codec, acts);
      SameIs(c);
      ComesToData(c, c);
      if o == Bad {
        CloseOutcome(c, acts);
        if IsOpen(c) && Sounds(Close(c, acts)) { ComesToGone(c, Close(c, acts).c); }
      }
    }
  }

  lemma SameIs(c: Conn)
    ensures SameButData(c, c)
  {
  }

  lemma DeliveredIs(c: Conn, m: bytes)
    ensures SameButData(c, Delivered(c, m))
  {
  }

  lemma ReactComes(c: Conn, does: seq<Deed>, w: Walk)
    requires Sounds(w) ==> if Gentle(c, does) then w.c == Sent(c, does) else IsOpen(c) && Gone(c, w.c)
    ensures Sounds(w) ==> Comes(c, w.c)
  {
    if Gentle(c, does) { SentSameButData(c, does); }
    hide Sent, Gentle;
  }

  lemma {:induction false} CloseOutcome(c: Conn, acts: seq<Act>)
    requires Ready(c)
    ensures var w := Close(c, acts); Sounds(w) ==> if IsOpen(c) then Gone(c, w.c) else w.c == c
    decreases Fuel(c, acts), 0
  {
    hide Cleanup;
    if IsOpen(c) { CleanupOutcome(c.(channel := Chan(false)), acts); }
  }

  /** A callback that is not gentle takes the connection through cleanup, or leaves it unsound. */
  lemma {:induction false} ReactOutcome(c: Conn, does: seq<Deed>, acts: seq<Act>)
    requires Ready(c)
    ensures var w := React(c, does, acts);
      Sounds(w) ==> if Gentle(c, does) then w.c == Sent(c, does) else IsOpen(c) && Gone(c, w.c)
    decreases Fuel(c, acts), 5, |does|
  {
    hide React, Gentle, Sent, Gone;
    if Gentle(c, does) {
      GentleReaction(c, does, acts);
    } else {
      UngentleOutcome(c, does, acts);
    }
  }

  lemma {:induction false} UngentleOutcome(c: Conn, does: seq<Deed>, acts: seq<Act>)
    requires Ready(c) && !Gentle(c, does)
    ensures var w := React(c, does, acts); Sounds(w) ==> IsOpen(c) && Gone(c, w.c)
    decreases Fuel(c, acts), 5, |does|, 0
  {
    hide React, DoDeed, After, Closes, Resets, Aborts, Gone;
    if Closes(c, does[0]) || Resets(c, does[0]) {
      var w := DoDeed(c, does[0], acts);
      ReactTurn(c, does, acts, w);
      DeedGoes(c, does[0], acts);
      if Sounds(w) { RestOfGone(c, w, does[1..]); }
    } else {
      if !Aborts(c, does[0]) {
        AfterIs(c, does[0]);
        UngentleOutcome(After(c, does[0]), does[1..], acts);
      }
      LaterOutcome(c, does, acts);
    }
  }

  lemma LaterOutcome(c: Conn, does: seq<Deed>, acts: seq<Act>)
    requires does != [] && !Closes(c, does[0]) && !Resets(c, does[0]) && c.health == Sound
    requires
      var d := After(c, does[0]);
      var w := React(d, does[1..], acts);
      Aborts(c, does[0]) || (Sounds(w) ==> IsOpen(d) && Gone(d, w.c))
    ensures var w := React(c, does, acts); Sounds(w) ==> IsOpen(c) && Gone(c, w.c)
  {
    hide React, DoDeed, After, Closes, Resets, Aborts, Gone;
    ReactTurn(c, does, acts, DoDeed(c, does[0], acts));
    if Aborts(c, does[0]) {
      DeedAborts(c, does[0], acts);
    } else {
      DoDeedGently(c, does[0], acts);
      AfterIs(c, does[0]);
      var w := React(After(c, does[0]), does[1..], acts);
      if Sounds(w) { SameIs(w.c); GoneLike(c, After(c, does[0]), w.c, w.c); }
    }
  }

  lemma DeedAborts(c: Conn, d: Deed, acts: seq<Act>)
    requires Aborts(c, d) && !Closes(c, d) && !Resets(c, d)
    ensures DoDeed(c, d, acts).c.health == Aborted
  {
  }

  /** What follows in the callback that has taken its connection through cleanup. */
  lemma RestOfGone(c: Conn, w: Walk, does: seq<Deed>)
    requires Gone(c, w.c)
    ensures Gone(c, React(w.c, does, w.acts).c)
  {
    NoChannelIsGentle(w.c, does);
    GentleReaction(w.c, does, w.acts);
    SentSameButData(w.c, does);
    hide React, Sent, Gentle;
  }

  lemma {:induction false} DeedGoes(c: Conn, d: Deed, acts: seq<Act>)
    requires Ready(c) && (Closes(c, d) || Resets(c, d))
    ensures var w := DoDeed(c, d, acts); Sounds(w) ==> IsOpen(c) && Gone(c, w.c)
    decreases Fuel(c, acts), 4
  {
    ResetNeedsOpen(c, d);
    var e := if Closes(c, d) then c.(channel := Chan(false)) else After(c, d);
    DeedOutcome(c, d, acts, e);
    hide Cleanup, After, Closes, Resets, DoDeed, Gone;
    CleanupOutcome(e, acts);
    var w := Cleanup(e, acts);
    if Sounds(w) { SameIs(w.c); GoneLike(c, e, w.c, w.c); }
  }

  /** Writes on a closed descriptor fail, but not with a reset. */
  lemma ResetNeedsOpen(c: Conn, d: Deed)
    ensures Resets(c, d) ==> IsOpen(c)
  {
    if d.Send? && !IsOpen(c) { NeverResets(Half(c), d.op); }
    hide S.Do;
  }

  lemma NeverResets(o: S.Out, op: S.SendOp)
    ensures S.Do(o, op, [S.Other]).out.open == o.open
  {
  }

  lemma {:induction false} CallbackOutcome(c: Conn, acts: seq<Act>)
    requires Ready(c)
    ensures var w := ReadCallback(c, acts); Sounds(w) ==> Comes(c, w.c)
    decreases Fuel(c, acts), 2
  {
    hide React, MessageLoop, Comes, Gone, Gentle, Sent;
    if c.hooks.reader.Messages? {
      LoopOutcome(c, c.hooks.reader.codec, acts);
    } else if c.hooks.reader == Raw && acts != [] {
      var t := Took(c, acts[0]);
      var w := React(t, acts[0].does, acts[1..]);
      ComesToData(c, t);
      ReactOutcome(t, acts[0].does, acts[1..]);
      ReactComes(t, acts[0].does, w);
      if Sounds(w) { ComesOn(c, t, w.c); }
    } else {
      ComesToData(c, c);
    }
  }

  lemma {:induction false} CleanupOutcome(c: Conn, acts: seq<Act>)
    requires Ready(c)
    ensures var w := Cleanup(c, acts); Sounds(w) ==> Gone(c, w.c)
    decreases Fuel(c, acts), 3
  {
    CleanupUnfolds(c, acts);
    hide Cleanup, ReadCallback, Finish;
    CallbackOutcome(c, acts);
    var w := if c.hooks.hasRead && c.intake.input != [] then ReadCallback(c, acts) else Walk(c, acts);
    if Sounds(w) {
      if SameButData(c, w.c) { GoneOnce(c, w.c); } else { GoneTwice(c, w.c); }
    }
  }

  /** A connection that has come through its handshake connected still has its descriptor. */
  lemma HandshakeStaysOpen(c: Conn, ok: bool, acts: seq<Act>)
    requires Ready(c) && IsOpen(c) && c.state == Handshaking
    ensures var w := Handshake(c, ok, acts); Sounds(w) && w.c.state == Connected ==> IsOpen(w.c)
  {
    hide RunAct, Cleanup;
    if !ok {
      CleanupOutcome(c, acts);
    } else if c.hooks.hasState {
      RunActOpen(Greet(c), acts);
    }
  }

  lemma RunActOpen(c: Conn, acts: seq<Act>)
    requires Ready(c) && IsOpen(c)
    ensures var w := RunAct(c, acts); Sounds(w) && Live(w.c) ==> IsOpen(w.c)
  {
    hide React, Gentle, Sent;
    if acts != [] {
      ReactOutcome(c, acts[0].does, acts[1..]);
      SentIs(c, acts[0].does);
    }
  }

  // ----- How many messages are delivered -----

  function Frames(codec: Codec, data: bytes): nat { |Pump(codec, data).msgs| }

  /** At least so many messages more, and one more still unless the callbacks were harmless. */
  predicate Delivers(c: Conn, w: Walk, n: nat, inert: bool) {
    Sounds(w) ==>
      (|w.c.intake.delivered| >= |c.intake.delivered| + n
        && (inert || |w.c.intake.delivered| > |c.intake.delivered| + n))
  }

  predicate Reads(c: Conn, codec: Codec) { Ready(c) && c.hooks.reader == Messages(codec)
    && (c.channel != Null ==> c.hooks.hasRead) }

  lemma FramesOf(codec: Codec, data: bytes)
    ensures Frames(codec, data) ==
      match Decode(codec, data)
      case Frame(n, _) => 1 + Frames(codec, data[n..])
      case _ => 0
  {
    if Decode(codec, data).Frame? { PumpFrame(codec, data); } else { PumpStop(codec, data); }
  }

  lemma NoneInert(c: Conn, acts: seq<Act>)
    ensures Inert(c, acts, 0)
  {
  }

  /** The loop delivers every message the input holds, and more than those when a callback is not gentle. */
  lemma {:induction false} LoopCounts(c: Conn, codec: Codec, acts: seq<Act>)
    requires Reads(c, codec)
    ensures
      var n := Frames(codec, c.intake.input);
      Delivers(c, MessageLoop(c, codec, acts), n, Inert(c, acts, n))
    decreases Fuel(c, acts), 1
  {
    hide React, Close, Decode, Frames, MessageLoop, Gentle, Sent, Inert, Consumed;
    FramesOf(codec, c.intake.input);
    NoneInert(c, acts);
    var o := Decode(codec, c.intake.input);
    if o.Frame? && acts != [] {
      var d := Delivered(c, o.msg);
      var w := React(d, acts[0].does, acts[1..]);
      MessageLoopTurn(c, codec, acts, o, w);
      ReactCounts(d, codec, acts[0].does, acts[1..]);
      ReactOutcome(d, acts[0].does, acts[1..]);
      GentleAlike(c, d, acts[0].does);
      var e := Consumed(w.c, o.size);
      ConsumedIs(w.c, o.size);
      if e.health == Sound {
        ReadsStill(d, codec, acts[0].does, w, e);
        LoopCounts(e, codec, w.acts);
        if Gentle(c, acts[0].does) { GentleTurn(c, d, acts, Frames(codec, c.intake.input), w, o.size); }
      }
    } else if o.Frame? {
      MessageLoopShort(c, codec);
    } else {
      MessageLoopStop(c, codec, acts);
      if o == Bad { CloseCounts(c, codec, acts); }
    }
  }

  lemma ReadsStill(c: Conn, codec: Codec, does: seq<Deed>, w: Walk, e: Conn)
    requires Reads(c, codec) && Sounds(w) && SameButData(w.c, e)
    requires if Gentle(c, does) then w.c == Sent(c, does) else IsOpen(c) && Gone(c, w.c)
    ensures Reads(e, codec)
  {
    SentIs(c, does);
    hide Gentle, Sent;
  }

  /** After a gentle callback the others are as harmless as they were. */
  lemma GentleTurn(c: Conn, d: Conn, acts: seq<Act>, n: nat, w: Walk, size: nat)
    requires acts != [] && n > 0 && d == c.(intake := c.intake.(delivered := d.intake.delivered)) && c.health == Sound
      && Gentle(c, acts[0].does)
    requires w == React(d, acts[0].does, acts[1..]) && Consumed(w.c, size).health == Sound
    ensures Inert(c, acts, n) <==> Inert(Consumed(w.c, size), w.acts, n - 1)
    ensures Consumed(w.c, size).intake.delivered == d.intake.delivered && w.acts == acts[1..]
    ensures |c.intake.input| >= size && Consumed(w.c, size).intake.input == c.intake.input[size..]
  {
    var does := acts[0].does;
    GentleAlike(c, d, does);
    SentIs(c, does);
    SentIs(d, does);
    GentleReaction(d, does, acts[1..]);
    InertUnfolds(c, acts, n);
    hide Gentle, Sent, React, Inert;
    InertAlike(Sent(c, does), Consumed(w.c, size), acts[1..], n - 1);
  }

  lemma {:induction false} CloseCounts(c: Conn, codec: Codec, acts: seq<Act>)
    requires Reads(c, codec)
    ensures Delivers(c, Close(c, acts), if IsOpen(c) then Frames(codec, c.intake.input) else 0, true)
    decreases Fuel(c, acts), 0
  {
    hide Cleanup, Frames, Inert;
    if IsOpen(c) { CleanupCounts(c.(channel := Chan(false)), codec, acts); }
  }

  lemma {:induction false} ReactCounts(c: Conn, codec: Codec, does: seq<Deed>, acts: seq<Act>)
    requires Reads(c, codec)
    ensures Delivers(c, React(c, does, acts), if Gentle(c, does) then 0 else Frames(codec, c.intake.input), true)
    decreases Fuel(c, acts), 5, |does|
  {
    hide React, Frames, Sent, Gentle;
    if Gentle(c, does) {
      GentleReaction(c, does, acts);
      SentIs(c, does);
    } else {
      UngentleCounts(c, codec, does, acts);
    }
  }

  lemma {:induction false} UngentleCounts(c: Conn, codec: Codec, does: seq<Deed>, acts: seq<Act>)
    requires Reads(c, codec) && !Gentle(c, does)
    ensures Delivers(c, React(c, does, acts), Frames(codec, c.intake.input), true)
    decreases Fuel(c, acts), 5, |does|, 0
  {
    hide React, DoDeed, After, Closes, Resets, Aborts, Frames, Delivers;
    if Closes(c, does[0]) || Resets(c, does[0]) {
      GoingCounts(c, codec, does, acts);
    } else {
      if !Aborts(c, does[0]) {
        AfterIs(c, does[0]);
        UngentleCounts(After(c, does[0]), codec, does[1..], acts);
      }
      LaterCounts(c, codec, does, acts);
    }
  }

  lemma LaterCounts(c: Conn, codec: Codec, does: seq<Deed>, acts: seq<Act>)
    requires does != [] && !Closes(c, does[0]) && !Resets(c, does[0]) && c.health == Sound
    requires
      var d := After(c, does[0]);
      Aborts(c, does[0]) || Delivers(d, React(d, does[1..], acts), Frames(codec, d.intake.input), true)
    ensures Delivers(c, React(c, does, acts), Frames(codec, c.intake.input), true)
  {
    hide React, DoDeed, After, Closes, Resets, Aborts, Frames;
    ReactTurn(c, does, acts, DoDeed(c, does[0], acts));
    if Aborts(c, does[0]) {
      DeedAborts(c, does[0], acts);
    } else {
      DoDeedGently(c, does[0], acts);
      AfterIs(c, does[0]);
    }
  }

  lemma {:induction false} GoingCounts(c: Conn, codec: Codec, does: seq<Deed>, acts: seq<Act>)
    requires Reads(c, codec) && does != [] && (Closes(c, does[0]) || Resets(c, does[0]))
    ensures Delivers(c, React(c, does, acts), Frames(codec, c.intake.input), true)
    decreases Fuel(c, acts), 5, 0
  {
    hide React, DoDeed, Closes, Resets, Gone, Frames;
    var w := DoDeed(c, does[0], acts);
    ReactTurn(c, does, acts, w);
    DeedCounts(c, codec, does[0], acts);
    DeedGoes(c, does[0], acts);
    if Sounds(w) { RestCounts(c, w, does[1..]); }
  }

  lemma RestCounts(c: Conn, w: Walk, does: seq<Deed>)
    requires Gone(c, w.c)
    ensures React(w.c, does, w.acts).c.intake.delivered == w.c.intake.delivered
  {
    NoChannelIsGentle(w.c, does);
    GentleReaction(w.c, does, w.acts);
    SentIs(w.c, does);
    hide React, Sent, Gentle;
  }

  lemma {:induction false} DeedCounts(c: Conn, codec: Codec, d: Deed, acts: seq<Act>)
    requires Reads(c, codec) && (Closes(c, d) || Resets(c, d))
    ensures Delivers(c, DoDeed(c, d, acts), Frames(codec, c.intake.input), true)
    decreases Fuel(c, acts), 4
  {
    ResetNeedsOpen(c, d);
    var e := if Closes(c, d) then c.(channel := Chan(false)) else After(c, d);
    DeedOutcome(c, d, acts, e);
    hide Cleanup, After, Closes, Resets, DoDeed, Frames, Inert;
    CleanupCounts(e, codec, acts);
  }

  lemma {:induction false} CleanupCounts(c: Conn, codec: Codec, acts: seq<Act>)
    requires Reads(c, codec) && c.channel != Null
    ensures
      var n := Frames(codec, c.intake.input);
      Delivers(c, Cleanup(c, acts), n, Inert(c, acts, n))
    decreases Fuel(c, acts), 3
  {
    CleanupUnfolds(c, acts);
    NoneInert(c, acts);
    if c.intake.input == [] {
      PumpNothing(codec);
    } else {
      LoopCounts(c, codec, acts);
    }
    hide Cleanup, Frames, MessageLoop, Inert;
  }

  // ----- Exactly which events leave the connection in order -----

  /** Something has gone wrong: a fault, a fatal check, too few acts, or a message delivered more than once. */
  predicate Wrong(c: Conn, d: Conn, msgs: seq<bytes>) {
    d.health != Sound || |d.intake.delivered| > |c.intake.delivered| + |msgs|
  }

  lemma {:induction false} UntamedCleanup(c: Conn, acts: seq<Act>)
    requires LiveCore(c) && !CleanupTame(c, acts)
    ensures Wrong(c, Cleanup(c, acts).c, DueOf(c, []))
    decreases |acts|, 0
  {
    assert c.intake.input + [] == c.intake.input;
    if c.hooks.reader.Messages? {
      UntamedMessageCleanup(c, c.hooks.reader.codec, acts);
    } else {
      UntamedRawCleanup(c, acts);
    }
    hide Cleanup, Pump;
  }

  lemma UntamedMessageCleanup(c: Conn, codec: Codec, acts: seq<Act>)
    requires LiveCore(c) && c.hooks.reader == Messages(codec) && !CleanupTame(c, acts)
    ensures Wrong(c, Cleanup(c, acts).c, Pump(codec, c.intake.input).msgs)
  {
    var p := Pump(codec, c.intake.input);
    CleanupCounts(c, codec, acts);
    if Inert(c, acts, |p.msgs|) {
      CleanupUnfolds(c, acts);
      QuietLoop(c, codec, acts);
      var d := Looped(c, p, SentBy(c, acts, |p.msgs|).out);
      CloseOutcome(d, acts[|p.msgs|..]);
      hide Cleanup, Finish, Pump, MessageLoop, Close, Inert, SentBy;
      var w := AfterPump(c, codec, acts);
      if Sounds(w) { GoneTwice(d, w.c); }
    }
  }

  lemma {:induction false} UntamedRawCleanup(c: Conn, acts: seq<Act>)
    requires LiveCore(c) && !c.hooks.reader.Messages? && !CleanupTame(c, acts)
    ensures Cleanup(c, acts).c.health != Sound
    decreases |acts|, 0, 0
  {
    CleanupUnfolds(c, acts);
    if acts != [] {
      var t := Took(c, acts[0]);
      hide Cleanup, React, Finish, ReactTame, Gentle, Sent;
      var w := React(t, acts[0].does, acts[1..]);
      ReactOutcome(t, acts[0].does, acts[1..]);
      if ReactTame(t, acts[0].does, acts[1..]) {
        if Sounds(w) { GoneTwice(t, w.c); }
      } else {
        UntamedReact(t, acts[0].does, acts[1..]);
      }
    }
  }

  lemma {:induction false} UntamedReact(c: Conn, does: seq<Deed>, acts: seq<Act>)
    requires LiveCore(c) && !ReactTame(c, does, acts)
    ensures Wrong(c, React(c, does, acts).c, DueOf(c, []))
    ensures !c.hooks.reader.Messages? ==> React(c, does, acts).c.health != Sound
    decreases |acts|, 1, |does|
  {
    hide React, DoDeed, After, Closes, Resets, Aborts, CleanupTame, Cleanup, DueOf;
    var d := does[0];
    var w := DoDeed(c, d, acts);
    ReactTurn(c, does, acts, w);
    if Closes(c, d) || Resets(c, d) {
      UntamedDeed(c, d, acts);
      DeedGoes(c, d, acts);
      if Sounds(w) { RestCounts(c, w, does[1..]); }
    } else if Aborts(c, d) {
      DeedAborts(c, d, acts);
    } else {
      DoDeedGently(c, d, acts);
      AfterIs(c, d);
      UntamedReact(w.c, does[1..], acts);
      DueAlike(c, w.c, []);
    }
  }

  lemma {:induction false} UntamedDeed(c: Conn, d: Deed, acts: seq<Act>)
    requires LiveCore(c) && (Closes(c, d) || Resets(c, d))
    requires !CleanupTame(if Closes(c, d) then c.(channel := Chan(false)) else After(c, d), acts)
    ensures Wrong(c, DoDeed(c, d, acts).c, DueOf(c, []))
    ensures !c.hooks.reader.Messages? ==> DoDeed(c, d, acts).c.health != Sound
    decreases |acts|, 1, 0
  {
    var e := if Closes(c, d) then c.(channel := Chan(false)) else After(c, d);
    DeedOutcome(c, d, acts, e);
    hide DoDeed, After, Closes, Resets, CleanupTame, Cleanup, DueOf;
    UntamedCleanup(e, acts);
    DueAlike(c, e, []);
    if !c.hooks.reader.Messages? { UntamedRawCleanup(e, acts); }
  }

  lemma UntamedRead(c: Conn, data: bytes, end: bool, acts: seq<Act>)
    requires Inv(c) && c.state == Connected && !ReadTame(c, data, end, acts)
    ensures Wrong(c, ReadConnected(c, data, end, acts).c, DueOf(c, data))
  {
    var f := Receive(c, data);
    assert f.intake.input + [] == f.intake.input;
    if end {
      UntamedCleanup(f, acts);
      hide Cleanup, CleanupTame, Pump;
    } else if f.hooks.reader.Messages? {
      var codec := f.hooks.reader.codec;
      LoopCounts(f, codec, acts);
      if Inert(f, acts, |Pump(codec, f.intake.input).msgs|) { QuietLoop(f, codec, acts); }
      hide Pump, MessageLoop, Inert, SentBy;
    } else if acts != [] {
      UntamedReact(Took(f, acts[0]), acts[0].does, acts[1..]);
      hide React, ReactTame;
    }
  }

  lemma UntamedRunAct(c: Conn, acts: seq<Act>)
    requires Core(c) && Live(c) && !RunTame(c, acts)
    ensures var d := RunAct(c, acts).c; Wrong(c, d, DueOf(c, [])) && (d.health == Sound ==> !Live(d))
    ensures acts != [] ==> !Gentle(c, acts[0].does)
  {
    hide React, ReactTame, Pump, Gentle, Sent;
    if acts != [] {
      UntamedReact(c, acts[0].does, acts[1..]);
      ReactOutcome(c, acts[0].does, acts[1..]);
      if Gentle(c, acts[0].does) { GentleIsTame(c, acts[0].does, acts[1..]); }
    }
  }

  lemma {:induction false} GentleIsTame(c: Conn, does: seq<Deed>, acts: seq<Act>)
    requires Gentle(c, does)
    ensures ReactTame(c, does, acts)
    decreases |does|
  {
    hide After, Closes, Resets, Aborts;
    if does != [] { GentleIsTame(After(c, does[0]), does[1..], acts); }
  }

  lemma UntamedHandshake(c: Conn, ok: bool, acts: seq<Act>)
    requires Inv(c) && c.state == Handshaking && !HandshakeTame(c, ok, acts)
    ensures var d := Handshake(c, ok, acts).c; Wrong(c, d, DueOf(c, [])) && (d.health == Sound ==> !Live(d))
    ensures !Enters(c, ok, acts)
  {
    GreetKeepsInv(c);
    hide RunAct, RunTame, Cleanup, CleanupTame, DueOf, UpToDate, Greet, Gentle;
    if ok {
      UntamedRunAct(Greet(c), acts);
      DueAlike(c, Greet(c), []);
    } else {
      UntamedCleanup(c, acts);
      CleanupOutcome(c, acts);
    }
  }

  lemma UntamedReadEvent(c: Conn, e: Event)
    requires Inv(c) && e.Readable? && !Tame(c, e)
    ensures Wrong(c, Read(c, e), DueOf(c, Incoming(c, e)))
  {
    NothingDue(c);
    hide Handshake, ReadConnected, HandshakeTame, ReadTame, DueOf, Inv, Entered, Enters;
    if c.state == Connected {
      UntamedRead(c, e.data, e.end, e.acts);
    } else if !HandshakeTame(c, e.shook, e.acts) {
      UntamedHandshake(c, e.shook, e.acts);
    } else {
      HandshakeKeepsInv(c, e.shook, e.acts);
      EnteredIs(c, e.acts);
      var d := Entered(c, e.acts);
      UntamedRead(d, e.data, e.end, ActsAfter(c, e.acts));
      DueAlike(c, d, e.data);
      InvIsSound();
      EntersOnSuccess(c, e.shook, e.acts);
    }
  }

  lemma EntersOnSuccess(c: Conn, ok: bool, acts: seq<Act>)
    ensures Enters(c, ok, acts) ==> ok
  {
  }

  lemma UntamedWriteConnected(c: Conn, writes: seq<S.WriteResult>, acts: seq<Act>)
    requires Inv(c) && c.state == Connected && !WriteTame(c, writes, acts)
    ensures Wrong(c, WriteConnected(c, writes, acts), [])
  {
    var f := Flushed(c, writes);
    FlushedIs(c, writes);
    NothingDue(c);
    DueAlike(c, f, []);
    hide Flushed, FlushResets, RunAct, RunTame, Cleanup, CleanupTame, DueOf, Gentle;
    if FlushResets(c, writes) {
      UntamedCleanup(f, acts);
    } else if !RunTame(f, acts) {
      UntamedRunAct(f, acts);
    } else {
      UngentleRunAct(f, acts);
    }
  }

  /** A writable callback that closes leaves no channel. */
  lemma UngentleRunAct(c: Conn, acts: seq<Act>)
    requires Core(c) && Live(c) && RunTame(c, acts)
    ensures acts != []
      && (!Gentle(c, acts[0].does) && RunAct(c, acts).c.health == Sound ==> RunAct(c, acts).c.channel == Null)
  {
    hide React, ReactTame, Gentle;
    ReactOutcome(c, acts[0].does, acts[1..]);
  }

  lemma UntamedWrite(c: Conn, e: Event)
    requires Inv(c) && e.Writable? && !Tame(c, e)
    ensures Wrong(c, Write(c, e), [])
  {
    NothingDue(c);
    hide Handshake, HandshakeTame, WriteConnected, WriteTame, DueOf, Inv;
    if c.state == Handshaking {
      UntamedHandshake(c, e.shook, e.acts);
    } else {
      UntamedWriteConnected(c, e.writes, e.acts);
    }
  }

  /** Sound, with an orderly list of state callbacks and every message delivered once. */
  predicate Orderly(c: Conn, e: Event, d: Conn) {
    d.health == Sound && GoodNotes(d.notes) && d.intake.delivered == ToDeliver(c, e)
  }

  /**
   * Exactly when an event leaves a connection in order: its callbacks must be harmless in the sense of `Tame`. For
   * message callbacks that means that none closes the channel at once or makes a send that meets a reset, and for
   * callbacks that run on a closed descriptor that none switches write interest on.
   */
  lemma StepIsOrderlyExactly(c: Conn, e: Event)
    requires Inv(c) && Possible(c, e)
    ensures Orderly(c, e, Step(c, e)) <==> Tame(c, e)
    ensures Tame(c, e) ==> Inv(Step(c, e))
  {
    hide Read, Write, React, Close, DueOf, UpToDate, Cleanup, ReactTame;
    if Tame(c, e) {
      StepKeepsInv(c, e);
    } else {
      NothingDue(c);
      match e {
        case Readable(_, _, _, _) => UntamedReadEvent(c, e);
        case Writable(_, _, _) => UntamedWrite(c, e);
        case User(does, acts) =>
          if c.channel == Null {
            NoChannelIsGentle(c, does);
            GentleIsTame(c, does, acts);
          }
          UntamedReact(c, does, acts);
        case ConnectTimeout(acts) => UntamedTimeout(c, acts);
      }
    }
  }

  lemma UntamedTimeout(c: Conn, acts: seq<Act>)
    requires Inv(c) && Possible(c, ConnectTimeout(acts)) && !Tame(c, ConnectTimeout(acts))
    ensures Wrong(c, Step(c, ConnectTimeout(acts)), DueOf(c, []))
  {
    hide DueOf, UpToDate, React, Close, ReactTame;
    var d := c.(link := c.link.(connectTimer := false));
    UntamedReact(d, [CloseNow], acts);
    DueAlike(c, d, []);
    OpenCloseIsReact(d, acts);
  }

  /**
   * The message loop delivers each message once, in order, and does nothing it must not, if and only if every message
   * callback only sends and meets no reset.
   */
  lemma DeliversOnceExactly(c: Conn, codec: Codec, acts: seq<Act>)
    requires Core(c) && c.state == Connected && c.hooks.reader == Messages(codec)
    ensures
      var p, d := Pump(codec, c.intake.input), MessageLoop(c, codec, acts).c;
      (d.health == Sound && d.intake.delivered == c.intake.delivered + p.msgs)
      <==> (Inert(c, acts, |p.msgs|) && p.status != Undefined)
  {
    var p := Pump(codec, c.intake.input);
    LoopCounts(c, codec, acts);
    if Inert(c, acts, |p.msgs|) {
      QuietLoop(c, codec, acts);
      if p.status != Undefined { MessagesKeepCore(c, codec, acts); }
    }
    hide MessageLoop, Pump, Close, Inert, SentBy;
  }

  /**
   * Exactly which cleanups between events go wrong: those with malformed input left over and the descriptor still
   * open, on a connection that reconnects (it reports its end twice and uses a null channel) or has idle callbacks (it
   * erases a node twice).
   */
  lemma CleanupGoesWrongExactly(c: Conn, codec: Codec, acts: seq<Act>)
    requires Inv(c) && Live(c) && c.hooks.reader == Messages(codec)
    ensures
      var d := Cleanup(c, acts).c;
      (d.health == Sound && GoodNotes(d.notes)) <==> !(Decode(codec, c.intake.input) == Bad && Fragile(c))
  {
    PumpRest(codec, c.intake.input);
    PumpStop(codec, c.intake.input);
    DecodeNothing(codec);
    assert CleanupTame(c, acts) <==> !(Decode(codec, c.intake.input) == Bad && Fragile(c));
    hide Pump, Decode, Cleanup, CleanupTame;
    if CleanupTame(c, acts) {
      CleanupKeepsInv(c, acts);
    } else {
      BadCleanup(c, codec, acts);
    }
  }

  lemma BadCleanup(c: Conn, codec: Codec, acts: seq<Act>)
    requires Inv(c) && Live(c) && c.hooks.reader == Messages(codec) && Decode(codec, c.intake.input) == Bad
      && Fragile(c)
    ensures Cleanup(c, acts).c.health != Sound
  {
    var e := c.(channel := Chan(false));
    MessageLoopStop(c, codec, acts);
    DecodeNothing(codec);
    CleanupUnfolds(c, acts);
    CleanupOfBad(e, codec, acts);
    GoneOnce(e, e);
    hide Cleanup, Finish, Decode, MessageLoop;
    if Finish(e).health == Sound { GoneTwice(e, Finish(e)); }
  }
}
