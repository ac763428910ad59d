/** When a nest of callbacks, cleanups and read callbacks inside one another comes to an end. */
module Nests {
  import opened Bytes
  import opened Codecs
  import opened Framing
  import opened Lifecycle
  import opened Reentry
  import S = Sending

  // ----- Where a callback closes or meets a reset -----

  /** The connection at the deed that closes or meets a reset, and the deeds after it. */
  function Goes(c: Conn, does: seq<Deed>): (Conn, seq<Deed>)
    requires IsOpen(c) && !Gentle(c, does)
    decreases |does|
  {
    if Closes(c, does[0]) then (c.(channel := Chan(false)), does[1..])
    else if Resets(c, does[0]) then (After(c, does[0]), does[1..])
    else Goes(After(c, does[0]), does[1..])
  }

  lemma GoesUnfolds(c: Conn, does: seq<Deed>)
    requires IsOpen(c) && !Gentle(c, does)
    ensures does != []
    ensures var d := does[0];
      if Closes(c, d) || Resets(c, d) then
        Goes(c, does) == (if Closes(c, d) then c.(channel := Chan(false)) else After(c, d), does[1..])
      else
        && !Aborts(c, d) && IsOpen(After(c, d)) && !Gentle(After(c, d), does[1..])
        && Goes(c, does) == Goes(After(c, d), does[1..])
  {
    if does != [] { NoAbortOnOpen(c, does[0]); }
    hide Attempt;
  }

  /** A callback that is not gentle, on an open descriptor, is a cleanup with what comes before and after it. */
  lemma {:induction false} GoingReaction(c: Conn, does: seq<Deed>, acts: seq<Act>)
    requires c.health == Sound && Live(c) && IsOpen(c) && !Gentle(c, does)
    ensures
      var g := Goes(c, does);
      var w := Cleanup(g.0, acts);
      && React(c, does, acts) == (if w.c.health != Sound then w else React(w.c, g.1, w.acts))
      && g.0 == c.(channel := g.0.channel, out := g.0.out) && g.0.channel != Null
    decreases |does|
  {
    hide React, DoDeed, After, Cleanup, Aborts, Closes, Resets, Gentle, Goes;
    GoesUnfolds(c, does);
    var d := does[0];
    ReactTurn(c, does, acts, DoDeed(c, d, acts));
    if Closes(c, d) || Resets(c, d) {
      DeedOutcome(c, d, acts, Goes(c, does).0);
    } else {
      DoDeedGently(c, d, acts);
      AfterIs(c, d);
      GoingReaction(After(c, d), does[1..], acts);
    }
  }

  lemma NoAbortOnOpen(c: Conn, d: Deed)
    requires IsOpen(c)
    ensures !Aborts(c, d)
  {
  }

  lemma {:induction false} GoesAlike(c: Conn, d: Conn, does: seq<Deed>)
    requires SameOut(c, d) && IsOpen(c) && !Gentle(c, does)
    ensures !Gentle(d, does) && SameOut(Goes(c, does).0, Goes(d, does).0)
    decreases |does|
  {
    hide After, Closes, Resets, Aborts, Gentle, Goes;
    GentleAlike(c, d, does);
    GoesUnfolds(c, does);
    GoesUnfolds(d, does);
    DeedAlike(c, d, does[0]);
    if !Closes(c, does[0]) && !Resets(c, does[0]) {
      GoesAlike(After(c, does[0]), After(d, does[0]), does[1..]);
    }
  }

  // ----- When the nest ends -----

  /**
   * Reading off the callbacks in the order in which they run: as many as there are messages have been gentle, or one
   * has closed the channel. Only resets lead deeper.
   */
  predicate Settled(c: Conn, acts: seq<Act>, frames: nat)
    requires IsOpen(c)
    decreases |acts|
  {
    frames == 0 ||
    (acts != [] &&
     if Gentle(c, acts[0].does) then
       SentIs(c, acts[0].does);
       Settled(Sent(c, acts[0].does), acts[1..], frames - 1)
     else
       var e := Goes(c, acts[0].does).0;
       IsOpen(e) ==> Settled(e, acts[1..], frames))
  }

  /** A cleanup on leftover messages is over when its loop is. */
  lemma CleanupOfMessages(c: Conn, codec: Codec, acts: seq<Act>)
    requires c.hooks.reader == Messages(codec) && c.hooks.hasRead && c.intake.input != []
    ensures
      var w, u := MessageLoop(c, codec, acts), Cleanup(c, acts);
      && (u.c.health == Unfinished <==> w.c.health == Unfinished)
      && (Sounds(u) ==> Sounds(w) && u.acts == w.acts && u.c.intake.input == w.c.intake.input && u.c.channel == Null)
  {
    CleanupUnfolds(c, acts);
    hide MessageLoop, Cleanup;
  }

  /** A live connection with an open descriptor that a message loop reads. */
  predicate Looping(c: Conn, codec: Codec) {
    Live(c) && IsOpen(c) && c.health == Sound && c.hooks.reader == Messages(codec) && c.hooks.hasRead
  }

  /** After a gentle callback the loop goes on from `e`. */
  predicate GoesOn(c: Conn, codec: Codec, acts: seq<Act>, size: nat, e: Conn)
    requires acts != []
  {
    && SameOut(e, Sent(c, acts[0].does)) && Looping(e, codec) && |e.intake.input| == |c.intake.input| - size
    && Frames(codec, e.intake.input) + 1 == Frames(codec, c.intake.input)
    && MessageLoop(c, codec, acts) == MessageLoop(e, codec, acts[1..])
  }

  /** The loop as a nest: the cleanup of `e`, the rest of the callback, and the rest of the loop. */
  function Nest(e: Conn, codec: Codec, acts: seq<Act>, rest: seq<Deed>, size: nat): Walk {
    var w := Cleanup(e, acts);
    var v := if Sounds(w) then React(w.c, rest, w.acts) else w;
    var f := Consumed(v.c, size);
    if f.health != Sound then Walk(f, v.acts) else MessageLoop(f, codec, v.acts)
  }

  /** A callback that is not gentle has the loop run again, from `e`, inside the cleanup it causes. */
  predicate GoesIn(c: Conn, codec: Codec, acts: seq<Act>, o: Outcome, e: Conn, rest: seq<Deed>)
    requires acts != [] && o.Frame? && IsOpen(c) && !Gentle(c, acts[0].does)
  {
    && SameOut(e, Goes(c, acts[0].does).0) && e.channel != Null
    && e == Delivered(c, o.msg).(channel := e.channel, out := e.out)
    && MessageLoop(c, codec, acts) == Nest(e, codec, acts[1..], rest, o.size)
  }

  lemma GentleStep(c: Conn, codec: Codec, acts: seq<Act>, o: Outcome) returns (e: Conn)
    requires Looping(c, codec) && o.Frame? && Decode(codec, c.intake.input) == o && acts != []
      && Gentle(c, acts[0].does)
    ensures GoesOn(c, codec, acts, o.size, e) && o.size > 0
  {
    hide Gentle, Sent, React, MessageLoop, Frames;
    var does := acts[0].does;
    FramesOf(codec, c.intake.input);
    hide Decode;
    MessageLoopFrame(c, codec, acts, o);
    SentIs(c, does);
    e := Turned(c, o, Sent(c, does).out);
  }

  lemma GoingStep(c: Conn, codec: Codec, acts: seq<Act>, o: Outcome) returns (e: Conn, rest: seq<Deed>)
    requires Looping(c, codec) && o.Frame? && Decode(codec, c.intake.input) == o && acts != []
      && !Gentle(c, acts[0].does)
    ensures GoesIn(c, codec, acts, o, e, rest)
  {
    hide Decode, Gentle, React, MessageLoop, Cleanup, Goes, Consumed;
    var does := acts[0].does;
    var d := Delivered(c, o.msg);
    GoesAlike(c, d, does);
    GoingReaction(d, does, acts[1..]);
    e, rest := Goes(d, does).0, Goes(d, does).1;
    MessageLoopTurn(c, codec, acts, o, React(d, does, acts[1..]));
  }

  /** While callbacks meet resets and the others have not settled it, the nest goes on. */
  lemma {:induction false} UnsettledGoesOn(c: Conn, k: Conn, codec: Codec, acts: seq<Act>)
    requires Looping(c, codec) && SameOut(c, k) && !Settled(k, acts, Frames(codec, c.intake.input))
    ensures MessageLoop(c, codec, acts).c.health == Unfinished
    decreases |acts|
  {
    hide Frames, Decode, React, MessageLoop, Cleanup, Gentle, Sent, Consumed;
    FramesOf(codec, c.intake.input);
    var o := Decode(codec, c.intake.input);
    if acts == [] {
      MessageLoopShort(c, codec);
    } else {
      var does := acts[0].does;
      GentleAlike(c, k, does);
      if Gentle(c, does) {
        var e := GentleStep(c, codec, acts, o);
        SentIs(k, does);
        UnsettledGoesOn(e, Sent(k, does), codec, acts[1..]);
      } else {
        var e, rest := GoingStep(c, codec, acts, o);
        GoesAlike(c, k, does);
        UnsettledGoesOn(e, Goes(k, does).0, codec, acts[1..]);
        CleanupOfMessages(e, codec, acts[1..]);
        UnfinishedStays(Cleanup(e, acts[1..]).c, o.size);
      }
    }
  }

  lemma UnfinishedStays(c: Conn, n: nat)
    ensures c.health != Sound ==> Consumed(c, n) == c
  {
  }

  /** The loop ends with callbacks to spare. */
  predicate Over(w: Walk) { w.c.health != Unfinished && (Sounds(w) ==> |w.acts| >= |w.c.intake.input|) }

  /** On a closed descriptor, or without a channel, each turn takes a byte at least. */
  lemma {:induction false} ClosedLoopEnds(c: Conn, codec: Codec, acts: seq<Act>)
    requires Ready(c) && !IsOpen(c) && |acts| >= |c.intake.input|
    ensures Over(MessageLoop(c, codec, acts))
    decreases |acts|
  {
    hide Decode, MessageLoop, React, Gentle, Sent, Consumed;
    var o := Decode(codec, c.intake.input);
    if o.Frame? {
      var d := Delivered(c, o.msg);
      var w := React(d, acts[0].does, acts[1..]);
      MessageLoopTurn(c, codec, acts, o, w);
      ClosedReaction(d, acts[0].does, acts[1..]);
      SentIs(d, acts[0].does);
      ConsumedShrinks(w.c, o.size);
      var e := Consumed(w.c, o.size);
      if e.health == Sound { ClosedLoopEnds(e, codec, w.acts); }
    } else {
      MessageLoopStop(c, codec, acts);
      if o == Bad { ClosedClose(c, acts); }
    }
  }

  lemma ClosedClose(c: Conn, acts: seq<Act>)
    requires Ready(c) && !IsOpen(c)
    ensures Close(c, acts) == Walk(c, acts) || Close(c, acts).c.health == Faulted
  {
  }

  lemma ConsumedShrinks(c: Conn, n: nat)
    ensures var d := Consumed(c, n);
      && d == c.(intake := c.intake.(input := d.intake.input), health := d.health)
      && (d.health == Unfinished ==> c.health == Unfinished)
      && (d.health == Sound ==> c.health == Sound && |d.intake.input| == |c.intake.input| - n)
  {
  }

  /** A callback on a closed descriptor, or without a channel, only sends, or stops the program. */
  lemma {:induction false} ClosedReaction(c: Conn, does: seq<Deed>, acts: seq<Act>)
    requires Ready(c) && !IsOpen(c)
    ensures React(c, does, acts) == Walk(Sent(c, does), acts) || React(c, does, acts).c.health == Aborted
    decreases |does|
  {
    hide React, DoDeed, After, Closes, Resets, Aborts;
    if does == [] {
      ReactStop(c, acts);
    } else {
      var d := does[0];
      ReactTurn(c, does, acts, DoDeed(c, d, acts));
      ResetNeedsOpen(c, d);
      assert !Closes(c, d) by { NeverClosesClosed(c, d); }
      if Aborts(c, d) {
        DeedAborts(c, d, acts);
      } else {
        DoDeedGently(c, d, acts);
        AfterIs(c, d);
        ClosedReaction(After(c, d), does[1..], acts);
      }
    }
  }

  lemma NeverClosesClosed(c: Conn, d: Deed)
    requires !IsOpen(c)
    ensures !Closes(c, d)
  {
  }

  /** Once it is settled, the rest ends within the bytes of the input. */
  lemma {:induction false} SettledEnds(c: Conn, k: Conn, codec: Codec, acts: seq<Act>, j: nat)
    requires Looping(c, codec) && SameOut(c, k)
    requires j <= |acts| && Settled(k, acts[..j], Frames(codec, c.intake.input)) && |acts| - j >= |c.intake.input|
    ensures Over(MessageLoop(c, codec, acts))
    decreases |acts|
  {
    hide Frames, Decode, React, MessageLoop, Cleanup, Gentle, Sent, Consumed;
    FramesOf(codec, c.intake.input);
    var o := Decode(codec, c.intake.input);
    if o.Frame? {
      assert acts[..j] != [] && acts[..j][1..] == acts[1..][..j - 1];
      var does := acts[0].does;
      GentleAlike(c, k, does);
      if Gentle(c, does) {
        var e := GentleStep(c, codec, acts, o);
        SentIs(k, does);
        SettledEnds(e, Sent(k, does), codec, acts[1..], j - 1);
      } else {
        var e, rest := GoingStep(c, codec, acts, o);
        GoesAlike(c, k, does);
        if IsOpen(e) {
          SettledEnds(e, Goes(k, does).0, codec, acts[1..], j - 1);
        } else {
          ClosedLoopEnds(e, codec, acts[1..]);
        }
        AfterNest(c, codec, acts, o, e, rest);
      }
    } else {
      MessageLoopStop(c, codec, acts);
      if o == Bad { BadLoopEnds(c, codec, acts); }
    }
  }

  /** When the loop inside a callback is over, so is the one around it. */
  lemma AfterNest(c: Conn, codec: Codec, acts: seq<Act>, o: Outcome, e: Conn, rest: seq<Deed>)
    requires Looping(c, codec) && o.Frame? && Decode(codec, c.intake.input) == o && acts != []
    requires e.hooks.reader == c.hooks.reader && e.hooks.hasRead && e.intake.input == c.intake.input && Ready(e)
      && e.channel != Null
    requires Over(MessageLoop(e, codec, acts[1..]))
    requires MessageLoop(c, codec, acts) == Nest(e, codec, acts[1..], rest, o.size)
    ensures Over(MessageLoop(c, codec, acts))
  {
    hide Decode, React, MessageLoop, Cleanup, Sent, Consumed;
    assert c.intake.input != [] by { DecodeNothing(codec); }
    CleanupOfMessages(e, codec, acts[1..]);
    CleanupOutcome(e, acts[1..]);
    var w := Cleanup(e, acts[1..]);
    if Sounds(w) {
      ClosedReaction(w.c, rest, w.acts);
      SentIs(w.c, rest);
      RestOfLoopEnds(React(w.c, rest, w.acts), codec, o.size);
    } else {
      ConsumedShrinks(w.c, o.size);
    }
  }

  /** The loop goes on, without a channel, behind the frame whose callback has taken the channel away. */
  lemma RestOfLoopEnds(v: Walk, codec: Codec, n: nat)
    requires v.c.health == Aborted || (Ready(v.c) && v.c.channel == Null && |v.acts| >= |v.c.intake.input|)
    ensures
      var f := Consumed(v.c, n);
      Over(if f.health != Sound then Walk(f, v.acts) else MessageLoop(f, codec, v.acts))
  {
    ConsumedShrinks(v.c, n);
    var f := Consumed(v.c, n);
    hide Consumed, MessageLoop;
    if f.health == Sound { ClosedLoopEnds(f, codec, v.acts); }
  }

  lemma BadLoopEnds(c: Conn, codec: Codec, acts: seq<Act>)
    requires Looping(c, codec) && Decode(codec, c.intake.input) == Bad && |acts| >= |c.intake.input|
    ensures Over(Close(c, acts))
  {
    CleanupOfBad(c.(channel := Chan(false)), codec, acts);
    hide Decode, Cleanup;
  }

  /** The first `n` callbacks of an endless supply. */
  function Supply(env: nat -> Act, n: nat): (acts: seq<Act>)
    ensures |acts| == n && forall i | 0 <= i < n :: acts[i] == env(i)
  {
    seq(n, i requires 0 <= i < n => env(i))
  }

  /**
   * A message callback that meets a reset is handed the same message again inside the cleanup, and may meet a reset
   * again. With message callbacks that go on forever as `env` says, the nest ends if and only if at some point as many
   * of them have only sent as the input holds messages, or one has closed the channel.
   */
  lemma NestEndsExactly(c: Conn, codec: Codec, env: nat -> Act)
    requires Core(c) && c.state == Connected && c.hooks.reader == Messages(codec)
    ensures
      (exists n: nat :: MessageLoop(c, codec, Supply(env, n)).c.health != Unfinished)
      <==> exists j: nat :: Settled(c, Supply(env, j), Frames(codec, c.intake.input))
  {
    hide MessageLoop, Settled, Frames;
    if j: nat :| Settled(c, Supply(env, j), Frames(codec, c.intake.input)) {
      var n := j + |c.intake.input|;
      assert Supply(env, n)[..j] == Supply(env, j);
      SettledEnds(c, c, codec, Supply(env, n), j);
      assert MessageLoop(c, codec, Supply(env, n)).c.health != Unfinished;
    } else {
      forall n: nat ensures MessageLoop(c, codec, Supply(env, n)).c.health == Unfinished {
        UnsettledGoesOn(c, c, codec, Supply(env, n));
      }
    }
  }

  // ----- An echo that meets a reset -----

  function Copies(m: bytes, n: nat): seq<bytes> { if n == 0 then [] else [m] + Copies(m, n - 1) }

  /** One that prints and flushes, as an echo does. */
  predicate Echoes(a: Act) { |a.does| == 1 && a.does[0].Send? && S.Prints(a.does[0].op) }

  /** A socket that has been reset meets every flush with a reset. */
  lemma BrokenResets(c: Conn, op: S.SendOp, writes: seq<S.WriteResult>)
    requires IsOpen(c) && c.out.broken && S.Prints(op)
    ensures Resets(c, Send(op, writes))
  {
    if op.Msg? { assert |Encode(op.c, op.msg)| > 0; }
    var data := if op.Msg? then Encode(op.c, op.msg) else op.data;
    hide Encode;
    assert S.ISend(c.out.interest, |c.out.queue + data|, [S.Reset]).reset;
  }

  /** So an echo that meets one reset is handed the same message over and over, without end. */
  lemma {:induction false} EchoNeverEnds(c: Conn, codec: Codec, acts: seq<Act>)
    requires Looping(c, codec) && Decode(codec, c.intake.input).Frame?
    requires forall a | a in acts :: Echoes(a)
    requires acts != [] ==> acts[0].does != [] && Resets(c, acts[0].does[0])
    ensures
      var d := MessageLoop(c, codec, acts).c;
      d.health == Unfinished
        && d.intake.delivered == c.intake.delivered + Copies(Decode(codec, c.intake.input).msg, |acts|)
    decreases |acts|
  {
    hide Decode, React, MessageLoop, Cleanup, Consumed, S.Do, S.Prints, DoDeed;
    var o := Decode(codec, c.intake.input);
    if acts == [] {
      MessageLoopShort(c, codec);
      assert c.intake.delivered + [] == c.intake.delivered;
    } else {
      var d := Delivered(c, o.msg);
      var deed := acts[0].does[0];
      var e := After(d, deed);
      DeedAlike(c, d, deed);
      ReactTurn(d, acts[0].does, acts[1..], DoDeed(d, deed, acts[1..]));
      DeedOutcome(d, deed, acts[1..], e);
      CleanupUnfolds(e, acts[1..]);
      MessageLoopTurn(c, codec, acts, o, React(d, acts[0].does, acts[1..]));
      assert forall a | a in acts[1..] :: a in acts;
      if |acts| > 1 {
        assert acts[1] in acts;
        BrokenResets(e, acts[1].does[0].op, acts[1].does[0].writes);
      }
      EchoNeverEnds(e, codec, acts[1..]);
      UnfinishedStays(MessageLoop(e, codec, acts[1..]).c, o.size);
      var k := |acts| - 1;
      assert c.intake.delivered + [o.msg] + Copies(o.msg, k) == c.intake.delivered + ([o.msg] + Copies(o.msg, k));
    }
  }
}
