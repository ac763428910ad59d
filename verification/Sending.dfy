/** The output half of a connection: what the kernel takes, what stays queued, and when write events are wanted. */
module Sending {
  import opened Bytes
  import opened Codecs

  /** One write system call; `Other` is any error the loop does not tell apart, and a return of zero. */
  datatype WriteResult = Wrote(n: nat) | Interrupted | WouldBlock | Reset | Other

  /**
   * Connected with a channel or cleaned up, write interest, the bytes of `output_`, and the bytes the kernel took.
   * `faulted` records that the program has used a channel that cleanup had taken away.
   */
  datatype Out = Out(open: bool, interest: bool, queue: bytes, wire: bytes, faulted: bool)

  datatype Sent = Sent(n: nat, reset: bool, stuck: bool, interest: bool, script: seq<WriteResult>)

  /** The kernel takes at least one byte and no more than it was offered. */
  function Taken(n: nat, len: nat): (k: nat)
    requires len > 0
    ensures 0 < k <= len
  {
    if n == 0 then 1 else if n > len then len else n
  }

  /** `isend`: writes until done, blocked, reset or stuck; when the script runs out the socket is full. */
  function ISend(interest: bool, len: nat, script: seq<WriteResult>): (s: Sent)
    ensures s.n <= len
    ensures s.n < len ==> s.reset || s.stuck || s.interest
    decreases |script|
  {
    if len == 0 then Sent(0, false, false, interest, script)
    else if script == [] then Sent(0, false, false, true, [])
    else
      match script[0]
      case Wrote(n) =>
        var k := Taken(n, len);
        var s := ISend(interest, len - k, script[1..]);
        s.(n := k + s.n)
      case Interrupted => ISend(interest, len, script[1..])
      case WouldBlock => Sent(0, false, false, true, script[1..])
      case Reset => Sent(0, true, false, interest, script[1..])
      case Other => Sent(0, false, true, interest, script[1..])
  }

  /** What the kernel takes of `len` bytes when it answers so, each write offering what is left. */
  function TakenBy(len: nat, answers: seq<WriteResult>): (n: nat)
    ensures n <= len
    decreases |answers|
  {
    if answers == [] || len == 0 then 0
    else if answers[0].Wrote? then
      Taken(answers[0].n, len) + TakenBy(len - Taken(answers[0].n, len), answers[1..])
    else TakenBy(len, answers[1..])
  }

  predicate GoesOn(r: WriteResult) { r.Wrote? || r.Interrupted? }

  /** The first `k` answers, and only those, have been used, and have led to this. */
  predicate Follows(interest: bool, len: nat, script: seq<WriteResult>, k: nat, s: Sent) {
    && k <= |script| && s.script == script[k..]
    && s.n == TakenBy(len, script[..k])
    && (forall i | 0 <= i < k - 1 :: GoesOn(script[i]))
    && if s.n == len then !s.reset && !s.stuck && s.interest == interest
       else if k > 0 && !GoesOn(script[k - 1]) then
         && (s.reset <==> script[k - 1] == Reset) && (s.stuck <==> script[k - 1] == Other)
         && (s.interest <==> interest || script[k - 1] == WouldBlock)
       else k == |script| && !s.reset && !s.stuck && s.interest
  }

  /**
   * The write loop counts exactly what the kernel has taken, goes on over short writes and interruptions until
   * everything is written, and stops early only when the socket is full, which switches write interest on, or on a
   * reset or another error, each reported as what it is.
   */
  lemma {:induction false} ISendStopsExactly(interest: bool, len: nat, script: seq<WriteResult>)
    ensures
      var s := ISend(interest, len, script);
      |s.script| <= |script| && Follows(interest, len, script, |script| - |s.script|, s)
    decreases |script|
  {
    hide Follows;
    if len == 0 || script == [] || !GoesOn(script[0]) {
      FollowsAtOnce(interest, len, script);
    } else {
      var taken := if script[0].Wrote? then Taken(script[0].n, len) else 0;
      var s := ISend(interest, len - taken, script[1..]);
      ISendStopsExactly(interest, len - taken, script[1..]);
      FollowsLater(interest, len, script, |script| - 1 - |s.script|, s);
    }
  }

  lemma FollowsAtOnce(interest: bool, len: nat, script: seq<WriteResult>)
    requires len == 0 || script == [] || !GoesOn(script[0])
    ensures
      var s := ISend(interest, len, script);
      Follows(interest, len, script, if len == 0 || script == [] then 0 else 1, s)
    ensures |ISend(interest, len, script).script| == |script| - if len == 0 || script == [] then 0 else 1
  {
    assert script != [] ==> script[..1] == [script[0]] && [script[0]][1..] == [];
    assert TakenBy(len, []) == 0;
  }

  lemma FollowsLater(interest: bool, len: nat, script: seq<WriteResult>, k: nat, s: Sent)
    requires len > 0 && script != [] && GoesOn(script[0])
    requires
      var taken := if script[0].Wrote? then Taken(script[0].n, len) else 0;
      Follows(interest, len - taken, script[1..], k, s)
    ensures
      var taken := if script[0].Wrote? then Taken(script[0].n, len) else 0;
      Follows(interest, len, script, k + 1, s.(n := taken + s.n))
  {
    var rest := script[1..];
    assert script[..k + 1][1..] == rest[..k] && script[..k + 1][0] == script[0];
    assert rest[k..] == script[k + 1..];
    forall i | 0 <= i < k ensures GoesOn(script[i]) {
      if i > 0 { assert script[i] == rest[i - 1]; }
    }
    assert k > 0 ==> rest[k - 1] == script[k];
  }

  lemma ISendNothing(interest: bool, script: seq<WriteResult>)
    ensures ISend(interest, 0, script) == Sent(0, false, false, interest, script)
  {
  }

  datatype Step = Step(out: Out, script: seq<WriteResult>)

  function Closed(o: Out): Out { o.(open := false) }

  /** `send(const char *, size_t)`. */
  function SendBytes(o: Out, data: bytes, script: seq<WriteResult>): Step {
    if !o.open then Step(o, script)
    else if o.queue == [] then
      var s := ISend(o.interest, |data|, script);
      var w := o.(wire := o.wire + data[..s.n], interest := s.interest);
      Step(if s.reset then Closed(w) else w.(queue := data[s.n..]), s.script)
    else Step(o.(queue := o.queue + data), script)
  }

  /** `send(Buffer &)` of a buffer other than the output buffer. */
  function SendBuffer(o: Out, data: bytes, script: seq<WriteResult>): Step {
    if !o.open then Step(o, script)
    else if o.interest then Step(o.(queue := o.queue + data), script)
    else
      var s := ISend(false, |data|, script);
      var w := o.(wire := o.wire + data[..s.n], interest := s.interest);
      Step(if s.reset then Closed(w)
           else if s.n < |data| then w.(queue := o.queue + data[s.n..], interest := true)
           else w,
           s.script)
  }

  /** `send(Buffer &)` of the output buffer itself. */
  function SendOutput(o: Out, script: seq<WriteResult>): Step {
    if !o.open then Step(o, script)
    else
      var s := ISend(o.interest, |o.queue|, script);
      var w := o.(wire := o.wire + o.queue[..s.n], interest := s.interest);
      Step(if s.reset then Closed(w)
           else w.(queue := o.queue[s.n..], interest := s.interest || s.n < |o.queue|),
           s.script)
  }

  /** Prints into the output buffer, connected or not, and flushes it. */
  function SendPrinted(o: Out, data: bytes, script: seq<WriteResult>): Step {
    SendOutput(o.(queue := o.queue + data), script)
  }

  function SendMsg(o: Out, c: Codec, msg: bytes, script: seq<WriteResult>): Step {
    SendPrinted(o, Encode(c, msg), script)
  }

  /**
   * The sending calls: of a byte range, of a buffer, of a message through the codec, of bytes printed behind the queue
   * (as HTTP messages are), and of the output buffer as it is.
   */
  datatype SendOp = Bytes(data: bytes) | Buf(data: bytes) | Msg(c: Codec, msg: bytes) | Put(data: bytes) | Flush

  function Do(o: Out, op: SendOp, script: seq<WriteResult>): Step {
    match op
    case Bytes(data) => SendBytes(o, data, script)
    case Buf(data) => SendBuffer(o, data, script)
    case Msg(c, msg) => SendMsg(o, c, msg, script)
    case Put(data) => SendPrinted(o, data, script)
    case Flush => SendOutput(o, script)
  }

  /** The bytes a call offers to the kernel. */
  function Offer(o: Out, op: SendOp): bytes {
    if !o.open then []
    else
      match op
      case Bytes(data) => if o.queue == [] then data else []
      case Buf(data) => if o.interest then [] else data
      case _ => o.queue + Payload(op)
  }

  /** What was on the wire, and behind it what the kernel takes of `all`, up to an answer that stops the writing. */
  predicate Writes(wire: bytes, all: bytes, script: seq<WriteResult>, t: Step) {
    var k := |script| - |t.script|;
    && 0 <= k <= |script| && t.out.wire == wire + all[..TakenBy(|all|, script[..k])]
    && (TakenBy(|all|, script[..k]) == |all| || k == |script| || (k > 0 && !GoesOn(script[k - 1])))
  }

  lemma WritesAll(wire: bytes, all: bytes, interest: bool, script: seq<WriteResult>, t: Step)
    requires
      var s := ISend(interest, |all|, script);
      t.script == s.script && t.out.wire == wire + all[..s.n]
    ensures Writes(wire, all, script, t)
  {
    ISendStopsExactly(interest, |all|, script);
    hide ISend;
  }

  lemma WritesNothing(wire: bytes, script: seq<WriteResult>, t: Step)
    requires t.script == script && t.out.wire == wire
    ensures Writes(wire, [], script, t)
  {
    assert wire + [][..0] == wire;
  }

  /**
   * A call puts on the wire, at once, exactly what the kernel takes of what it offers, and it does not stop before
   * everything is written or the kernel has no more room or reports an error.
   */
  lemma SendWritesExactly(o: Out, op: SendOp, script: seq<WriteResult>)
    ensures Writes(o.wire, Offer(o, op), script, Do(o, op, script))
  {
    hide Encode, Writes, ISend;
    var all, t := Offer(o, op), Do(o, op, script);
    assert o.queue + [] == o.queue;
    if !o.open || (op.Bytes? && o.queue != []) || (op.Buf? && o.interest) {
      WritesNothing(o.wire, script, t);
    } else {
      WritesAll(o.wire, all, if op.Buf? then false else o.interest, script, t);
    }
  }

  function DoAll(o: Out, ops: seq<SendOp>, script: seq<WriteResult>): Step
    decreases |ops|
  {
    if ops == [] then Step(o, script)
    else var t := Do(o, ops[0], script); DoAll(t.out, ops[1..], t.script)
  }

  /** The end of handleWrite, after the writable callback. */
  function Settle(o: Out): Out {
    if o.queue != [] then o else if !o.open then o.(faulted := true) else o.(interest := false)
  }

  /** The first half of handleWrite: what the kernel takes of the queue. */
  function WriteQueue(o: Out, script: seq<WriteResult>): Step {
    var s := ISend(o.interest, |o.queue|, script);
    var w := o.(wire := o.wire + o.queue[..s.n], interest := s.interest);
    Step(if s.reset then Closed(w) else w.(queue := o.queue[s.n..]), s.script)
  }

  /** `handleWrite` in the connected state; `ops` is what the writable callback sends. */
  function HandleWrite(o: Out, ops: seq<SendOp>, script: seq<WriteResult>): Step {
    if !o.open then Step(o, script)
    else
      var s := WriteQueue(o, script);
      if !s.out.open then s
      else
        var t := if s.out.queue == [] then DoAll(s.out, ops, s.script) else s;
        Step(Settle(t.out), t.script)
  }

  // ----- What is conserved -----

  /** The bytes a call hands over. */
  function Payload(op: SendOp): bytes {
    match op
    case Bytes(data) => data
    case Buf(data) => data
    case Msg(c, msg) => Encode(c, msg)
    case Put(data) => data
    case Flush => []
  }

  function Payloads(ops: seq<SendOp>): bytes
    decreases |ops|
  {
    if ops == [] then [] else Payload(ops[0]) + Payloads(ops[1..])
  }

  /** Queued bytes of an open connection are waiting for a write event, so they are not stranded. */
  predicate Flowing(o: Out) { o.open && o.queue != [] ==> o.interest }

  /** `all` is everything handed over: still there in order while open, and a prefix of it on the wire afterwards. */
  predicate Conserves(o: Out, all: bytes) {
    if o.open then o.wire + o.queue == all else o.wire <= all
  }

  predicate Clean(script: seq<WriteResult>) { Other !in script }

  lemma {:induction false} CleanNeverSticks(interest: bool, len: nat, script: seq<WriteResult>)
    requires Clean(script)
    ensures !ISend(interest, len, script).stuck && Clean(ISend(interest, len, script).script)
    decreases |script|
  {
    if len > 0 && script != [] {
      match script[0]
      case Wrote(n) => CleanNeverSticks(interest, len - Taken(n, len), script[1..]);
      case Interrupted => CleanNeverSticks(interest, len, script[1..]);
      case _ =>
    }
  }

  lemma {:induction false} InterestStays(interest: bool, len: nat, script: seq<WriteResult>)
    requires interest
    ensures ISend(interest, len, script).interest
    decreases |script|
  {
    if len > 0 && script != [] {
      match script[0]
      case Wrote(n) => InterestStays(interest, len - Taken(n, len), script[1..]);
      case Interrupted => InterestStays(interest, len, script[1..]);
      case _ =>
    }
  }

  lemma Cut(wire: bytes, data: bytes, n: nat)
    requires n <= |data|
    ensures wire + data[..n] + data[n..] == wire + data && wire + data[..n] <= wire + data
  {
    assert data[..n] + data[n..] == data;
  }

  lemma SendBytesConserves(o: Out, data: bytes, script: seq<WriteResult>, all: bytes)
    requires Flowing(o) && Conserves(o, all) && Clean(script)
    ensures var t := SendBytes(o, data, script);
      Flowing(t.out) && Clean(t.script) && Conserves(t.out, all + data)
  {
    CleanNeverSticks(o.interest, |data|, script);
    Cut(o.wire, data, ISend(o.interest, |data|, script).n);
    assert o.queue == [] ==> o.wire + o.queue == o.wire;
    assert o.wire + (o.queue + data) == o.wire + o.queue + data;
  }

  lemma SendBufferConserves(o: Out, data: bytes, script: seq<WriteResult>, all: bytes)
    requires Flowing(o) && Conserves(o, all) && Clean(script)
    ensures var t := SendBuffer(o, data, script);
      Flowing(t.out) && Clean(t.script) && Conserves(t.out, all + data)
  {
    CleanNeverSticks(false, |data|, script);
    Cut(o.wire, data, ISend(false, |data|, script).n);
    assert o.queue == [] ==> o.wire + o.queue == o.wire && forall rest: bytes :: o.queue + rest == rest;
    assert o.wire + (o.queue + data) == o.wire + o.queue + data;
  }

  /** The output buffer may hold bytes that no write event waits for yet: the ones being flushed. */
  lemma SendOutputConserves(o: Out, script: seq<WriteResult>, all: bytes)
    requires Conserves(o, all) && Clean(script)
    ensures var t := SendOutput(o, script);
      Flowing(t.out) && Clean(t.script) && Conserves(t.out, all)
  {
    CleanNeverSticks(o.interest, |o.queue|, script);
    Cut(o.wire, o.queue, ISend(o.interest, |o.queue|, script).n);
  }

  lemma SendPrintedConserves(o: Out, data: bytes, script: seq<WriteResult>, all: bytes)
    requires Flowing(o) && Conserves(o, all) && Clean(script)
    ensures var t := SendPrinted(o, data, script);
      Flowing(t.out) && Clean(t.script) && Conserves(t.out, all + data)
  {
    assert o.wire + (o.queue + data) == o.wire + o.queue + data;
    SendOutputConserves(o.(queue := o.queue + data), script, all + data);
    hide SendOutput;
  }

  lemma WriteQueueConserves(o: Out, script: seq<WriteResult>, all: bytes)
    requires o.open && Flowing(o) && Conserves(o, all) && Clean(script)
    ensures var t := WriteQueue(o, script);
      Flowing(t.out) && Clean(t.script) && Conserves(t.out, all)
  {
    CleanNeverSticks(o.interest, |o.queue|, script);
    Cut(o.wire, o.queue, ISend(o.interest, |o.queue|, script).n);
  }

  lemma DoConserves(o: Out, op: SendOp, script: seq<WriteResult>, all: bytes)
    requires Flowing(o) && Conserves(o, all) && Clean(script)
    ensures var t := Do(o, op, script);
      Flowing(t.out) && Clean(t.script) && Conserves(t.out, all + Payload(op))
  {
    hide Encode, SendBytes, SendBuffer, SendOutput, SendPrinted;
    match op
    case Bytes(data) => SendBytesConserves(o, data, script, all);
    case Buf(data) => SendBufferConserves(o, data, script, all);
    case Msg(c, msg) => SendPrintedConserves(o, Encode(c, msg), script, all);
    case Put(data) => SendPrintedConserves(o, data, script, all);
    case Flush =>
      assert all + [] == all;
      SendOutputConserves(o, script, all);
  }

  lemma {:induction false} DoAllConserves(o: Out, ops: seq<SendOp>, script: seq<WriteResult>, all: bytes)
    requires Flowing(o) && Conserves(o, all) && Clean(script)
    ensures var t := DoAll(o, ops, script);
      Flowing(t.out) && Clean(t.script) && Conserves(t.out, all + Payloads(ops))
    decreases |ops|
  {
    if ops == [] {
      assert all + [] == all;
    } else {
      DoConserves(o, ops[0], script, all);
      var t := Do(o, ops[0], script);
      DoAllConserves(t.out, ops[1..], t.script, all + Payload(ops[0]));
      assert all + Payload(ops[0]) + Payloads(ops[1..]) == all + Payloads(ops);
    }
  }

  /** What a write event hands over: what its callback sends, if the callback runs. */
  function Handed(o: Out, ops: seq<SendOp>, script: seq<WriteResult>): bytes {
    var s := ISend(o.interest, |o.queue|, script);
    if o.open && !s.reset && s.n == |o.queue| then Payloads(ops) else []
  }

  lemma HandleWriteConserves(o: Out, ops: seq<SendOp>, script: seq<WriteResult>, all: bytes)
    requires Flowing(o) && Conserves(o, all) && Clean(script)
    ensures var t := HandleWrite(o, ops, script);
      && Flowing(t.out) && Clean(t.script) && Conserves(t.out, all + Handed(o, ops, script))
      && (o.open && t.out.open ==> (t.out.interest <==> t.out.queue != []))
  {
    assert all + [] == all;
    if o.open {
      var s := WriteQueue(o, script);
      WriteQueueConserves(o, script, all);
      if s.out.open {
        DoAllConserves(s.out, if s.out.queue == [] then ops else [], s.script, all);
      }
    }
  }

  // ----- Whole connected periods -----

  datatype Event = Call(op: SendOp) | Writable(ops: seq<SendOp>)

  function React(o: Out, e: Event, script: seq<WriteResult>): Step {
    match e
    case Call(op) => Do(o, op, script)
    case Writable(ops) => HandleWrite(o, ops, script)
  }

  function Submitted(o: Out, e: Event, script: seq<WriteResult>): bytes {
    match e
    case Call(op) => Payload(op)
    case Writable(ops) => Handed(o, ops, script)
  }

  function Run(o: Out, events: seq<Event>, script: seq<WriteResult>): Step
    decreases |events|
  {
    if events == [] then Step(o, script)
    else var t := React(o, events[0], script); Run(t.out, events[1..], t.script)
  }

  function SubmittedIn(o: Out, events: seq<Event>, script: seq<WriteResult>): bytes
    decreases |events|
  {
    if events == [] then []
    else var t := React(o, events[0], script);
      Submitted(o, events[0], script) + SubmittedIn(t.out, events[1..], t.script)
  }

  lemma ReactConserves(o: Out, e: Event, script: seq<WriteResult>, all: bytes)
    requires Flowing(o) && Conserves(o, all) && Clean(script)
    ensures var t := React(o, e, script);
      Flowing(t.out) && Clean(t.script) && Conserves(t.out, all + Submitted(o, e, script))
  {
    match e
    case Call(op) => DoConserves(o, op, script, all);
    case Writable(ops) => HandleWriteConserves(o, ops, script, all);
  }

  /**
   * Over a whole connected period, whatever the kernel takes at a time: what is on the wire followed by what is
   * queued is what was submitted, in order; a reset leaves a prefix on the wire; and no queued byte is stranded.
   */
  lemma {:induction false} OutputIsConserved(o: Out, events: seq<Event>, script: seq<WriteResult>, all: bytes)
    requires Flowing(o) && Conserves(o, all) && Clean(script)
    ensures var t := Run(o, events, script);
      Flowing(t.out) && Clean(t.script) && Conserves(t.out, all + SubmittedIn(o, events, script))
    decreases |events|
  {
    hide React, Submitted, Clean, Flowing, Conserves;
    if events == [] {
      assert all + [] == all;
    } else {
      var e := events[0];
      ReactConserves(o, e, script, all);
      var t := React(o, e, script);
      OutputIsConserved(t.out, events[1..], t.script, all + Submitted(o, e, script));
      assert all + Submitted(o, e, script) + SubmittedIn(t.out, events[1..], t.script)
          == all + SubmittedIn(o, events, script);
    }
  }

  // ----- Exactly when bytes can be stranded -----

  /** The handshake switches write interest off without looking at the queue. */
  function EnterConnected(o: Out): Out { o.(open := true, interest := false) }

  lemma ConnectedFlowsExactly(o: Out)
    ensures Flowing(EnterConnected(o)) <==> o.queue == []
  {
  }

  lemma {:induction false} StuckMeansShort(interest: bool, len: nat, script: seq<WriteResult>)
    ensures var s := ISend(interest, len, script);
      s.stuck ==> s.n < len && !s.reset && s.interest == interest
    decreases |script|
  {
    if len > 0 && script != [] {
      match script[0]
      case Wrote(n) => StuckMeansShort(interest, len - Taken(n, len), script[1..]);
      case Interrupted => StuckMeansShort(interest, len, script[1..]);
      case _ =>
    }
  }

  /**
   * Of the sending calls, only send of a byte range with nothing queued can strand bytes, and it does exactly when
   * the write loop stops on an error it does not tell apart.
   */
  lemma CallStrandsExactly(o: Out, op: SendOp, script: seq<WriteResult>)
    requires o.open && Flowing(o)
    ensures !Flowing(Do(o, op, script).out) <==>
      (op.Bytes? && o.queue == [] && !o.interest && ISend(false, |op.data|, script).stuck)
  {
    var data := if op.Bytes? || op.Buf? then op.data else o.queue + Payload(op);
    StuckMeansShort(o.interest, |data|, script);
    if o.interest { InterestStays(true, |data|, script); }
    if op.Flush? {
      StuckMeansShort(o.interest, |o.queue|, script);
      if o.interest { InterestStays(true, |o.queue|, script); }
    }
  }

  /** Stranded bytes are overtaken: a later buffer goes straight to the wire. */
  lemma StrandedBytesAreOvertaken() returns (t: Step)
    ensures t == Run(Out(true, false, [], [], false), [Call(Bytes("ab")), Call(Buf("cd"))], [Other, Wrote(2)])
    ensures t.out.wire == "cd" && t.out.queue == "ab"
  {
    var o := Out(true, false, [], [], false);
    var a := Do(o, Bytes("ab"), [Other, Wrote(2)]);
    assert [Other, Wrote(2)][1..] == [Wrote(2)];
    assert a == Step(o.(queue := "ab"), [Wrote(2)]);
    var b := Do(a.out, Buf("cd"), [Wrote(2)]);
    assert ISend(false, 2, [Wrote(2)]).n == 2;
    var es := [Call(Bytes("ab")), Call(Buf("cd"))];
    assert es[1..] == [Call(Buf("cd"))] && es[1..][1..] == [];
    t := b;
    assert Run(a.out, es[1..], a.script) == Run(b.out, [], b.script);
  }

  /**
   * Write interest without queued bytes: flushing the output buffer leaves it on exactly when it was on before and
   * the kernel took everything; the next write event switches it off.
   */
  lemma FlushLeavesIdleInterestExactly(o: Out, script: seq<WriteResult>)
    requires o.open
    ensures var t := SendOutput(o, script).out;
      (t.open && t.interest && t.queue == []) <==>
      (o.interest && ISend(true, |o.queue|, script).n == |o.queue| && !ISend(true, |o.queue|, script).reset)
  {
    if o.interest {
      InterestStays(true, |o.queue|, script);
    } else {
      QuietWhenDone(|o.queue|, script);
    }
  }

  lemma {:induction false} QuietWhenDone(len: nat, script: seq<WriteResult>)
    ensures var s := ISend(false, len, script); s.n == len && !s.reset ==> !s.interest
    decreases |script|
  {
    if len > 0 && script != [] {
      match script[0]
      case Wrote(n) => QuietWhenDone(len - Taken(n, len), script[1..]);
      case Interrupted => QuietWhenDone(len, script[1..]);
      case _ =>
    }
  }

  lemma {:induction false} DoAllFaultless(o: Out, ops: seq<SendOp>, script: seq<WriteResult>)
    ensures DoAll(o, ops, script).out.faulted == o.faulted
    decreases |ops|
  {
    if ops != [] {
      var t := Do(o, ops[0], script);
      DoAllFaultless(t.out, ops[1..], t.script);
    }
  }

  /** How many calls come before the one that meets a reset; all of them when none does. */
  function MeetsReset(o: Out, ops: seq<SendOp>, script: seq<WriteResult>): (i: nat)
    ensures i <= |ops|
    decreases |ops|
  {
    if ops == [] then 0
    else
      var t := Do(o, ops[0], script);
      if t.out.open then 1 + MeetsReset(t.out, ops[1..], t.script) else 0
  }

  /** Whether a call puts bytes behind the queue without looking at the connection. */
  predicate Prints(op: SendOp) { op.Msg? || (op.Put? && op.data != []) }

  /** On a connection that is gone only what is printed still reaches the queue. */
  lemma {:induction false} AfterReset(o: Out, ops: seq<SendOp>, script: seq<WriteResult>)
    requires !o.open
    ensures
      var t := DoAll(o, ops, script).out;
      !t.open && (t.queue == [] <==> o.queue == [] && forall op | op in ops :: !Prints(op))
    decreases |ops|
  {
    if ops != [] {
      var t := Do(o, ops[0], script);
      AfterReset(t.out, ops[1..], t.script);
      OneAfterReset(o, ops[0], script);
      hide Encode, Do, Prints;
      assert forall op | op in ops :: op == ops[0] || op in ops[1..];
    }
  }

  lemma OneAfterReset(o: Out, op: SendOp, script: seq<WriteResult>)
    requires !o.open
    ensures var t := Do(o, op, script).out; !t.open && (t.queue == [] <==> o.queue == [] && !Prints(op))
  {
    if op.Msg? { assert |Encode(op.c, op.msg)| > 0; }
    hide Encode;
  }

  lemma {:induction false} ResetNeedsBytes(interest: bool, len: nat, script: seq<WriteResult>)
    ensures ISend(interest, len, script).reset ==> len > 0
  {
  }

  /** A reset leaves the queue as it was: empty after a range or a buffer, not empty after a flush or a message. */
  lemma ResetLeaves(o: Out, op: SendOp, script: seq<WriteResult>)
    requires o.open && Flowing(o) && !Do(o, op, script).out.open
    ensures Do(o, op, script).out.queue == [] <==> op.Bytes? || op.Buf?
  {
    ResetNeedsBytes(o.interest, |o.queue|, script);
    if op.Msg? { ResetNeedsBytes(o.interest, |o.queue + Encode(op.c, op.msg)|, script); }
    if op.Put? { ResetNeedsBytes(o.interest, |o.queue + op.data|, script); }
    hide Encode, ISend;
  }

  /** The queue is empty on a connection that is gone, in terms of the calls alone. */
  lemma {:induction false} ResetLeavesNothingExactly(o: Out, ops: seq<SendOp>, script: seq<WriteResult>)
    requires o.open && Flowing(o) && Clean(script)
    ensures
      var t, i := DoAll(o, ops, script).out, MeetsReset(o, ops, script);
      (!t.open && t.queue == []) <==>
        (i < |ops| && (ops[i].Bytes? || ops[i].Buf?) && forall j | i < j < |ops| :: !Prints(ops[j]))
    decreases |ops|
  {
    if ops != [] {
      var t := Do(o, ops[0], script);
      DoConserves(o, ops[0], script, o.wire + o.queue);
      if t.out.open {
        ResetLeavesNothingExactly(t.out, ops[1..], t.script);
        assert forall j | 0 < j < |ops| :: ops[1..][j - 1] == ops[j];
        var i := MeetsReset(t.out, ops[1..], t.script);
        if i + 1 < |ops| { assert ops[1..][i] == ops[i + 1]; }
        assert (forall j | i + 1 < j < |ops| :: !Prints(ops[j]))
          <==> forall j | i < j < |ops| - 1 :: !Prints(ops[1..][j]);
      } else {
        ResetLeaves(o, ops[0], script);
        AfterReset(t.out, ops[1..], t.script);
        assert forall j | 0 < j < |ops| :: ops[1..][j - 1] == ops[j];
        hide Do;
        assert (forall op | op in ops[1..] :: !Prints(op)) <==> forall j | 0 < j < |ops| :: !Prints(ops[j]);
      }
    }
  }

  /**
   * A write event uses a channel that is gone exactly when it wrote the whole queue and its callback then met a reset
   * in a send of a byte range or of a buffer, and printed nothing behind the queue after that.
   */
  lemma HandleWriteFaultsExactly(o: Out, ops: seq<SendOp>, script: seq<WriteResult>)
    requires o.open && !o.faulted && Clean(script)
    ensures
      var s := ISend(o.interest, |o.queue|, script);
      var idle := o.(wire := o.wire + o.queue, interest := s.interest, queue := []);
      var i := MeetsReset(idle, ops, s.script);
      HandleWrite(o, ops, script).out.faulted <==>
        (!s.reset && s.n == |o.queue|
         && i < |ops| && (ops[i].Bytes? || ops[i].Buf?) && forall j | i < j < |ops| :: !Prints(ops[j]))
  {
    var s := ISend(o.interest, |o.queue|, script);
    var idle := o.(wire := o.wire + o.queue, interest := s.interest, queue := []);
    CleanNeverSticks(o.interest, |o.queue|, script);
    DoAllFaultless(idle, ops, s.script);
    ResetLeavesNothingExactly(idle, ops, s.script);
    if s.n == |o.queue| {
      assert o.queue[..s.n] == o.queue && o.queue[s.n..] == [];
    }
    hide DoAll, MeetsReset, ISend;
  }
}
