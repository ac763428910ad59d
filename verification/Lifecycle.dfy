/**
 * The state machine of a connection: handshake, messages, close and reconnect, with the callbacks that run inside one
 * another when a callback closes the channel or a send meets a reset.
 */
module Lifecycle {
  import opened Bytes
  import opened Codecs
  import opened Framing
  import S = Sending

  datatype State = Invalid | Handshaking | Connected | Closed | Failed

  /** The channel pointer: null, or a channel whose descriptor is open or has been closed. */
  datatype Channel = Null | Chan(open: bool)

  /** Idle registrations: none, nodes in their lists, or handles left over from erased nodes. */
  datatype Idle = Unused | Registered | Erased

  /** What reads the input: nothing, a callback of the user's own, or the message loop of onMsg. */
  datatype Reader = NoReader | Raw | Messages(codec: Codec)

  /**
   * `Faulted`: the program has used a null channel or an erased idle node, consumed bytes the buffer does not hold, or
   * handed out a slice of negative length. `Aborted`: a fatal check has stopped it. `Unfinished`: callbacks went on
   * running beyond the acts given for them.
   */
  datatype Health = Sound | Faulted | Aborted | Unfinished

  /**
   * The output half: write interest and the output buffer. `broken` says that the socket has reported a reset: it takes
   * no more bytes and reports it again. The rest are records that the program does not keep: `wire` is what the
   * kernel has taken in the current attach, and `handed` what was queued at its beginning followed by what has been
   * handed over since; `clean` says that the handshake found nothing queued and that no write on the open socket has
   * failed in a way that the write loop does not tell apart.
   */
  datatype Outgoing = Outgoing(interest: bool, queue: bytes, wire: bytes, handed: bytes, clean: bool, broken: bool)

  /** Which callbacks are set, and what the read callback is. */
  datatype Hooks = Hooks(hasState: bool, hasRead: bool, hasWritable: bool, reader: Reader)

  /**
   * The input buffer, and records of the current attach that the program does not keep: its messages, and what the
   * buffer held when it began followed by what has been received since.
   */
  datatype Intake = Intake(input: bytes, delivered: seq<bytes>, stream: bytes)

  /**
   * What ties a connection to its event base: `waiting` is membership in the set of reconnecting connections, and
   * `retries` counts pending reconnect timers.
   */
  datatype Link = Link(idle: Idle, reconnects: bool, exited: bool, connectTimer: bool, waiting: bool, retries: nat)

  /** `notes` are the state callbacks of the current attach, another record. */
  datatype Conn = Conn(state: State, channel: Channel, notes: seq<State>, hooks: Hooks, intake: Intake, out: Outgoing,
                       link: Link, health: Health)

  predicate Live(c: Conn) { c.state == Handshaking || c.state == Connected }

  predicate IsOpen(c: Conn) { c.channel == Chan(true) }

  predicate Reconnecting(c: Conn) { c.link.reconnects && !c.link.exited }

  function Fault(c: Conn): Conn { c.(health := Faulted) }

  function Abort(c: Conn): Conn { c.(health := Aborted) }

  /**
   * What a user callback does: closes the channel at once (closeNow), or sends, with what the kernel answers to the
   * writes. Closing later, through close(), is an event of its own.
   */
  datatype Deed = CloseNow | Send(op: S.SendOp, writes: seq<S.WriteResult>)

  /** One run of a user callback; a read callback of the user's own first takes bytes from the input. */
  datatype Act = Act(takes: nat, does: seq<Deed>)

  /** A connection and what the callbacks still to run are going to do. */
  datatype Walk = Walk(c: Conn, acts: seq<Act>)

  /** What bounds the nesting of callbacks: the acts to come and the one descriptor there is to close. */
  function Fuel(c: Conn, acts: seq<Act>): nat { 2 * |acts| + if IsOpen(c) then 1 else 0 }

  function TooFew(c: Conn): Walk { Walk(c.(health := Unfinished), []) }

  // ----- Sending -----

  /** The output half of a connection. */
  function Half(c: Conn): S.Out { S.Out(c.channel != Null, c.out.interest, c.out.queue, c.out.wire, false) }

  /** What the kernel really answers: writes on a closed descriptor fail, and a reset socket stays reset. */
  function Answers(c: Conn, writes: seq<S.WriteResult>): seq<S.WriteResult> {
    if !IsOpen(c) then [S.Other] else if c.out.broken then [S.Reset] else writes
  }

  function Attempt(c: Conn, op: S.SendOp, writes: seq<S.WriteResult>): S.Out {
    S.Do(Half(c), op, Answers(c, writes)).out
  }

  /** The connection after a deed that neither closes nor stops the program; a reset leaves the rest to cleanup. */
  function After(c: Conn, d: Deed): Conn {
    match d
    case CloseNow => c
    case Send(op, writes) =>
      var o := Attempt(c, op, writes);
      c.(out := Outgoing(o.interest, o.queue, o.wire, c.out.handed + S.Payload(op),
                         c.out.clean && (IsOpen(c) ==> S.Clean(writes)),
                         c.out.broken || (c.channel != Null && !o.open)))
  }

  predicate Closes(c: Conn, d: Deed) { d.CloseNow? && IsOpen(c) }

  predicate Resets(c: Conn, d: Deed) { d.Send? && c.channel != Null && !Attempt(c, d.op, d.writes).open }

  /** Switching write interest on for a closed descriptor: the poller's fatal check fails. */
  predicate Aborts(c: Conn, d: Deed) {
    d.Send? && c.channel == Chan(false) && !c.out.interest && Attempt(c, d.op, d.writes).interest
  }

  // ----- The end of cleanup -----

  function Note(c: Conn): Conn { if c.hooks.hasState then c.(notes := c.notes + [c.state]) else c }

  /** The part of cleanup after the read callback: the state and its callback, and then `Detach`. */
  function Finish(c: Conn): (d: Conn)
    ensures IsOpen(d) ==> IsOpen(c)
  {
    Detach(Ended(c))
  }

  lemma FinishIs(c: Conn)
    ensures Finish(c) == Detach(Ended(c))
  {
  }

  function Ended(c: Conn): Conn {
    Note(c.(state := if c.state == Handshaking then Failed else Closed, link := c.link.(connectTimer := false)))
  }

  /** `reconnect`: joins the waiting set, starts the timer, and closes the channel, which must still be there. */
  function Reconnect(d: Conn): Conn {
    var r := d.(link := d.link.(waiting := true, retries := d.link.retries + 1));
    if r.channel == Null then Fault(r) else r.(channel := Null)
  }

  function Detach(d: Conn): Conn {
    if Reconnecting(d) then Reconnect(d)
    else if d.link.idle == Erased then Fault(d)
    else
      d.(link := d.link.(idle := if d.link.idle == Registered then Erased else d.link.idle),
         hooks := d.hooks.(hasRead := false, hasState := false, hasWritable := false), channel := Null)
  }

  // ----- Callbacks inside callbacks -----

  function Took(c: Conn, a: Act): Conn {
    c.(intake := c.intake.(input := if a.takes <= |c.intake.input| then c.intake.input[a.takes..] else []))
  }

  function Delivered(c: Conn, m: bytes): (d: Conn)
    ensures d.channel == c.channel
  {
    c.(intake := c.intake.(delivered := c.intake.delivered + [m]))
  }

  /** `getInput().consume(n)`, which does not look at what is left. */
  function Consumed(c: Conn, n: nat): (d: Conn)
    ensures d.channel == c.channel
  {
    if c.health != Sound then c
    else if |c.intake.input| < n then Fault(c)
    else c.(intake := c.intake.(input := c.intake.input[n..]))
  }

  /** `readcb_(con)`. */
  function ReadCallback(c: Conn, acts: seq<Act>): (w: Walk)
    ensures Fuel(w.c, w.acts) <= Fuel(c, acts)
    decreases Fuel(c, acts), 2
  {
    match c.hooks.reader
    case NoReader => Walk(c, acts)
    case Raw => if acts == [] then TooFew(c) else React(Took(c, acts[0]), acts[0].does, acts[1..])
    case Messages(codec) => MessageLoop(c, codec, acts)
  }

  /** The loop of onMsg: a message is consumed after its callback has returned, whatever that callback did. */
  function MessageLoop(c: Conn, codec: Codec, acts: seq<Act>): (w: Walk)
    ensures Fuel(w.c, w.acts) <= Fuel(c, acts)
    decreases Fuel(c, acts), 1
  {
    hide Decode, Consumed, Delivered;
    match Decode(codec, c.intake.input)
    case More => Walk(c, acts)
    case Bad => Close(c, acts)
    case Wild(_) => Walk(Fault(c), acts)
    case Frame(n, m) =>
      if acts == [] then TooFew(c)
      else
        var w := React(Delivered(c, m), acts[0].does, acts[1..]);
        var d := Consumed(w.c, n);
        if d.health != Sound then Walk(d, w.acts) else MessageLoop(d, codec, w.acts)
  }

  /** `channel_->close()`: the descriptor goes first and then the channel's read callback finds it closed. */
  function Close(c: Conn, acts: seq<Act>): (w: Walk)
    ensures Fuel(w.c, w.acts) <= Fuel(c, acts)
    decreases Fuel(c, acts), 0
  {
    if c.channel == Null then Walk(Fault(c), acts)
    else if !c.channel.open then Walk(c, acts)
    else if Live(c) then Cleanup(c.(channel := Chan(false)), acts)
    else Walk(c.(channel := Chan(false)), acts)
  }

  function Cleanup(c: Conn, acts: seq<Act>): (w: Walk)
    ensures Fuel(w.c, w.acts) <= Fuel(c, acts)
    decreases Fuel(c, acts), 3
  {
    hide Finish;
    var w := if c.hooks.hasRead && c.intake.input != [] then ReadCallback(c, acts) else Walk(c, acts);
    if w.c.health != Sound then w else Walk(Finish(w.c), w.acts)
  }

  /** One deed of a user callback. closeNow and send test the channel, which may be there with its descriptor closed. */
  function DoDeed(c: Conn, d: Deed, acts: seq<Act>): (w: Walk)
    ensures Fuel(w.c, w.acts) <= Fuel(c, acts)
    decreases Fuel(c, acts), 4
  {
    if Closes(c, d) then Close(c, acts)
    else if Resets(c, d) then Cleanup(After(c, d), acts)
    else if Aborts(c, d) then Walk(Abort(c), acts)
    else Walk(After(c, d), acts)
  }

  /** The rest of a user callback. */
  function React(c: Conn, does: seq<Deed>, acts: seq<Act>): (w: Walk)
    ensures Fuel(w.c, w.acts) <= Fuel(c, acts)
    decreases Fuel(c, acts), 5, |does|
  {
    if does == [] then Walk(c, acts)
    else
      var w := DoDeed(c, does[0], acts);
      if w.c.health != Sound then w else React(w.c, does[1..], w.acts)
  }

  /** A state callback or a writable callback. */
  function RunAct(c: Conn, acts: seq<Act>): Walk {
    if acts == [] then TooFew(c) else React(c, acts[0].does, acts[1..])
  }

  /** Closing the channel of a closed or failed connection only takes the descriptor. */
  lemma CloseOfDead(c: Conn, acts: seq<Act>)
    requires !Live(c) && c.channel != Null
    ensures Close(c, acts) == Walk(c.(channel := Chan(false)), acts)
  {
  }

  // ----- Events -----

  /** The handshake has come through: write interest goes off, whatever is queued. */
  function Greet(c: Conn): Conn {
    Note(c.(state := Connected, out := c.out.(interest := false, clean := c.out.clean && c.out.queue == [])))
  }

  function Handshake(c: Conn, ok: bool, acts: seq<Act>): Walk {
    if ok then
      var d := Greet(c);
      if d.hooks.hasState then RunAct(d, acts) else Walk(d, acts)
    else Cleanup(c, acts)
  }

  /** A new channel, with interest in writing; the buffers keep what an earlier connection has left in them. */
  function Attach(c: Conn): Conn {
    c.(state := Handshaking, channel := Chan(true), notes := [],
       intake := c.intake.(delivered := [], stream := c.intake.input),
       out := Outgoing(true, c.out.queue, [], c.out.queue, true, false))
  }

  function Connect(c: Conn, timeout: bool): Conn {
    Attach(c).(link := Attach(c).link.(connectTimer := timeout && !c.link.exited))
  }

  /**
   * What happens to a connection between two stable points, with what the callbacks in it do, in order. `shook` is the
   * handshake's outcome; a read event brings in `data` and `end` says that the stream ended; `writes` is what the
   * kernel answers when a write event flushes the queue.
   */
  datatype Event =
    | Accept
    | Dial(timeout: bool)
    | Readable(shook: bool, data: bytes, end: bool, acts: seq<Act>)
    | Writable(shook: bool, writes: seq<S.WriteResult>, acts: seq<Act>)
    | User(does: seq<Deed>, acts: seq<Act>)
    | ConnectTimeout(acts: seq<Act>)
    | Retry(timeout: bool)
    | SetReconnect(on: bool)
    | AddIdle
    | Exit

  function Receive(c: Conn, data: bytes): Conn {
    c.(intake := c.intake.(input := c.intake.input + data, stream := c.intake.stream + data))
  }

  /** The read loop and what follows it, on an open descriptor. */
  function ReadConnected(c: Conn, data: bytes, end: bool, acts: seq<Act>): Walk {
    var f := Receive(c, data);
    if end then Cleanup(f, acts)
    else if f.hooks.hasRead && f.intake.input != [] then ReadCallback(f, acts)
    else Walk(f, acts)
  }

  function Read(c: Conn, e: Event): Conn
    requires e.Readable?
  {
    var w := if c.state == Handshaking then Handshake(c, e.shook, e.acts) else Walk(c, e.acts);
    if (c.state == Handshaking && !e.shook) || w.c.health != Sound || w.c.state != Connected then w.c
    else ReadConnected(w.c, e.data, e.end, w.acts).c
  }

  /** The queue after a write event has flushed it. */
  function Flushed(c: Conn, writes: seq<S.WriteResult>): Conn {
    var o := S.WriteQueue(Half(c), Answers(c, writes)).out;
    c.(out := Outgoing(o.interest, o.queue, o.wire, c.out.handed, c.out.clean && S.Clean(writes),
                       c.out.broken || !o.open))
  }

  predicate FlushResets(c: Conn, writes: seq<S.WriteResult>) { !S.WriteQueue(Half(c), Answers(c, writes)).out.open }

  /** The write event on a connected socket: the writable callback runs once the queue is empty. */
  function WriteConnected(c: Conn, writes: seq<S.WriteResult>, acts: seq<Act>): Conn {
    var f := Flushed(c, writes);
    if FlushResets(c, writes) then Cleanup(f, acts).c
    else
      var d := if f.out.queue == [] && f.hooks.hasWritable then RunAct(f, acts).c else f;
      if d.health != Sound || d.out.queue != [] then d
      else if d.channel == Null then Fault(d)
      else d.(out := d.out.(interest := false))
  }

  function Write(c: Conn, e: Event): Conn
    requires e.Writable?
  {
    if c.state == Handshaking then Handshake(c, e.shook, e.acts).c
    else if c.state == Connected then WriteConnected(c, e.writes, e.acts)
    else c
  }

  /** Events that can happen: descriptors report only while open, and timers fire only while pending. */
  predicate Possible(c: Conn, e: Event) {
    match e
    case Accept => c.state == Invalid
    case Dial(_) => c.state == Invalid
    case Readable(_, _, _, _) => c.channel == Chan(true) || !Live(c)
    case Writable(_, _, _) => c.channel == Chan(true)
    case User(_, _) => true
    case ConnectTimeout(_) => c.link.connectTimer
    case Retry(_) => c.link.retries > 0
    case SetReconnect(_) => true
    case AddIdle => c.link.idle == Unused && c.channel != Null
    case Exit => true
  }

  function Step(c: Conn, e: Event): Conn
    requires Possible(c, e)
  {
    match e
    case Accept => Attach(c)
    case Dial(timeout) => Connect(c, timeout)
    case Readable(_, _, _, _) => Read(c, e)
    case Writable(_, _, _) => Write(c, e)
    case User(does, acts) => React(c, does, acts).c
    case ConnectTimeout(acts) =>
      var d := c.(link := c.link.(connectTimer := false));
      if d.state == Handshaking then Close(d, acts).c else d
    case Retry(timeout) => Connect(c.(link := c.link.(waiting := false, retries := c.link.retries - 1)), timeout)
    case SetReconnect(on) => c.(link := c.link.(reconnects := on))
    case AddIdle => c.(link := c.link.(idle := Registered))
    case Exit => c.(link := c.link.(exited := true))
  }

  // ----- What orderly runs keep -----

  predicate GoodNotes(notes: seq<State>) {
    notes == [] || notes == [Connected] || notes == [Connected, Closed] || notes == [Failed]
  }

  /**
   * The notes of an attach match its state; a live connection has an open channel; and a connection is waiting for a
   * reconnect exactly when its one timer is pending, and then it has no channel and is closed or failed.
   */
  predicate Core(c: Conn) {
    && c.health == Sound
    && (c.state == Invalid ==> c.channel == Null && c.notes == [] && !c.link.connectTimer)
    && (c.state == Handshaking ==> c.channel == Chan(true) && c.notes == [])
    && (c.state == Connected ==> c.channel == Chan(true) && c.notes == if c.hooks.hasState then [Connected] else [])
    && (c.state == Closed || c.state == Failed ==> c.channel == Null && GoodNotes(c.notes) && !c.link.connectTimer)
    && (c.link.waiting <==> c.link.retries == 1)
    && c.link.retries <= 1
    && (c.link.waiting ==> c.state == Closed || c.state == Failed)
    && (c.hooks.reader != NoReader ==> c.hooks.hasRead || ((c.state == Closed || c.state == Failed) && !c.link.waiting))
    && (c.link.idle == Erased ==> (c.state == Closed || c.state == Failed) && !c.link.waiting && !c.hooks.hasRead)
  }

  /** No complete message waits in the buffer, and what was delivered is what the stream says. */
  predicate UpToDate(c: Conn) {
    match c.hooks.reader
    case Messages(codec) =>
      && !Decode(codec, c.intake.input).Frame? && !Decode(codec, c.intake.input).Wild?
      && (EotSafe(codec, c.intake.stream) ==>
            Pump(codec, c.intake.stream).msgs == c.intake.delivered
              && Pump(codec, c.intake.stream).rest == c.intake.input)
    case _ => true
  }

  predicate Inv(c: Conn) { Core(c) && UpToDate(c) }

  // ----- Which acts are harmless -----

  /**
   * A callback that only sends: it does not close the channel, none of its sends meets a reset, and on a closed
   * descriptor none switches write interest on.
   */
  predicate Gentle(c: Conn, does: seq<Deed>)
    decreases |does|
  {
    does == [] ||
    (!Closes(c, does[0]) && !Resets(c, does[0]) && !Aborts(c, does[0]) && Gentle(After(c, does[0]), does[1..]))
  }

  /** What a gentle callback leaves. */
  function Sent(c: Conn, does: seq<Deed>): Conn
    decreases |does|
  {
    if does == [] then c else Sent(After(c, does[0]), does[1..])
  }

  /** The next `n` callbacks are all gentle. */
  predicate Inert(c: Conn, acts: seq<Act>, n: nat)
    decreases n
  {
    n == 0 || (acts != [] && Gentle(c, acts[0].does) && Inert(Sent(c, acts[0].does), acts[1..], n - 1))
  }

  function SentBy(c: Conn, acts: seq<Act>, n: nat): Conn
    requires n <= |acts|
    decreases n
  {
    if n == 0 then c else SentBy(Sent(c, acts[0].does), acts[1..], n - 1)
  }

  lemma {:induction false} InertIsCovered(c: Conn, acts: seq<Act>, n: nat)
    requires Inert(c, acts, n)
    ensures n <= |acts|
    decreases n
  {
    if n > 0 { InertIsCovered(Sent(c, acts[0].does), acts[1..], n - 1); }
  }

  /** A connection that must not go through cleanup twice: it would reconnect twice or erase idle nodes twice. */
  predicate Fragile(c: Conn) { Reconnecting(c) || c.link.idle == Registered }

  /**
   * A cleanup whose run of the read callback is gentle, or else closes or meets a reset on a connection that can bear
   * it, and in any case sends no buffer or message on a closed descriptor with write interest off.
   */
  predicate CleanupTame(c: Conn, acts: seq<Act>)
    decreases |acts|, 0
  {
    !c.hooks.hasRead || c.intake.input == [] ||
    match c.hooks.reader
    case NoReader => true
    case Raw =>
      && acts != []
      && ReactTame(Took(c, acts[0]), acts[0].does, acts[1..])
      && (Gentle(Took(c, acts[0]), acts[0].does) || !Fragile(c))
    case Messages(codec) =>
      var p := Pump(codec, c.intake.input);
      && Inert(c, acts, |p.msgs|)
      && p.status != Undefined
      && (p.status == Broken && IsOpen(c) ==> !Fragile(c))
  }

  /** A callback that is gentle, or up to a close or a reset whose cleanup is tame. */
  predicate ReactTame(c: Conn, does: seq<Deed>, acts: seq<Act>)
    decreases |acts|, 1, |does|
  {
    does == [] ||
    if Closes(c, does[0]) then CleanupTame(c.(channel := Chan(false)), acts)
    else if Resets(c, does[0]) then CleanupTame(After(c, does[0]), acts)
    else !Aborts(c, does[0]) && ReactTame(After(c, does[0]), does[1..], acts)
  }

  predicate RunTame(c: Conn, acts: seq<Act>) { acts != [] && ReactTame(c, acts[0].does, acts[1..]) }

  /** A read event whose message callbacks are all gentle, and whose cleanup, if it has one, is tame. */
  predicate ReadTame(c: Conn, data: bytes, end: bool, acts: seq<Act>) {
    var f := Receive(c, data);
    if end then CleanupTame(f, acts)
    else if !f.hooks.hasRead || f.intake.input == [] then true
    else
      match f.hooks.reader
      case NoReader => true
      case Raw => acts != [] && ReactTame(Took(f, acts[0]), acts[0].does, acts[1..])
      case Messages(codec) =>
        var p := Pump(codec, f.intake.input);
        Inert(f, acts, |p.msgs|) && p.status != Undefined
  }

  predicate HandshakeTame(c: Conn, ok: bool, acts: seq<Act>) {
    if ok then c.hooks.hasState ==> RunTame(Greet(c), acts) else CleanupTame(c, acts)
  }

  /** A write event whose writable callback is tame and, unless it is gentle, leaves something queued. */
  predicate WriteTame(c: Conn, writes: seq<S.WriteResult>, acts: seq<Act>) {
    var f := Flushed(c, writes);
    if FlushResets(c, writes) then CleanupTame(f, acts)
    else f.out.queue == [] && f.hooks.hasWritable ==>
      RunTame(f, acts) && (Gentle(f, acts[0].does) || RunAct(f, acts).c.out.queue != [])
  }

  /** Whether a handshake leads on to the read loop. */
  predicate Enters(c: Conn, ok: bool, acts: seq<Act>) {
    ok && (c.hooks.hasState ==> acts != [] && Gentle(Greet(c), acts[0].does))
  }

  /** The connection as it enters the read loop. */
  function Entered(c: Conn, acts: seq<Act>): Conn {
    if c.hooks.hasState && acts != [] then Sent(Greet(c), acts[0].does) else Greet(c)
  }

  function ActsAfter(c: Conn, acts: seq<Act>): seq<Act> { if c.hooks.hasState && acts != [] then acts[1..] else acts }

  /** An event whose callbacks do nothing harmful. */
  predicate Tame(c: Conn, e: Event) {
    match e
    case Readable(shook, data, end, acts) =>
      if c.state == Handshaking then
        && HandshakeTame(c, shook, acts)
        && (Enters(c, shook, acts) ==> ReadTame(Entered(c, acts), data, end, ActsAfter(c, acts)))
      else c.state == Connected ==> ReadTame(c, data, end, acts)
    case Writable(shook, writes, acts) =>
      if c.state == Handshaking then HandshakeTame(c, shook, acts)
      else c.state == Connected ==> WriteTame(c, writes, acts)
    case User(does, acts) => ReactTame(c, does, acts)
    case ConnectTimeout(acts) =>
      c.state == Handshaking ==> ReactTame(c.(link := c.link.(connectTimer := false)), [CloseNow], acts)
    case _ => true
  }

  /** The bytes an event brings in. */
  function Incoming(c: Conn, e: Event): bytes {
    if e.Readable? && (c.state == Connected || (c.state == Handshaking && Enters(c, e.shook, e.acts))) then e.data
    else []
  }

  /** The messages that bytes behind the input complete. */
  function DueOf(c: Conn, data: bytes): seq<bytes> {
    if c.hooks.reader.Messages? then Pump(c.hooks.reader.codec, c.intake.input + data).msgs else []
  }

  predicate Attaches(e: Event) { e.Accept? || e.Dial? || e.Retry? }

  /** The messages delivered in the current attach after an event, when each is delivered once. */
  function ToDeliver(c: Conn, e: Event): seq<bytes> {
    if Attaches(e) then [] else c.intake.delivered + DueOf(c, Incoming(c, e))
  }

  function ToStream(c: Conn, e: Event): bytes {
    if Attaches(e) then c.intake.input else c.intake.stream + Incoming(c, e)
  }

  // ----- Gentle callbacks -----

  /** A gentle callback changes the output half only. */
  predicate SameButOut(c: Conn, d: Conn) { d == c.(out := d.out) }

  lemma {:induction false} SentIs(c: Conn, does: seq<Deed>)
    ensures SameButOut(c, Sent(c, does))
    decreases |does|
  {
    if does != [] { SentIs(After(c, does[0]), does[1..]); }
  }

  lemma {:induction false} SentByIs(c: Conn, acts: seq<Act>, n: nat)
    requires n <= |acts|
    ensures SameButOut(c, SentBy(c, acts, n))
    decreases n
  {
    hide Sent;
    if n > 0 {
      SentIs(c, acts[0].does);
      SentByIs(Sent(c, acts[0].does), acts[1..], n - 1);
    }
  }

  lemma DoDeedGently(c: Conn, d: Deed, acts: seq<Act>)
    requires !Closes(c, d) && !Resets(c, d) && !Aborts(c, d)
    ensures DoDeed(c, d, acts) == Walk(After(c, d), acts)
  {
  }

  lemma ReactTurn(c: Conn, does: seq<Deed>, acts: seq<Act>, w: Walk)
    requires does != [] && w == DoDeed(c, does[0], acts)
    ensures React(c, does, acts) == if w.c.health != Sound then w else React(w.c, does[1..], w.acts)
  {
  }

  lemma ReactStop(c: Conn, acts: seq<Act>)
    ensures React(c, [], acts) == Walk(c, acts)
  {
  }

  /** A callback that is gentle is no more than what it sends. */
  lemma {:induction false} GentleReaction(c: Conn, does: seq<Deed>, acts: seq<Act>)
    requires c.health == Sound && Gentle(c, does)
    ensures React(c, does, acts) == Walk(Sent(c, does), acts)
    decreases |does|
  {
    hide React, DoDeed, Closes, Resets, Aborts;
    if does == [] {
      ReactStop(c, acts);
    } else {
      DoDeedGently(c, does[0], acts);
      ReactTurn(c, does, acts, Walk(After(c, does[0]), acts));
      GentleReaction(After(c, does[0]), does[1..], acts);
    }
  }

  /** Without a channel every callback is gentle. */
  lemma {:induction false} NoChannelIsGentle(c: Conn, does: seq<Deed>)
    requires c.channel == Null
    ensures Gentle(c, does)
    decreases |does|
  {
    hide Attempt;
    if does != [] { NoChannelIsGentle(After(c, does[0]), does[1..]); }
  }

  lemma {:induction false} NoChannelIsInert(c: Conn, acts: seq<Act>, n: nat)
    requires c.channel == Null && n <= |acts|
    ensures Inert(c, acts, n)
    decreases n
  {
    hide Gentle, Sent;
    if n > 0 {
      NoChannelIsGentle(c, acts[0].does);
      SentIs(c, acts[0].does);
      NoChannelIsInert(Sent(c, acts[0].does), acts[1..], n - 1);
    }
  }

  /** What callbacks send does not depend on the input side. */
  predicate SameOut(c: Conn, d: Conn) { c.out == d.out && c.channel == d.channel }

  lemma {:induction false} GentleAlike(c: Conn, d: Conn, does: seq<Deed>)
    requires SameOut(c, d)
    ensures Gentle(c, does) <==> Gentle(d, does)
    ensures Sent(c, does).out == Sent(d, does).out
    decreases |does|
  {
    hide After, Closes, Resets, Aborts;
    if does != [] {
      DeedAlike(c, d, does[0]);
      GentleAlike(After(c, does[0]), After(d, does[0]), does[1..]);
    }
  }

  lemma DeedAlike(c: Conn, d: Conn, deed: Deed)
    requires SameOut(c, d)
    ensures SameOut(After(c, deed), After(d, deed))
    ensures Closes(c, deed) <==> Closes(d, deed)
    ensures Resets(c, deed) <==> Resets(d, deed)
    ensures Aborts(c, deed) <==> Aborts(d, deed)
  {
    hide S.Do;
  }

  lemma {:induction false} InertAlike(c: Conn, d: Conn, acts: seq<Act>, n: nat)
    requires SameOut(c, d)
    ensures Inert(c, acts, n) <==> Inert(d, acts, n)
    ensures n <= |acts| ==> SentBy(c, acts, n).out == SentBy(d, acts, n).out
    decreases n
  {
    hide Gentle, Sent;
    if n > 0 && acts != [] {
      var does := acts[0].does;
      GentleAlike(c, d, does);
      SentIs(c, does);
      SentIs(d, does);
      InertAlike(Sent(c, does), Sent(d, does), acts[1..], n - 1);
    }
  }

  /** The connection with the messages of `p` delivered and the rest left, and these sends made. */
  function Looped(c: Conn, p: Input, out: Outgoing): Conn {
    c.(intake := c.intake.(delivered := c.intake.delivered + p.msgs, input := p.rest), out := out)
  }

  /** The same after a single message. */
  function Turned(c: Conn, o: Outcome, out: Outgoing): Conn
    requires o.Frame? && o.size <= |c.intake.input|
  {
    c.(intake := c.intake.(delivered := c.intake.delivered + [o.msg], input := c.intake.input[o.size..]), out := out)
  }

  /** The message loop over gentle callbacks, in one step: what `Pump` says, and a close if the input is malformed. */
  function AfterPump(c: Conn, codec: Codec, acts: seq<Act>): Walk
    requires |Pump(codec, c.intake.input).msgs| <= |acts|
  {
    var p := Pump(codec, c.intake.input);
    var rest := acts[|p.msgs|..];
    var d := Looped(c, p, SentBy(c, acts, |p.msgs|).out);
    match p.status
    case Waiting => Walk(d, rest)
    case Broken => Close(d, rest)
    case Undefined => Walk(Fault(d), rest)
  }

  /** One turn of the loop, whatever the callback does. */
  lemma MessageLoopTurn(c: Conn, codec: Codec, acts: seq<Act>, o: Outcome, w: Walk)
    requires o.Frame? && Decode(codec, c.intake.input) == o && acts != []
    requires w == React(Delivered(c, o.msg), acts[0].does, acts[1..])
    ensures MessageLoop(c, codec, acts) ==
      var d := Consumed(w.c, o.size);
      if d.health != Sound then Walk(d, w.acts) else MessageLoop(d, codec, w.acts)
  {
  }

  lemma MessageLoopShort(c: Conn, codec: Codec)
    requires Decode(codec, c.intake.input).Frame?
    ensures MessageLoop(c, codec, []) == TooFew(c)
  {
  }

  lemma MessageLoopStop(c: Conn, codec: Codec, acts: seq<Act>)
    requires !Decode(codec, c.intake.input).Frame?
    ensures MessageLoop(c, codec, acts) ==
      match Decode(codec, c.intake.input)
      case More => Walk(c, acts)
      case Bad => Close(c, acts)
      case _ => Walk(Fault(c), acts)
  {
  }

  lemma MessageLoopFrame(c: Conn, codec: Codec, acts: seq<Act>, o: Outcome)
    requires c.health == Sound && acts != [] && Gentle(c, acts[0].does)
    requires o.Frame? && Decode(codec, c.intake.input) == o
    ensures
      var d := Turned(c, o, Sent(c, acts[0].does).out);
      MessageLoop(c, codec, acts) == MessageLoop(d, codec, acts[1..])
  {
    hide Decode, Gentle, Sent, React, MessageLoop;
    var e := Delivered(c, o.msg);
    GentleAlike(c, e, acts[0].does);
    SentIs(e, acts[0].does);
    GentleReaction(e, acts[0].does, acts[1..]);
    MessageLoopTurn(c, codec, acts, o, Walk(Sent(e, acts[0].does), acts[1..]));
  }

  lemma InertUnfolds(c: Conn, acts: seq<Act>, n: nat)
    requires n > 0
    ensures Inert(c, acts, n) <==>
      acts != [] && Gentle(c, acts[0].does) && Inert(Sent(c, acts[0].does), acts[1..], n - 1)
    ensures n <= |acts| ==> SentBy(c, acts, n) == SentBy(Sent(c, acts[0].does), acts[1..], n - 1)
  {
  }

  lemma AfterPumpOne(c: Conn, codec: Codec, acts: seq<Act>, o: Outcome, d: Conn)
    requires o.Frame? && Decode(codec, c.intake.input) == o && acts != []
    requires d == Turned(c, o, d.out)
    requires |Pump(codec, d.intake.input).msgs| <= |acts[1..]|
    requires SentBy(d, acts[1..], |Pump(codec, d.intake.input).msgs|).out
      == SentBy(c, acts, |Pump(codec, c.intake.input).msgs|).out
    requires Pump(codec, c.intake.input) == Prepend([o.msg], Pump(codec, d.intake.input))
    ensures |Pump(codec, c.intake.input).msgs| <= |acts|
    ensures AfterPump(c, codec, acts) == AfterPump(d, codec, acts[1..])
  {
    hide Pump, Decode, Close, SentBy;
    var p, q := Pump(codec, c.intake.input), Pump(codec, d.intake.input);
    assert |p.msgs| == 1 + |q.msgs| && acts[1..][|q.msgs|..] == acts[|p.msgs|..];
    assert c.intake.delivered + [o.msg] + q.msgs == c.intake.delivered + p.msgs;
  }

  /** The first turn of a loop whose callbacks are gentle, and what it leaves for the others. */
  lemma QuietTurn(c: Conn, codec: Codec, acts: seq<Act>) returns (d: Conn)
    requires c.health == Sound && Decode(codec, c.intake.input).Frame?
    requires Inert(c, acts, |Pump(codec, c.intake.input).msgs|)
    ensures acts != [] && d.health == Sound
    ensures Inert(d, acts[1..], |Pump(codec, d.intake.input).msgs|)
    ensures MessageLoop(c, codec, acts) == MessageLoop(d, codec, acts[1..])
    ensures |Pump(codec, c.intake.input).msgs| == 1 + |Pump(codec, d.intake.input).msgs| <= |acts|
    ensures AfterPump(c, codec, acts) == AfterPump(d, codec, acts[1..])
  {
    hide Pump, Decode, MessageLoop, Close, Gentle, Sent, Inert, SentBy, AfterPump;
    var o, n := Decode(codec, c.intake.input), |Pump(codec, c.intake.input).msgs|;
    InertIsCovered(c, acts, n);
    PumpFrame(codec, c.intake.input);
    InertUnfolds(c, acts, n);
    MessageLoopFrame(c, codec, acts, o);
    var f := Sent(c, acts[0].does);
    d := Turned(c, o, f.out);
    SentIs(c, acts[0].does);
    InertAlike(f, d, acts[1..], n - 1);
    AfterPumpOne(c, codec, acts, o, d);
  }

  /** While its callbacks are gentle, the loop delivers what `Pump` says, each message once. */
  lemma {:induction false} QuietLoop(c: Conn, codec: Codec, acts: seq<Act>)
    requires c.health == Sound && Inert(c, acts, |Pump(codec, c.intake.input).msgs|)
    ensures |Pump(codec, c.intake.input).msgs| <= |acts|
    ensures MessageLoop(c, codec, acts) == AfterPump(c, codec, acts)
    decreases |acts|
  {
    hide Pump, Decode, MessageLoop, Close, Gentle, Sent, Inert, SentBy, AfterPump;
    InertIsCovered(c, acts, |Pump(codec, c.intake.input).msgs|);
    if Decode(codec, c.intake.input).Frame? {
      var d := QuietTurn(c, codec, acts);
      QuietLoop(d, codec, acts[1..]);
    } else {
      AfterPumpNone(c, codec, acts);
    }
  }

  lemma AfterPumpNone(c: Conn, codec: Codec, acts: seq<Act>)
    requires !Decode(codec, c.intake.input).Frame?
    ensures |Pump(codec, c.intake.input).msgs| == 0 && MessageLoop(c, codec, acts) == AfterPump(c, codec, acts)
  {
    hide Pump, Decode, MessageLoop, Close;
    PumpStop(codec, c.intake.input);
    MessageLoopStop(c, codec, acts);
    assert c.intake.delivered + [] == c.intake.delivered && acts[0..] == acts;
  }

  // ----- Tame events keep the invariant -----

  /** What a read callback with gentle message callbacks makes of the input side. */
  predicate Drained(c: Conn, d: Conn) {
    && d.hooks.reader == c.hooks.reader && d.intake.stream == c.intake.stream
    && match c.hooks.reader
       case Messages(codec) =>
         var p := Pump(codec, c.intake.input);
         d.intake.delivered == c.intake.delivered + p.msgs && d.intake.input == p.rest
       case _ => d.intake.delivered == c.intake.delivered
  }

  /** A live connection whose descriptor may have been closed on the way. */
  predicate LiveCore(c: Conn) { Live(c) && c.channel != Null && Core(c.(channel := Chan(true))) }

  /** Closed or failed, reported so, and waiting for a reconnect if it is to have one. */
  predicate EndsWell(c: Conn, d: Conn) {
    && Core(d) && (d.state == Closed || d.state == Failed)
    && (c.state == Connected ==> d.state == Closed)
    && (c.state == Handshaking && c.intake.input == [] ==> d.state == Failed)
    && (if c.hooks.hasState then d.notes == if c.state == Handshaking then [Failed] else [Connected, Closed]
        else d.notes == c.notes)
    && d.link.reconnects == c.link.reconnects && d.link.exited == c.link.exited
    && (d.link.waiting <==> c.link.reconnects && !c.link.exited)
    && (if d.link.waiting then d.hooks == c.hooks && d.link.idle == c.link.idle
        else !d.hooks.hasState && !d.hooks.hasRead && !d.hooks.hasWritable
             && d.link.idle == if c.link.idle == Unused then Unused else Erased)
    && (!Fragile(c) ==> !Fragile(d) && !d.hooks.hasState && d.link.idle == Unused && !d.link.waiting)
  }

  predicate SameInput(c: Conn, d: Conn) {
    d.hooks.reader == c.hooks.reader && d.intake.input == c.intake.input && d.intake.stream == c.intake.stream
      && d.intake.delivered == c.intake.delivered
  }

  lemma FinishEndsWell(c: Conn)
    requires LiveCore(c)
    ensures EndsWell(c, Finish(c)) && SameInput(c, Finish(c))
  {
    assert [Connected] + [Closed] == [Connected, Closed];
    assert [] + [Failed] == [Failed];
  }

  /** A second cleanup does no harm to a connection that neither reconnects nor has idle nodes. */
  lemma FinishAgain(c: Conn, d: Conn)
    requires EndsWell(c, d) && !Fragile(c) && (c.state == Handshaking ==> c.intake.input != [])
    ensures EndsWell(c, Finish(d)) && SameInput(d, Finish(d))
  {
  }

  lemma CleanupUnfolds(c: Conn, acts: seq<Act>)
    ensures Cleanup(c, acts) ==
      var w := if c.hooks.hasRead && c.intake.input != [] then ReadCallback(c, acts) else Walk(c, acts);
      if w.c.health != Sound then w else Walk(Finish(w.c), w.acts)
  {
  }

  /** On a closed descriptor the loop's own close of malformed input comes to nothing. */
  lemma CleanupOfBad(c: Conn, codec: Codec, acts: seq<Act>)
    requires c.channel == Chan(false) && c.health == Sound && c.hooks.reader == Messages(codec)
      && Decode(codec, c.intake.input) == Bad
    ensures Cleanup(c, acts) == Walk(Finish(c), acts)
  {
    MessageLoopStop(c, codec, acts);
    CleanupUnfolds(c, acts);
    hide Finish, Cleanup, Decode;
  }

  /** A cleanup with a message loop inside it. */
  lemma MessageCleanupEndsWell(c: Conn, codec: Codec, acts: seq<Act>)
    requires LiveCore(c) && c.hooks.reader == Messages(codec) && c.hooks.hasRead && c.intake.input != []
      && CleanupTame(c, acts)
    ensures var d := Cleanup(c, acts).c; EndsWell(c, d) && Drained(c, d)
  {
    var p := Pump(codec, c.intake.input);
    CleanupUnfolds(c, acts);
    QuietLoop(c, codec, acts);
    var rest := acts[|p.msgs|..];
    var d := Looped(c, p, SentBy(c, acts, |p.msgs|).out);
    FinishEndsWell(d);
    EndsWellLike(c, d, Finish(d));
    if p.status == Broken && IsOpen(c) {
      PumpRest(codec, c.intake.input);
      BadEndsWell(c, d, codec, rest);
    }
    hide Finish, Cleanup, Pump, Decode, MessageLoop, EndsWell, Close, SentBy;
    if p.status == Broken && !IsOpen(c) { CloseOfClosed(d, rest); }
  }

  lemma CloseOfClosed(c: Conn, acts: seq<Act>)
    requires c.channel == Chan(false)
    ensures Close(c, acts) == Walk(c, acts)
  {
  }

  /** Malformed input under an open descriptor: cleanup is gone through twice. */
  lemma BadEndsWell(c: Conn, d: Conn, codec: Codec, acts: seq<Act>)
    requires LiveCore(c) && IsOpen(c) && c.hooks.reader == Messages(codec) && !Fragile(c) && c.intake.input != []
    requires d == c.(intake := c.intake.(delivered := d.intake.delivered, input := d.intake.input), out := d.out)
      && Decode(codec, d.intake.input) == Bad
    ensures
      var w := Close(d, acts);
      var f := Finish(w.c);
      w.c.health == Sound && EndsWell(c, f) && SameInput(d, f)
  {
    var e := d.(channel := Chan(false));
    CleanupOfBad(e, codec, acts);
    FinishEndsWell(e);
    EndsWellLike(c, e, Finish(e));
    FinishAgain(c, Finish(e));
    EndsWellIsSound(c, Finish(e));
    hide Finish, Cleanup, Decode, EndsWell;
  }

  lemma EndsWellIsSound(c: Conn, d: Conn)
    requires EndsWell(c, d)
    ensures Core(d) && d.health == Sound && d.channel == Null && !Live(d)
  {
  }

  /** Ending well depends on the starting point's callbacks and registrations only. */
  lemma EndsWellLike(c: Conn, c': Conn, d: Conn)
    requires EndsWell(c', d) && c'.hooks == c.hooks && c'.state == c.state && c'.notes == c.notes && c'.link == c.link
    requires c.state == Handshaking && c.intake.input == [] ==> c'.intake.input == []
    ensures EndsWell(c, d)
  {
  }

  lemma EndsWellButOut(c: Conn, d: Conn, e: Conn)
    requires EndsWell(c, d) && SameButOut(d, e)
    ensures EndsWell(c, e)
  {
  }

  lemma DrainedLike(c: Conn, c': Conn, d: Conn, d': Conn)
    requires SameInput(c, c') && SameInput(d, d') && Drained(c', d)
    ensures Drained(c, d')
  {
  }

  lemma {:induction false} CleanupEndsWell(c: Conn, acts: seq<Act>)
    requires LiveCore(c) && CleanupTame(c, acts)
    ensures var d := Cleanup(c, acts).c; EndsWell(c, d) && Drained(c, d)
    decreases |acts|, 0
  {
    hide Finish, Pump, EndsWell, Cleanup;
    CleanupUnfolds(c, acts);
    if !c.hooks.hasRead || c.intake.input == [] || c.hooks.reader == NoReader {
      FinishEndsWell(c);
      if c.hooks.reader.Messages? { PumpNothing(c.hooks.reader.codec); }
      assert c.intake.delivered + [] == c.intake.delivered;
    } else if c.hooks.reader.Messages? {
      MessageCleanupEndsWell(c, c.hooks.reader.codec, acts);
    } else {
      RawCleanupEndsWell(c, acts);
    }
  }

  lemma {:induction false} RawCleanupEndsWell(c: Conn, acts: seq<Act>)
    requires LiveCore(c) && CleanupTame(c, acts) && c.hooks.reader == Raw && c.hooks.hasRead && c.intake.input != []
    ensures var d := Cleanup(c, acts).c; EndsWell(c, d) && Drained(c, d)
    decreases |acts|, 0, 0
  {
    hide Finish, EndsWell, Cleanup, React, Pump, Gentle, Sent, ReactTame;
    CleanupUnfolds(c, acts);
    var t := Took(c, acts[0]);
    var does, rest := acts[0].does, acts[1..];
    if Gentle(t, does) {
      GentleReaction(t, does, rest);
      SentIs(t, does);
      var f := Sent(t, does);
      FinishEndsWell(f);
      EndsWellLike(c, f, Finish(f));
    } else {
      ReactEndsWell(t, does, rest);
      var d := React(t, does, rest).c;
      EndsWellLike(c, t, d);
      EndsWellIsSound(c, d);
      FinishAgain(c, d);
    }
  }

  /** A callback that closes or meets a reset, up to its end: what it does after that finds no channel. */
  lemma {:induction false} ReactEndsWell(c: Conn, does: seq<Deed>, acts: seq<Act>)
    requires LiveCore(c) && !Gentle(c, does) && ReactTame(c, does, acts)
    ensures var d := React(c, does, acts).c; EndsWell(c, d) && Drained(c, d)
    decreases |acts|, 1, |does|
  {
    hide React, DoDeed, After, Closes, Resets, Aborts, CleanupTame, EndsWell, Cleanup, Drained;
    if Closes(c, does[0]) || Resets(c, does[0]) {
      DeedEndsWell(c, does, acts);
    } else {
      var e := After(c, does[0]);
      AfterIs(c, does[0]);
      ReactEndsWell(e, does[1..], acts);
      LaterEndsWell(c, does, acts);
    }
  }

  lemma LaterEndsWell(c: Conn, does: seq<Deed>, acts: seq<Act>)
    requires c.health == Sound && does != []
    requires !Closes(c, does[0]) && !Resets(c, does[0]) && !Aborts(c, does[0])
    requires var e := After(c, does[0]); var d := React(e, does[1..], acts).c; EndsWell(e, d) && Drained(e, d)
    ensures var d := React(c, does, acts).c; EndsWell(c, d) && Drained(c, d)
  {
    hide React, DoDeed, After, Closes, Resets, Aborts, EndsWell, Drained;
    var e := After(c, does[0]);
    DoDeedGently(c, does[0], acts);
    ReactTurn(c, does, acts, Walk(e, acts));
    AfterIs(c, does[0]);
    var d := React(e, does[1..], acts).c;
    EndsWellLike(c, e, d);
    DrainedLike(c, e, d, d);
  }

  lemma {:induction false} DeedEndsWell(c: Conn, does: seq<Deed>, acts: seq<Act>)
    requires LiveCore(c) && does != [] && (Closes(c, does[0]) || Resets(c, does[0])) && ReactTame(c, does, acts)
    ensures var d := React(c, does, acts).c; EndsWell(c, d) && Drained(c, d)
    decreases |acts|, 1, 0
  {
    var e := if Closes(c, does[0]) then c.(channel := Chan(false)) else After(c, does[0]);
    assert CleanupTame(e, acts);
    hide React, DoDeed, After, Closes, Resets, ReactTame, CleanupTame, EndsWell, Cleanup, Drained;
    var w := DoDeed(c, does[0], acts);
    ReactTurn(c, does, acts, w);
    DeedOutcome(c, does[0], acts, e);
    CleanupEndsWell(e, acts);
    EndsWellLike(c, e, w.c);
    RestEndsWell(c, e, w, does[1..]);
  }

  /** What a callback does after the cleanup it has caused. */
  lemma RestEndsWell(c: Conn, e: Conn, w: Walk, does: seq<Deed>)
    requires EndsWell(c, w.c) && SameInput(c, e) && Drained(e, w.c)
    ensures w.c.health == Sound
    ensures var f := React(w.c, does, w.acts).c; EndsWell(c, f) && Drained(c, f)
  {
    EndsWellIsSound(c, w.c);
    NoChannelIsGentle(w.c, does);
    GentleReaction(w.c, does, w.acts);
    SentIs(w.c, does);
    hide React, EndsWell, Drained, Sent;
    var f := Sent(w.c, does);
    EndsWellButOut(c, w.c, f);
    DrainedLike(c, e, w.c, f);
  }

  lemma AfterIs(c: Conn, d: Deed)
    ensures SameButOut(c, After(c, d))
  {
  }

  /** A deed that closes or meets a reset is a cleanup. */
  lemma DeedOutcome(c: Conn, d: Deed, acts: seq<Act>, e: Conn)
    requires Live(c) && c.channel != Null && (Closes(c, d) || Resets(c, d))
    requires e == if Closes(c, d) then c.(channel := Chan(false)) else After(c, d)
    ensures DoDeed(c, d, acts) == Cleanup(e, acts)
    ensures e == c.(channel := e.channel, out := e.out) && e.channel != Null
  {
    hide Attempt;
  }

  /** Messages delivered by one event after another are the ones that the whole stream holds. */
  lemma DrainedIsUpToDate(c: Conn, data: bytes, d: Conn)
    requires UpToDate(c) && Drained(Receive(c, data), d)
    requires c.hooks.reader.Messages? ==> Pump(c.hooks.reader.codec, c.intake.input + data).status != Undefined
    ensures UpToDate(d)
  {
    if c.hooks.reader.Messages? {
      var codec := c.hooks.reader.codec;
      var all := c.intake.stream + data;
      PumpRest(codec, c.intake.input + data);
      if EotSafe(codec, all) {
        EotSafePrefix(codec, c.intake.stream, data);
        PumpContinues(codec, c.intake.stream, data);
        PumpRest(codec, c.intake.stream);
        hide Pump, Decode, EotSafe;
        if Decode(codec, c.intake.input) == Bad {
          MalformedCarriesOver(codec, c.intake.input, data);
          assert c.intake.delivered + [] == c.intake.delivered;
        }
      }
    }
  }

  lemma ReadKeepsCore(c: Conn, data: bytes, acts: seq<Act>)
    requires Inv(c) && c.state == Connected && ReadTame(c, data, false, acts)
    ensures var d := ReadConnected(c, data, false, acts).c; Core(d) && Drained(Receive(c, data), d)
  {
    var f := Receive(c, data);
    if !f.hooks.hasRead || f.intake.input == [] || f.hooks.reader == NoReader {
      if f.hooks.reader.Messages? { PumpNothing(f.hooks.reader.codec); }
      assert f.intake.delivered + [] == f.intake.delivered;
    } else if f.hooks.reader == Raw {
      var t := Took(f, acts[0]);
      hide React, ReactTame, Gentle, Sent, EndsWell;
      if Gentle(t, acts[0].does) {
        GentleReaction(t, acts[0].does, acts[1..]);
        SentIs(t, acts[0].does);
      } else {
        ReactEndsWell(t, acts[0].does, acts[1..]);
        EndsWellIsSound(t, React(t, acts[0].does, acts[1..]).c);
      }
    } else {
      MessagesKeepCore(f, f.hooks.reader.codec, acts);
    }
  }

  lemma MessagesKeepCore(f: Conn, codec: Codec, acts: seq<Act>)
    requires Core(f) && f.state == Connected && f.hooks.reader == Messages(codec)
    requires Inert(f, acts, |Pump(codec, f.intake.input).msgs|) && Pump(codec, f.intake.input).status != Undefined
    ensures var d := MessageLoop(f, codec, acts).c; Core(d) && Drained(f, d)
  {
    hide Pump, Decode, Cleanup, MessageLoop, Finish, SentBy;
    var p := Pump(codec, f.intake.input);
    QuietLoop(f, codec, acts);
    if p.status == Broken {
      PumpRest(codec, f.intake.input);
      var d := Looped(f, p, SentBy(f, acts, |p.msgs|).out).(channel := Chan(false));
      CleanupOfBad(d, codec, acts[|p.msgs|..]);
      FinishEndsWell(d);
    }
  }

  lemma ReadConnectedKeepsInv(c: Conn, data: bytes, end: bool, acts: seq<Act>)
    requires Inv(c) && c.state == Connected && ReadTame(c, data, end, acts)
    ensures var d := ReadConnected(c, data, end, acts).c; Keeps(c, d, DueOf(c, data), data)
  {
    var f := Receive(c, data);
    var d := ReadConnected(c, data, end, acts).c;
    assert Core(d) && Drained(f, d) by {
      hide Pump, Cleanup, UpToDate;
      if end { CleanupEndsWell(f, acts); } else { ReadKeepsCore(c, data, acts); }
    }
    if f.intake.input == [] && c.hooks.reader.Messages? { PumpNothing(c.hooks.reader.codec); }
    hide ReadConnected, Cleanup, ReactTame, Pump, Inert;
    DrainedIsUpToDate(c, data, d);
    assert c.intake.delivered + [] == c.intake.delivered;
  }

  /** The invariant again, with these messages delivered and these bytes received. */
  predicate Keeps(c: Conn, d: Conn, msgs: seq<bytes>, data: bytes) {
    Inv(d) && d.hooks.reader == c.hooks.reader && d.intake.delivered == c.intake.delivered + msgs
      && d.intake.stream == c.intake.stream + data
  }

  /** A tame cleanup or close of a connection that has no complete message waiting. */
  lemma DrainedWithoutData(c: Conn, d: Conn)
    requires UpToDate(c) && Drained(c, d)
    ensures UpToDate(d) && d.hooks.reader == c.hooks.reader && d.intake.delivered == c.intake.delivered + []
      && d.intake.stream == c.intake.stream + []
  {
    assert c.intake.input + [] == c.intake.input && c.intake.stream + [] == c.intake.stream;
    if c.hooks.reader.Messages? {
      PumpRest(c.hooks.reader.codec, c.intake.input);
      PumpStop(c.hooks.reader.codec, c.intake.input);
      assert c.intake.delivered + [] == c.intake.delivered;
    }
    hide Pump, Decode;
    DrainedIsUpToDate(c, [], d);
  }

  lemma UpToDateAlike(c: Conn, d: Conn)
    requires UpToDate(c) && SameInput(c, d)
    ensures UpToDate(d)
  {
  }

  lemma CleanupKeepsInv(c: Conn, acts: seq<Act>)
    requires Inv(c) && Live(c) && CleanupTame(c, acts)
    ensures var d := Cleanup(c, acts).c; Keeps(c, d, [], []) && !Live(d)
  {
    hide UpToDate, Cleanup, CleanupTame, EndsWell, Drained;
    CleanupEndsWell(c, acts);
    EndsWellIsSound(c, Cleanup(c, acts).c);
    DrainedWithoutData(c, Cleanup(c, acts).c);
  }

  lemma ReactKeepsInv(c: Conn, does: seq<Deed>, acts: seq<Act>)
    requires Inv(c) && ReactTame(c, does, acts)
    ensures var w := React(c, does, acts);
      Keeps(c, w.c, [], []) && if Gentle(c, does) then w == Walk(Sent(c, does), acts) else !Live(w.c)
  {
    hide UpToDate, React, ReactTame, Gentle, Sent, EndsWell, Drained;
    if Gentle(c, does) {
      GentleReaction(c, does, acts);
      SentIs(c, does);
      UpToDateAlike(c, Sent(c, does));
      assert c.intake.delivered + [] == c.intake.delivered && c.intake.stream + [] == c.intake.stream;
    } else {
      if c.channel == Null { NoChannelIsGentle(c, does); }
      ReactEndsWell(c, does, acts);
      EndsWellIsSound(c, React(c, does, acts).c);
      DrainedWithoutData(c, React(c, does, acts).c);
    }
  }

  lemma GreetKeepsInv(c: Conn)
    requires Inv(c) && c.state == Handshaking
    ensures Inv(Greet(c)) && Greet(c).state == Connected && SameInput(c, Greet(c))
      && Greet(c).hooks.hasState == c.hooks.hasState
  {
    assert [] + [Connected] == [Connected];
    hide UpToDate;
    UpToDateAlike(c, Greet(c));
  }

  lemma HandshakeKeepsInv(c: Conn, ok: bool, acts: seq<Act>)
    requires Inv(c) && c.state == Handshaking && HandshakeTame(c, ok, acts)
    ensures
      var w := Handshake(c, ok, acts);
      && Keeps(c, w.c, [], [])
      && if Enters(c, ok, acts) then w == Walk(Entered(c, acts), ActsAfter(c, acts)) else !Live(w.c)
  {
    GreetKeepsInv(c);
    assert c.intake.delivered + [] == c.intake.delivered && c.intake.stream + [] == c.intake.stream;
    hide React, Cleanup, CleanupTame, ReactTame, Inv, Gentle, Sent, Greet;
    if !ok { CleanupKeepsInv(c, acts); }
    else if c.hooks.hasState { ReactKeepsInv(Greet(c), acts[0].does, acts[1..]); }
  }

  lemma EnteredIs(c: Conn, acts: seq<Act>)
    requires c.state == Handshaking
    ensures Entered(c, acts).state == Connected && SameInput(c, Entered(c, acts))
  {
    hide Sent;
    if acts != [] { SentIs(Greet(c), acts[0].does); }
  }

  lemma ReadKeepsInv(c: Conn, e: Event)
    requires Inv(c) && e.Readable? && Tame(c, e)
    ensures var d := Read(c, e); Keeps(c, d, DueOf(c, Incoming(c, e)), Incoming(c, e))
  {
    assert c.intake.delivered + [] == c.intake.delivered && c.intake.stream + [] == c.intake.stream;
    NothingDue(c);
    InvIsSound();
    hide DueOf, Handshake, ReadConnected, Inv, HandshakeTame, ReadTame;
    if c.state == Handshaking {
      FirstReadKeepsInv(c, e);
    } else if c.state == Connected {
      ReadConnectedKeepsInv(c, e.data, e.end, e.acts);
    }
  }

  /** The read event that finds the handshake done, or failed. */
  lemma FirstReadKeepsInv(c: Conn, e: Event)
    requires Inv(c) && e.Readable? && Tame(c, e) && c.state == Handshaking && DueOf(c, []) == []
    ensures var d := Read(c, e); Keeps(c, d, DueOf(c, Incoming(c, e)), Incoming(c, e))
  {
    InvIsSound();
    EnteredIs(c, e.acts);
    HandshakeKeepsInv(c, e.shook, e.acts);
    hide Handshake, ReadConnected, Inv, HandshakeTame, ReadTame, Entered, Enters;
    if Enters(c, e.shook, e.acts) {
      var d := Entered(c, e.acts);
      ReadConnectedKeepsInv(d, e.data, e.end, ActsAfter(c, e.acts));
      DueAlike(c, d, e.data);
    }
    hide DueOf;
  }

  lemma DueAlike(c: Conn, d: Conn, data: bytes)
    requires c.intake.input == d.intake.input && c.hooks.reader == d.hooks.reader
    ensures DueOf(c, data) == DueOf(d, data)
  {
  }

  lemma InvIsSound()
    ensures forall c | Inv(c) :: c.health == Sound
  {
  }

  lemma WriteConnectedKeepsInv(c: Conn, writes: seq<S.WriteResult>, acts: seq<Act>)
    requires Inv(c) && c.state == Connected && WriteTame(c, writes, acts)
    ensures var d := WriteConnected(c, writes, acts); Keeps(c, d, [], [])
  {
    var f := Flushed(c, writes);
    assert c.intake.delivered + [] == c.intake.delivered && c.intake.stream + [] == c.intake.stream;
    FlushedIs(c, writes);
    assert Inv(f) by { hide UpToDate; UpToDateAlike(c, f); }
    hide UpToDate, Flushed, FlushResets, RunAct, Cleanup, CleanupTame, RunTame;
    if FlushResets(c, writes) {
      CleanupKeepsInv(f, acts);
    } else if f.out.queue == [] && f.hooks.hasWritable {
      CalledKeepsInv(f, acts);
      var d := RunAct(f, acts).c;
      QuietOut(d);
    } else {
      QuietOut(f);
    }
  }

  lemma FlushedIs(c: Conn, writes: seq<S.WriteResult>)
    ensures SameButOut(c, Flushed(c, writes))
  {
  }

  /** Switching write interest off. */
  lemma QuietOut(c: Conn)
    requires Inv(c)
    ensures Inv(c.(out := c.out.(interest := false)))
  {
    hide UpToDate;
    UpToDateAlike(c, c.(out := c.out.(interest := false)));
  }

  lemma CalledKeepsInv(f: Conn, acts: seq<Act>)
    requires Inv(f) && f.state == Connected && RunTame(f, acts)
    requires Gentle(f, acts[0].does) || RunAct(f, acts).c.out.queue != []
    ensures var d := RunAct(f, acts).c; Keeps(f, d, [], []) && (d.channel == Null ==> d.out.queue != [])
  {
    hide React, ReactTame, Gentle, Sent, UpToDate;
    ReactKeepsInv(f, acts[0].does, acts[1..]);
    SentIs(f, acts[0].does);
  }

  lemma WriteKeepsInv(c: Conn, e: Event)
    requires Inv(c) && e.Writable? && Tame(c, e)
    ensures var d := Write(c, e); Keeps(c, d, [], [])
  {
    assert c.intake.delivered + [] == c.intake.delivered && c.intake.stream + [] == c.intake.stream;
    hide Handshake, HandshakeTame, WriteConnected, WriteTame, Inv;
    if c.state == Handshaking {
      HandshakeKeepsInv(c, e.shook, e.acts);
    } else if c.state == Connected {
      WriteConnectedKeepsInv(c, e.writes, e.acts);
    }
  }

  /** Between events nothing is due. */
  lemma NothingDue(c: Conn)
    requires UpToDate(c)
    ensures DueOf(c, []) == []
  {
    assert c.intake.input + [] == c.intake.input;
    if c.hooks.reader.Messages? { PumpStop(c.hooks.reader.codec, c.intake.input); }
  }

  lemma StepKeepsInv(c: Conn, e: Event)
    requires Inv(c) && Possible(c, e) && Tame(c, e)
    ensures var d := Step(c, e);
      Inv(d) && d.hooks.reader == c.hooks.reader && d.intake.delivered == ToDeliver(c, e)
        && d.intake.stream == ToStream(c, e)
  {
    assert c.intake.delivered + [] == c.intake.delivered && c.intake.stream + [] == c.intake.stream;
    NothingDue(c);
    hide Read, Write, React, Close, CleanupTame, ReactTame, DueOf, UpToDate;
    match e
    case Readable(_, _, _, _) => ReadKeepsInv(c, e);
    case Writable(_, _, _) => WriteKeepsInv(c, e);
    case User(does, acts) => ReactKeepsInv(c, does, acts);
    case ConnectTimeout(acts) => TimeoutKeepsInv(c, acts);
    case _ => QuietStepKeepsInv(c, e);
  }

  lemma TimeoutKeepsInv(c: Conn, acts: seq<Act>)
    requires Inv(c) && Possible(c, ConnectTimeout(acts)) && Tame(c, ConnectTimeout(acts))
    ensures var d := Step(c, ConnectTimeout(acts)); Keeps(c, d, [], [])
  {
    hide UpToDate, Cleanup, CleanupTame, Close, React, ReactTame;
    var d := c.(link := c.link.(connectTimer := false));
    assert c.intake.delivered + [] == c.intake.delivered && c.intake.stream + [] == c.intake.stream;
    assert UpToDate(d) by { UpToDateAlike(c, d); }
    if c.state == Handshaking {
      ReactKeepsInv(d, [CloseNow], acts);
      OpenCloseIsReact(d, acts);
    }
  }

  /** closeNow on an open descriptor is the close itself. */
  lemma OpenCloseIsReact(c: Conn, acts: seq<Act>)
    requires IsOpen(c) && c.health == Sound
    ensures React(c, [CloseNow], acts) == Close(c, acts)
  {
    hide Close, React;
    var w := Close(c, acts);
    ReactTurn(c, [CloseNow], acts, w);
    ReactStop(w.c, w.acts);
    assert [CloseNow][1..] == [];
  }

  lemma QuietStepKeepsInv(c: Conn, e: Event)
    requires Inv(c) && Possible(c, e)
    requires Attaches(e) || e.SetReconnect? || e.AddIdle? || e.Exit?
    ensures var d := Step(c, e);
      Inv(d) && d.hooks.reader == c.hooks.reader && d.intake.delivered == ToDeliver(c, e)
        && d.intake.stream == ToStream(c, e)
  {
    assert c.intake.delivered + [] == c.intake.delivered && c.intake.stream + [] == c.intake.stream;
    NothingDue(c);
    AttachIsUpToDate(c);
    hide DueOf, Read, Write, React, Close, UpToDate;
    var d := Step(c, e);
    if Attaches(e) { UpToDateAlike(Attach(c), d); } else { UpToDateAlike(c, d); }
  }

  lemma AttachIsUpToDate(c: Conn)
    requires UpToDate(c)
    ensures UpToDate(Attach(c))
  {
    if c.hooks.reader.Messages? { PumpStop(c.hooks.reader.codec, c.intake.input); }
    hide Pump, Decode, EotSafe;
  }

  /** A read event that reaches a connection which is not live any more changes nothing. */
  lemma StaleReadIsHarmless(c: Conn, write: Event, read: Event)
    requires Inv(c) && write.Writable? && read.Readable? && Possible(c, write) && Tame(c, write)
    ensures var d := Step(c, write); !IsOpen(d) ==> Possible(d, read) && Step(d, read) == d
  {
    WriteKeepsInv(c, write);
    hide Write, UpToDate, Tame;
  }

  // ----- Every run -----

  /** A run in which every event can happen and the program is sound before it. */
  predicate PossibleRun(c: Conn, events: seq<Event>)
    decreases |events|
  {
    events == [] || (c.health == Sound && Possible(c, events[0]) && PossibleRun(Step(c, events[0]), events[1..]))
  }

  /** And a run in which every event is tame. */
  predicate TameRun(c: Conn, events: seq<Event>)
    requires PossibleRun(c, events)
    decreases |events|
  {
    events == [] || (Tame(c, events[0]) && TameRun(Step(c, events[0]), events[1..]))
  }

  function Run(c: Conn, events: seq<Event>): Conn
    requires PossibleRun(c, events)
    decreases |events|
  {
    if events == [] then c else Run(Step(c, events[0]), events[1..])
  }

  lemma {:induction false} RunKeepsInv(c: Conn, events: seq<Event>)
    requires Inv(c) && PossibleRun(c, events) && TameRun(c, events)
    ensures Inv(Run(c, events)) && Run(c, events).hooks.reader == c.hooks.reader
    decreases |events|
  {
    hide Inv, Step, Tame, ToDeliver, ToStream;
    if events != [] {
      StepKeepsInv(c, events[0]);
      RunKeepsInv(Step(c, events[0]), events[1..]);
    }
  }

  function New(hasState: bool, hasWritable: bool, reader: Reader, reconnects: bool): Conn {
    Conn(Invalid, Null, [], Hooks(hasState, reader != NoReader, hasWritable, reader), Intake([], [], []),
         Outgoing(false, [], [], [], true, false), Link(Unused, reconnects, false, false, false, 0), Sound)
  }

  lemma NewKeepsInv(hasState: bool, hasWritable: bool, reader: Reader, reconnects: bool)
    ensures Inv(New(hasState, hasWritable, reader, reconnects))
  {
    if reader.Messages? { PumpNothing(reader.codec); DecodeNothing(reader.codec); }
    hide Pump, Decode;
  }

  /**
   * In every tame run the callbacks of the current attach are a prefix of Connected, Closed or the single Failed; the
   * program uses no channel or node that is gone, consumes nothing the buffer does not hold, and runs into no fatal
   * check; a connection is registered for reconnecting exactly while its one timer is pending, without a channel, and
   * closed or failed.
   */
  lemma EveryRunIsOrderly(start: Conn, events: seq<Event>)
    requires start == New(start.hooks.hasState, start.hooks.hasWritable, start.hooks.reader, start.link.reconnects)
    requires PossibleRun(start, events) && TameRun(start, events)
    ensures
      var c := Run(start, events);
      && c.health == Sound && GoodNotes(c.notes)
      && (c.link.waiting <==> c.link.retries > 0) && c.link.retries <= 1
      && (c.link.waiting ==> c.channel == Null && (c.state == Closed || c.state == Failed))
      && (Live(c) <==> c.channel == Chan(true))
  {
    NewKeepsInv(start.hooks.hasState, start.hooks.hasWritable, start.hooks.reader, start.link.reconnects);
    RunKeepsInv(start, events);
    hide UpToDate;
  }

  /**
   * And the messages of the current attach are, in order and once each, those of its stream: of what an earlier
   * attach had left in the buffer and what has been received since, in whatever pieces. So a list of messages that
   * the codec carries arrives as it was sent, and leaves nothing behind.
   */
  lemma MessagesArrive(start: Conn, codec: Codec, events: seq<Event>, ms: seq<bytes>)
    requires start == New(start.hooks.hasState, start.hooks.hasWritable, Messages(codec), start.link.reconnects)
    requires PossibleRun(start, events) && TameRun(start, events)
    ensures
      var c := Run(start, events);
      && (EotSafe(codec, c.intake.stream) ==>
            c.intake.delivered == Pump(codec, c.intake.stream).msgs
              && c.intake.input == Pump(codec, c.intake.stream).rest)
      && (AllCarried(codec, ms) && c.intake.stream == EncodeAll(codec, ms) ==>
            c.intake.delivered == ms && c.intake.input == [])
  {
    NewKeepsInv(start.hooks.hasState, start.hooks.hasWritable, Messages(codec), start.link.reconnects);
    RunKeepsInv(start, events);
    hide Pump, Decode, Core, EncodeAll, AllCarried, EotSafe;
    if AllCarried(codec, ms) { PumpEncoded(codec, ms); }
  }
}
