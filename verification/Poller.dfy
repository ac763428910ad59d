/** The dispatcher: a table of active events that callbacks may edit while it is being walked. */
module Poller {
  type ChannelId = nat

  const MAX_EVENTS: nat := 2000

  datatype Pointer = Null | At(ch: ChannelId)

  /** One reported event: the channel, and whether it is writable and readable (an error counts as readable). */
  datatype Entry = Entry(ptr: Pointer, write: bool, read: bool)

  /** What a callback does that the dispatcher can see: closing or creating channels, or ending the loop. */
  datatype Act = CloseChannel(ch: ChannelId) | AddChannel(ch: ChannelId) | ExitLoop

  datatype Half = WriteHalf | ReadHalf

  /** What each callback does if it runs, the ones that closing runs inside it included. */
  type Env = (ChannelId, Half) -> seq<Act>

  /** `open` are the channels whose descriptor is open, `known` all that have ever existed. */
  datatype State = State(live: set<ChannelId>, open: set<ChannelId>, known: set<ChannelId>,
                         active: seq<Entry>, lastActive: int, exited: bool)

  /** A callback that the dispatcher has started, and whether its channel was open then. */
  datatype Event = Event(ch: ChannelId, half: Half, alive: bool)

  // ----- Removing a channel -----

  /** The table after the scan from `last` down has set the first entry of `ch` it meets to null. */
  function Nulled(active: seq<Entry>, last: int, ch: ChannelId): (r: seq<Entry>)
    requires last < |active|
    ensures |r| == |active|
    decreases last
  {
    if last < 0 then active
    else if active[last].ptr == At(ch) then active[last := active[last].(ptr := Null)]
    else Nulled(active, last - 1, ch)
  }

  lemma {:induction false} NulledIs(active: seq<Entry>, last: int, ch: ChannelId)
    requires last < |active|
    requires forall i, j | 0 <= i < j <= last :: active[i].ptr == active[j].ptr ==> active[i].ptr == Null
    ensures forall i | 0 <= i < |active| ::
      Nulled(active, last, ch)[i] ==
        if i <= last && active[i].ptr == At(ch) then active[i].(ptr := Null) else active[i]
    decreases last
  {
    if last >= 0 && active[last].ptr != At(ch) { NulledIs(active, last - 1, ch); }
  }

  function Remove(s: State, ch: ChannelId): State
    requires s.lastActive < |s.active|
  {
    s.(live := s.live - {ch}, active := Nulled(s.active, s.lastActive, ch))
  }

  function Do(s: State, a: Act): (t: State)
    requires s.lastActive < |s.active|
    ensures |t.active| == |s.active| && t.lastActive == s.lastActive
  {
    match a
    case CloseChannel(ch) => if ch in s.open then Remove(s, ch).(open := s.open - {ch}) else s
    case AddChannel(ch) =>
      if ch in s.known then s else s.(live := s.live + {ch}, open := s.open + {ch}, known := s.known + {ch})
    case ExitLoop => s.(exited := true)
  }

  function DoAll(s: State, acts: seq<Act>): (t: State)
    requires s.lastActive < |s.active|
    ensures |t.active| == |s.active| && t.lastActive == s.lastActive
    decreases |acts|
  {
    if acts == [] then s else DoAll(Do(s, acts[0]), acts[1..])
  }

  // ----- One round of dispatching -----

  /** Starts one callback. */
  function Call(s: State, ch: ChannelId, half: Half, env: Env): (r: (State, seq<Event>))
    requires s.lastActive < |s.active|
    ensures |r.0.active| == |s.active| && r.0.lastActive == s.lastActive
  {
    (DoAll(s, env(ch, half)), [Event(ch, half, ch in s.open)])
  }

  /** Dispatches the entry at `lastActive`: its write callback, then its read callback, on the pointer read first. */
  function Turn(s: State, env: Env): (r: (State, seq<Event>))
    requires 0 <= s.lastActive < |s.active|
    ensures |r.0.active| == |s.active| && r.0.lastActive == s.lastActive
  {
    var e := s.active[s.lastActive];
    match e.ptr
    case Null => (s, [])
    case At(ch) =>
      var (t, wrote) := if e.write then Call(s, ch, WriteHalf, env) else (s, []);
      var (u, read) := if e.read then Call(t, ch, ReadHalf, env) else (t, []);
      (u, wrote + read)
  }

  /** The loop of loop_once after the wait, from the last reported event down. */
  function Dispatch(s: State, env: Env): (State, seq<Event>)
    requires s.lastActive <= |s.active|
    decreases s.lastActive
  {
    var d := s.(lastActive := s.lastActive - 1);
    if d.lastActive < 0 || d.exited then (d, [])
    else
      var (t, now) := Turn(d, env);
      var (u, later) := Dispatch(t, env);
      (u, now + later)
  }

  lemma DispatchUnfolds(s: State, env: Env, end: State, log: seq<Event>) returns (rest: seq<Event>)
    requires s.lastActive <= |s.active| && Dispatch(s, env) == (end, log)
    ensures
      var d := s.(lastActive := s.lastActive - 1);
      if d.lastActive < 0 || d.exited then
        end == d && log == []
      else
        Dispatch(Turn(d, env).0, env) == (end, rest) && log == Turn(d, env).1 + rest
  {
    var d := s.(lastActive := s.lastActive - 1);
    rest := if d.lastActive < 0 || d.exited then [] else Dispatch(Turn(d, env).0, env).1;
  }

  // ----- What callbacks keep -----

  /** Every entry not yet dispatched is null or a live channel, and no channel has two; live means open descriptor. */
  predicate Inv(s: State) {
    && s.live == s.open
    && s.open <= s.known
    && s.lastActive < |s.active|
    && (forall i | 0 <= i <= s.lastActive && s.active[i].ptr.At? :: s.active[i].ptr.ch in s.live)
    && (forall i, j | 0 <= i < j <= s.lastActive :: s.active[i].ptr == s.active[j].ptr ==> s.active[i].ptr == Null)
  }

  lemma DoKeepsInv(s: State, a: Act)
    requires Inv(s)
    ensures Inv(Do(s, a))
  {
    if a.CloseChannel? {
      NulledIs(s.active, s.lastActive, a.ch);
    }
  }

  lemma {:induction false} DoAllKeepsInv(s: State, acts: seq<Act>)
    requires Inv(s)
    ensures Inv(DoAll(s, acts))
    decreases |acts|
  {
    if acts != [] {
      DoKeepsInv(s, acts[0]);
      DoAllKeepsInv(Do(s, acts[0]), acts[1..]);
    }
  }

  lemma TurnKeepsInv(s: State, env: Env)
    requires Inv(s) && s.lastActive >= 0
    ensures Inv(Turn(s, env).0) && Turn(s, env).0.lastActive == s.lastActive
  {
    var e := s.active[s.lastActive];
    if e.ptr.At? {
      DoAllKeepsInv(s, env(e.ptr.ch, WriteHalf));
      DoAllKeepsInv(if e.write then DoAll(s, env(e.ptr.ch, WriteHalf)) else s, env(e.ptr.ch, ReadHalf));
    }
  }

  /** The table as the wait fills it: distinct open channels, each with something to report. */
  predicate Reported(s: State) {
    && s.live == s.open && s.open <= s.known && s.lastActive <= |s.active|
    && (forall i | 0 <= i < s.lastActive && s.active[i].ptr.At? :: s.active[i].ptr.ch in s.live)
    && (forall i, j | 0 <= i < j < s.lastActive :: s.active[i].ptr == s.active[j].ptr ==> s.active[i].ptr == Null)
  }

  /**
   * Whatever channels the callbacks close or create, no callback is ever started on a removed channel; the one call on
   * a closed channel is the read callback of an entry right after its own write callback has closed it.
   */
  lemma {:induction false} DispatchIsSafe(s: State, env: Env)
    requires Reported(s)
    ensures
      var log := Dispatch(s, env).1;
      forall i | 0 <= i < |log| :: log[i].alive || StaleRead(log, i, env)
    ensures Dispatch(s, env).0.live == Dispatch(s, env).0.open
    decreases s.lastActive
  {
    hide Turn;
    var d := s.(lastActive := s.lastActive - 1);
    if d.lastActive >= 0 && !d.exited {
      var now, later := Turn(d, env).1, Dispatch(Turn(d, env).0, env).1;
      TurnKeepsInv(d, env);
      TurnIsSafe(d, env);
      DispatchIsSafe(Turn(d, env).0, env);
      var log := now + later;
      forall i | 0 <= i < |log| ensures log[i].alive || StaleRead(log, i, env) {
        if i >= |now| && !log[i].alive { assert StaleRead(later, i - |now|, env); }
        if 0 < i < |now| { assert log[i - 1] == now[i - 1]; }
      }
    }
  }

  /** The i-th callback is the read half of an entry whose write half has just closed the channel. */
  predicate StaleRead(log: seq<Event>, i: nat, env: Env)
    requires i < |log|
  {
    && i > 0 && log[i].half == ReadHalf && log[i - 1] == Event(log[i].ch, WriteHalf, true)
    && CloseChannel(log[i].ch) in env(log[i].ch, WriteHalf)
  }

  lemma TurnIsSafe(s: State, env: Env)
    requires Inv(s) && s.lastActive >= 0
    ensures
      var log := Turn(s, env).1;
      forall i | 0 <= i < |log| :: log[i].alive || StaleRead(log, i, env)
  {
    var e := s.active[s.lastActive];
    if e.ptr.At? && e.write {
      DoAllEffects(s, env(e.ptr.ch, WriteHalf), e.ptr.ch);
      hide DoAll;
    }
  }

  // ----- Every callback takes effect -----

  /** Some callback in the log does this. */
  ghost predicate Done(log: seq<Event>, env: Env, a: Act) {
    exists e :: e in log && a in env(e.ch, e.half)
  }

  lemma {:induction false} DoAllEffects(s: State, acts: seq<Act>, c: ChannelId)
    requires s.lastActive < |s.active| && s.open <= s.known
    ensures
      var t := DoAll(s, acts);
      && t.open <= t.known
      && (c in t.known <==> c in s.known || AddChannel(c) in acts)
      && (t.exited <==> s.exited || ExitLoop in acts)
      && if CloseChannel(c) in acts then c in s.known ==> c !in t.open
         else c in t.open <==> c in s.open || (c !in s.known && c in t.known)
    decreases |acts|
  {
    if acts != [] {
      assert forall a :: a in acts <==> a == acts[0] || a in acts[1..];
      DoAllEffects(Do(s, acts[0]), acts[1..], c);
    }
  }

  /** The callbacks of one entry and their acts. */
  lemma TurnEffects(s: State, env: Env, c: ChannelId)
    requires 0 <= s.lastActive < |s.active| && s.open <= s.known
    ensures
      var (t, log) := Turn(s, env);
      && t.open <= t.known
      && (c in t.known <==> c in s.known || Done(log, env, AddChannel(c)))
      && (t.exited <==> s.exited || Done(log, env, ExitLoop))
      && if Done(log, env, CloseChannel(c)) then c in s.known ==> c !in t.open
         else c in t.open <==> c in s.open || (c !in s.known && c in t.known)
  {
    var e := s.active[s.lastActive];
    if e.ptr.At? {
      var ch := e.ptr.ch;
      var (t, wrote) := if e.write then Call(s, ch, WriteHalf, env) else (s, []);
      var (u, read) := if e.read then Call(t, ch, ReadHalf, env) else (t, []);
      DoAllEffects(s, env(ch, WriteHalf), c);
      DoAllEffects(t, env(ch, ReadHalf), c);
      hide DoAll;
      forall a ensures Done(wrote + read, env, a)
        <==> (e.write && a in env(ch, WriteHalf)) || (e.read && a in env(ch, ReadHalf))
      {
        if e.write { assert (wrote + read)[0].half == WriteHalf; assert (wrote + read)[0] in wrote + read; }
        if e.read { assert (wrote + read)[|wrote|].half == ReadHalf; assert (wrote + read)[|wrote|] in wrote + read; }
      }
    }
  }

  lemma DoneConcat(a: seq<Event>, b: seq<Event>, env: Env, act: Act)
    ensures Done(a + b, env, act) <==> Done(a, env, act) || Done(b, env, act)
  {
    if Done(a, env, act) { var e :| e in a && act in env(e.ch, e.half); assert e in a + b; }
    if Done(b, env, act) { var e :| e in b && act in env(e.ch, e.half); assert e in a + b; }
  }

  /**
   * What the started callbacks do is done: of the channels that existed before, those stay open that were open and that
   * none of these callbacks closes; the channels they create exist and are open unless closed again; and the loop is
   * ended if and only if one of them ends it.
   */
  lemma {:induction false} CallbacksTakeEffect(s: State, env: Env, c: ChannelId)
    requires s.lastActive <= |s.active| && s.open <= s.known
    ensures
      var (t, log) := Dispatch(s, env);
      && (c in t.known <==> c in s.known || Done(log, env, AddChannel(c)))
      && (t.exited <==> s.exited || Done(log, env, ExitLoop))
      && if Done(log, env, CloseChannel(c)) then c in s.known ==> c !in t.open
         else c in t.open <==> c in s.open || (c !in s.known && c in t.known)
    decreases s.lastActive
  {
    hide Turn, Done;
    var d := s.(lastActive := s.lastActive - 1);
    if d.lastActive >= 0 && !d.exited {
      var (t, now) := Turn(d, env);
      TurnEffects(d, env, c);
      CallbacksTakeEffect(t, env, c);
      var later := Dispatch(t, env).1;
      DoneConcat(now, later, env, AddChannel(c));
      DoneConcat(now, later, env, CloseChannel(c));
      DoneConcat(now, later, env, ExitLoop);
    } else {
      NothingDone(env);
    }
  }

  lemma NothingDone(env: Env)
    ensures forall a :: !Done([], env, a)
  {
  }

  // ----- Nothing is missed and nothing runs twice -----

  /** Whether `ch` has an entry that is still to come. */
  predicate Pending(s: State, ch: ChannelId)
    requires s.lastActive <= |s.active|
  {
    exists i :: 0 <= i < s.lastActive && s.active[i].ptr == At(ch)
  }

  /** Callbacks null exactly the entries to come of the channels they close, and bring no channel into the table. */
  lemma {:induction false} DoAllEntries(s: State, acts: seq<Act>, i: nat)
    requires Inv(s) && i <= s.lastActive && s.active[i].ptr.At?
    ensures DoAll(s, acts).active[i] ==
      if CloseChannel(s.active[i].ptr.ch) in acts then s.active[i].(ptr := Null) else s.active[i]
    decreases |acts|
  {
    if acts != [] {
      assert forall a :: a in acts <==> a == acts[0] || a in acts[1..];
      DoKeepsInv(s, acts[0]);
      if acts[0].CloseChannel? { NulledIs(s.active, s.lastActive, acts[0].ch); }
      if Do(s, acts[0]).active[i].ptr == Null {
        NullStays(Do(s, acts[0]), acts[1..], i);
      } else {
        DoAllEntries(Do(s, acts[0]), acts[1..], i);
      }
    }
  }

  lemma {:induction false} NullStays(s: State, acts: seq<Act>, i: nat)
    requires Inv(s) && i <= s.lastActive && s.active[i].ptr == Null
    ensures DoAll(s, acts).active[i] == s.active[i]
    decreases |acts|
  {
    if acts != [] {
      DoKeepsInv(s, acts[0]);
      if acts[0].CloseChannel? { NulledIs(s.active, s.lastActive, acts[0].ch); }
      NullStays(Do(s, acts[0]), acts[1..], i);
    }
  }

  lemma TurnEntries(s: State, env: Env, i: nat)
    requires Inv(s) && i < s.lastActive
    ensures
      var (t, log) := Turn(s, env);
      if s.active[i].ptr.At? && Done(log, env, CloseChannel(s.active[i].ptr.ch)) then t.active[i].ptr == Null
      else t.active[i] == s.active[i]
  {
    var e := s.active[s.lastActive];
    if e.ptr.At? {
      var ch := e.ptr.ch;
      var (t, wrote) := if e.write then Call(s, ch, WriteHalf, env) else (s, []);
      var (u, read) := if e.read then Call(t, ch, ReadHalf, env) else (t, []);
      var a, b := env(ch, WriteHalf), env(ch, ReadHalf);
      DoAllKeepsInv(s, a);
      if s.active[i].ptr == Null { NullStays(s, a, i); } else { DoAllEntries(s, a, i); }
      if t.active[i].ptr == Null { NullStays(t, b, i); } else { DoAllEntries(t, b, i); }
      hide DoAll;
      if e.write { assert (wrote + read)[0].half == WriteHalf; assert (wrote + read)[0] in wrote + read; }
      if e.read { assert (wrote + read)[|wrote|].half == ReadHalf; assert (wrote + read)[|wrote|] in wrote + read; }
    }
  }

  /** The callbacks of `ch` in the log, in order. */
  function Started(log: seq<Event>, ch: ChannelId): seq<Half> {
    if log == [] then [] else (if log[0].ch == ch then [log[0].half] else []) + Started(log[1..], ch)
  }

  lemma {:induction false} StartedConcat(a: seq<Event>, b: seq<Event>, ch: ChannelId)
    ensures Started(a + b, ch) == Started(a, ch) + Started(b, ch)
    decreases |a|
  {
    if a == [] {
      assert a + b == b;
    } else {
      var first := if a[0].ch == ch then [a[0].half] else [];
      assert (a + b)[0] == a[0] && (a + b)[1..] == a[1..] + b;
      StartedConcat(a[1..], b, ch);
      assert first + Started(a[1..], ch) + Started(b, ch) == first + (Started(a[1..], ch) + Started(b, ch));
    }
  }

  /** The callbacks an entry asks for, the write callback first. */
  function Wanted(e: Entry): seq<Half> {
    (if e.write then [WriteHalf] else []) + (if e.read then [ReadHalf] else [])
  }

  lemma TurnStarts(s: State, env: Env, ch: ChannelId)
    requires Inv(s) && s.lastActive >= 0
    ensures
      var e := s.active[s.lastActive];
      Started(Turn(s, env).1, ch) == if e.ptr == At(ch) then Wanted(e) else []
    ensures forall e | e in Turn(s, env).1 :: s.active[s.lastActive].ptr == At(e.ch)
  {
    var e := s.active[s.lastActive];
    if e.ptr.At? {
      hide DoAll;
      var c := e.ptr.ch;
      var (t, wrote) := if e.write then Call(s, c, WriteHalf, env) else (s, []);
      var (u, read) := if e.read then Call(t, c, ReadHalf, env) else (t, []);
      StartedConcat(wrote, read, ch);
    }
  }

  lemma TurnAddsNoPending(s: State, env: Env, ch: ChannelId)
    requires Inv(s) && s.lastActive >= 0 && !Pending(s, ch)
    ensures Turn(s, env).0.lastActive == s.lastActive && !Pending(Turn(s, env).0, ch)
  {
    hide Turn, Done;
    var u := Turn(s, env).0;
    forall i | 0 <= i < s.lastActive ensures u.active[i].ptr != At(ch) {
      TurnEntries(s, env, i);
    }
  }

  /** A channel that is not in the rest of the table is not dispatched. */
  lemma {:induction false} NotPendingNotStarted(s: State, env: Env, ch: ChannelId)
    requires Reported(s) && !Pending(s, ch)
    ensures Started(Dispatch(s, env).1, ch) == []
    ensures forall e | e in Dispatch(s, env).1 :: e.ch != ch
    decreases s.lastActive
  {
    hide Turn;
    var d := s.(lastActive := s.lastActive - 1);
    if d.lastActive >= 0 && !d.exited {
      TurnKeepsInv(d, env);
      TurnAddsNoPending(d, env, ch);
      assert d.active[d.lastActive].ptr != At(ch);
      TurnStarts(d, env, ch);
      NotPendingNotStarted(Turn(d, env).0, env, ch);
      StartedConcat(Turn(d, env).1, Dispatch(Turn(d, env).0, env).1, ch);
    }
  }

  /** Whether `ch` has an entry above the i-th, so that it is dispatched before it. */
  predicate Above(s: State, i: nat, ch: ChannelId)
    requires s.lastActive <= |s.active|
  {
    exists j :: i < j < s.lastActive && s.active[j].ptr == At(ch)
  }

  /** A callback of an entry above the i-th does this. */
  ghost predicate DoneAbove(s: State, log: seq<Event>, env: Env, i: nat, a: Act)
    requires s.lastActive <= |s.active|
  {
    exists e :: e in log && Above(s, i, e.ch) && a in env(e.ch, e.half)
  }

  /** What is done above the i-th entry is done by the first entry's callbacks or above it in the rest. */
  lemma DoneAboveUnfolds(s: State, env: Env, i: nat, a: Act)
    requires Reported(s) && !s.exited && i + 1 < s.lastActive
    ensures
      var (t, now) := Turn(s.(lastActive := s.lastActive - 1), env);
      var later := Dispatch(t, env).1;
      DoneAbove(s, now + later, env, i, a) <==> Done(now, env, a) || DoneAbove(t, later, env, i, a)
  {
    hide Turn, Dispatch;
    var d := s.(lastActive := s.lastActive - 1);
    var (t, now) := Turn(d, env);
    var later := Dispatch(t, env).1;
    TurnKeepsInv(d, env);
    TurnStarts(d, env, 0);
    if Done(now, env, a) {
      var e :| e in now && a in env(e.ch, e.half);
      assert e in now + later && Above(s, i, e.ch);
    }
    if DoneAbove(t, later, env, i, a) {
      var e :| e in later && Above(t, i, e.ch) && a in env(e.ch, e.half);
      EntryStays(d, env, i, e.ch);
      assert e in now + later && Above(s, i, e.ch);
    }
    if DoneAbove(s, now + later, env, i, a) && !Done(now, env, a) {
      var e :| e in now + later && Above(s, i, e.ch) && a in env(e.ch, e.half);
      assert e in later;
      if !Pending(t, e.ch) { NotPendingNotStarted(t, env, e.ch); }
      EntryStays(d, env, i, e.ch);
      assert Above(t, i, e.ch);
    }
  }

  /** A channel that the first entry's callbacks close is not dispatched any more. */
  lemma GoneIsNotPending(s: State, env: Env, i: nat)
    requires Inv(s) && i < s.lastActive && s.active[i].ptr.At?
    requires Done(Turn(s, env).1, env, CloseChannel(s.active[i].ptr.ch))
    ensures Turn(s, env).0.lastActive == s.lastActive && !Pending(Turn(s, env).0, s.active[i].ptr.ch)
  {
    hide Turn, Done;
    var t := Turn(s, env).0;
    forall j | 0 <= j < t.lastActive ensures t.active[j].ptr != s.active[i].ptr {
      TurnEntries(s, env, j);
    }
  }

  /** Entries above the i-th are the same ones after a turn, as far as they are still there. */
  lemma EntryStays(s: State, env: Env, i: nat, ch: ChannelId)
    requires Inv(s) && i < s.lastActive
    ensures
      var t := Turn(s, env).0;
      && (Above(t, i, ch) ==> Above(s, i, ch))
      && (Pending(t, ch) && Above(s.(lastActive := s.lastActive + 1), i, ch) ==> Above(t, i, ch))
  {
    hide Turn, Done;
    var t := Turn(s, env).0;
    forall j | 0 <= j < s.lastActive ensures t.active[j].ptr == Null || t.active[j] == s.active[j] {
      TurnEntries(s, env, j);
    }
    if Pending(t, ch) && Above(s.(lastActive := s.lastActive + 1), i, ch) {
      var k :| 0 <= k < t.lastActive && t.active[k].ptr == At(ch);
      var j :| i < j <= s.lastActive && s.active[j].ptr == At(ch);
      assert j == k;
    }
  }

  /**
   * Exactly which callbacks are started: those that a reported entry asks for, the write callback first and each once,
   * if and only if no callback of the entries dispatched before it closes its channel or ends the loop. What its own
   * write callback does makes no difference.
   */
  lemma {:induction false} EachStartsExactly(s: State, env: Env, i: nat)
    requires Reported(s) && i < s.lastActive && s.active[i].ptr.At?
    ensures
      var log, ch := Dispatch(s, env).1, s.active[i].ptr.ch;
      Started(log, ch) ==
        if s.exited || DoneAbove(s, log, env, i, CloseChannel(ch)) || DoneAbove(s, log, env, i, ExitLoop) then []
        else Wanted(s.active[i])
    decreases s.lastActive
  {
    hide Turn, Done, Started, Pending, Above, DoneAbove, Inv;
    var d := s.(lastActive := s.lastActive - 1);
    var ch := s.active[i].ptr.ch;
    if !d.exited {
      if i == d.lastActive {
        FirstStarts(s, env);
      } else {
        var (t, now) := Turn(d, env);
        EntryAfterTurn(s, env, i);
        if Done(now, env, CloseChannel(ch)) {
          NotPendingNotStarted(t, env, ch);
        } else {
          EachStartsExactly(t, env, i);
        }
      }
    } else {
      assert Dispatch(s, env).1 == [];
      NoneStarted(ch);
    }
  }

  lemma NoneStarted(ch: ChannelId)
    ensures Started([], ch) == []
  {
  }

  /** The first entry's callbacks are all of its channel's. */
  lemma FirstStarts(s: State, env: Env)
    requires Reported(s) && !s.exited && s.lastActive > 0 && s.active[s.lastActive - 1].ptr.At?
    ensures
      var e := s.active[s.lastActive - 1];
      var log := Dispatch(s, env).1;
      && Started(log, e.ptr.ch) == Wanted(e)
      && !DoneAbove(s, log, env, s.lastActive - 1, CloseChannel(e.ptr.ch))
      && !DoneAbove(s, log, env, s.lastActive - 1, ExitLoop)
  {
    hide Turn, Started;
    var d := s.(lastActive := s.lastActive - 1);
    var ch := d.active[d.lastActive].ptr.ch;
    var (t, now) := Turn(d, env);
    TurnKeepsInv(d, env);
    TurnStarts(d, env, ch);
    TurnAddsNoPending(d, env, ch);
    NotPendingNotStarted(t, env, ch);
    StartedConcat(now, Dispatch(t, env).1, ch);
  }

  lemma ReportedAfterTurn(s: State, env: Env)
    requires Reported(s) && s.lastActive > 0
    ensures
      var d := s.(lastActive := s.lastActive - 1);
      Inv(d) && Reported(Turn(d, env).0) && Turn(d, env).0.lastActive == d.lastActive
  {
    TurnKeepsInv(s.(lastActive := s.lastActive - 1), env);
    hide Turn;
  }

  /** What the first entry's callbacks make of another entry, and what that leaves to be decided. */
  lemma EntryAfterTurn(s: State, env: Env, i: nat)
    requires Reported(s) && !s.exited && i + 1 < s.lastActive && s.active[i].ptr.At?
    ensures
      var (t, now) := Turn(s.(lastActive := s.lastActive - 1), env);
      var log, later, ch := Dispatch(s, env).1, Dispatch(t, env).1, s.active[i].ptr.ch;
      && Reported(t) && i < t.lastActive && Started(log, ch) == Started(later, ch)
      && (t.exited <==> Done(now, env, ExitLoop))
      && (if Done(now, env, CloseChannel(ch)) then !Pending(t, ch) else t.active[i] == s.active[i])
      && forall a :: DoneAbove(s, log, env, i, a) <==> Done(now, env, a) || DoneAbove(t, later, env, i, a)
  {
    hide Turn, Done, Started, Pending, Above, DoneAbove, Inv;
    var d := s.(lastActive := s.lastActive - 1);
    var (t, now) := Turn(d, env);
    var ch := s.active[i].ptr.ch;
    ReportedAfterTurn(s, env);
    TurnStarts(d, env, ch);
    assert d.active[d.lastActive].ptr != At(ch);
    StartedConcat(now, Dispatch(t, env).1, ch);
    assert [] + Started(Dispatch(t, env).1, ch) == Started(Dispatch(t, env).1, ch);
    TurnEntries(d, env, i);
    TurnEffects(d, env, ch);
    if Done(now, env, CloseChannel(ch)) { GoneIsNotPending(d, env, i); }
    forall a
      ensures DoneAbove(s, Dispatch(s, env).1, env, i, a)
        <==> Done(now, env, a) || DoneAbove(t, Dispatch(t, env).1, env, i, a)
    {
      DoneAboveUnfolds(s, env, i, a);
    }
  }

  // ----- The dispatcher as the program runs it -----

  class PollerEpoll {
    const active: array<Entry>
    var live: set<ChannelId>
    var lastActive: int
    var exited: bool
    /** The channels' own descriptors, and every channel so far. */
    var open: set<ChannelId>
    var known: set<ChannelId>

    function View(): State
      reads this, active
    {
      State(live, open, known, active[..], lastActive, exited)
    }

    constructor ()
      ensures fresh(active) && View() == State({}, {}, {}, active[..], -1, false) && active.Length == MAX_EVENTS
    {
      active := new Entry[MAX_EVENTS](_ => Entry(Null, false, false));
      live, lastActive, exited, open, known := {}, -1, false, {}, {};
    }

    method RemoveChannel(ch: ChannelId)
      requires lastActive < active.Length
      modifies this`live, active
      ensures View() == Remove(old(View()), ch)
    {
      live := live - {ch};
      var i := lastActive;
      while i >= 0
        invariant -1 <= i <= lastActive || i == lastActive
        invariant active[..] == old(active[..])
        invariant Nulled(active[..], lastActive, ch) == Nulled(active[..], i, ch)
      {
        if active[i].ptr == At(ch) {
          active[i] := active[i].(ptr := Null);
          break;
        }
        i := i - 1;
      }
      assert active[..] == Nulled(old(active[..]), lastActive, ch);
    }

    /** `Channel::close` without its callback, whose effects are part of the environment. */
    method ChannelClose(ch: ChannelId)
      requires lastActive < active.Length
      modifies this, active
      ensures View() == Do(old(View()), CloseChannel(ch))
    {
      if ch in open {
        RemoveChannel(ch);
        open := open - {ch};
      }
    }

    method AddChannel(ch: ChannelId)
      requires ch !in known && lastActive < active.Length
      modifies this`live, this`open, this`known
      ensures View() == Do(old(View()), Act.AddChannel(ch))
    {
      live, open, known := live + {ch}, open + {ch}, known + {ch};
    }

    /** Everything one callback does. */
    method RunCallback(acts: seq<Act>)
      requires lastActive < active.Length
      modifies this, active
      ensures View() == DoAll(old(View()), acts)
    {
      var i := 0;
      assert acts[0..] == acts;
      while i < |acts|
        invariant 0 <= i <= |acts| && lastActive < active.Length
        invariant DoAll(View(), acts[i..]) == DoAll(old(View()), acts)
      {
        assert acts[i..][1..] == acts[i + 1..];
        match acts[i] {
          case CloseChannel(ch) => ChannelClose(ch);
          case AddChannel(ch) =>
            if ch !in known {
              AddChannel(ch);
            }
          case ExitLoop => exited := true;
        }
        i := i + 1;
      }
    }

    /** Starts one callback of a channel. */
    method Start(ch: ChannelId, half: Half, env: Env) returns (started: seq<Event>)
      requires lastActive < active.Length
      modifies this, active
      ensures (View(), started) == Call(old(View()), ch, half, env)
    {
      started := [Event(ch, half, ch in open)];
      RunCallback(env(ch, half));
    }

    method DispatchOne(env: Env) returns (started: seq<Event>)
      requires 0 <= lastActive < active.Length
      modifies this, active
      ensures (View(), started) == Turn(old(View()), env)
    {
      hide Call;
      var e := active[lastActive];
      if e.ptr == Null {
        return [];
      }
      var wrote, read := [], [];
      if e.write {
        wrote := Start(e.ptr.ch, WriteHalf, env);
      }
      if e.read {
        read := Start(e.ptr.ch, ReadHalf, env);
      }
      started := wrote + read;
    }

    /** loop_once after the wait has filled the first `n` entries; -1 when the wait was interrupted. */
    method LoopOnce(n: int, env: Env) returns (log: seq<Event>)
      requires -1 <= n <= active.Length
      modifies this, active
      ensures (View(), log) == Dispatch(old(View()).(lastActive := n), env)
    {
      hide Turn, Dispatch;
      lastActive := n;
      log := [];
      ghost var end, all := Dispatch(View(), env).0, Dispatch(View(), env).1;
      ghost var left := all;
      while true
        invariant lastActive <= active.Length
        invariant Dispatch(View(), env) == (end, left) && log + left == all
        decreases lastActive
      {
        ghost var rest := DispatchUnfolds(View(), env, end, left);
        lastActive := lastActive - 1;
        if lastActive < 0 || exited {
          break;
        }
        var started := DispatchOne(env);
        log := log + started;
        left := rest;
      }
      assert View() == end && log == log + left == all;
    }

    /** The destructor: closes what is live until nothing is, with callbacks that may close but no longer create. */
    method CloseAll(env: Env)
      requires lastActive < active.Length && live == open
      requires forall ch: ChannelId, a | a in env(ch, ReadHalf) :: !a.AddChannel?
      modifies this, active
      ensures live == {} && open == {}
    {
      while live != {}
        invariant lastActive < active.Length && live == open
        decreases live
      {
        var ch :| ch in live;
        ChannelClose(ch);
        ghost var before := View();
        RunCallback(env(ch, ReadHalf));
        ClosingShrinks(before, env(ch, ReadHalf));
      }
    }
  }

  lemma {:induction false} ClosingShrinks(s: State, acts: seq<Act>)
    requires s.lastActive < |s.active| && s.live == s.open && forall a | a in acts :: !a.AddChannel?
    ensures DoAll(s, acts).live == DoAll(s, acts).open <= s.open
    decreases |acts|
  {
    if acts != [] {
      assert !acts[0].AddChannel?;
      ClosingShrinks(Do(s, acts[0]), acts[1..]);
    }
  }
}
