/** The timer engine of the event loop: one-shot and repeating timers kept in two ordered maps. */
module Timers {
  /** A (time, sequence number) pair; handles of repeating timers carry the negated start time. */
  datatype TimerId = TimerId(first: int, second: int)

  type Task = nat

  /** What a key of the firing map runs: a user task, or the repeating entry that owns the key. */
  datatype Thunk = Once(task: Task) | Again(rep: TimerId)

  datatype Repeatable = Repeatable(at: int, interval: int, timerid: TimerId, cb: Task)

  /** `refreshedAt` is the clock reading from which `nextTimeout` was last computed. */
  datatype State = State(timers: map<TimerId, Thunk>, reps: map<TimerId, Repeatable>,
                         seqNo: nat, nextTimeout: int, refreshedAt: int, exited: bool)

  /** A call that a callback, or the code between two loop turns, makes on the event base. */
  datatype Action =
    | RunAt(milli: int, task: Task, interval: int, clock: int)
    | Cancel(id: TimerId)

  /** What the environment does around one firing: the clock it reads and the calls the callback makes. */
  datatype Reply = Reply(clock: int, actions: seq<Action>)

  type Env = nat -> Reply

  /** One firing: the key, what it held, and the task that ran. */
  datatype Fired = Fired(key: TimerId, thunk: Thunk, task: Task)

  const SEQ_LIMIT: int := 0x4000_0000_0000_0000
  const NO_TIMER_WAIT: int := 0x4000_0000
  const NO_ID := TimerId(0, 0)

  predicate Less(a: TimerId, b: TimerId) {
    a.first < b.first || (a.first == b.first && a.second < b.second)
  }

  predicate IsFirst(k: TimerId, keys: set<TimerId>) {
    k in keys && forall o | o in keys :: o == k || Less(k, o)
  }

  lemma {:induction false} FirstExists(keys: set<TimerId>) returns (k: TimerId)
    requires keys != {}
    ensures IsFirst(k, keys)
    decreases |keys|
  {
    k :| k in keys;
    var rest := keys - {k};
    if rest != {} {
      var r := FirstExists(rest);
      assert forall o | o in keys :: o == k || o == r || Less(r, o);
      assert Less(r, k) || Less(k, r);
      if Less(r, k) {
        k := r;
      }
    }
  }

  /** `timers_.begin()->first`. */
  function First(timers: map<TimerId, Thunk>): (k: TimerId)
    requires timers != map[]
    ensures IsFirst(k, timers.Keys)
  {
    assert timers.Keys != {} by {
      var x :| x in timers;
      assert x in timers.Keys;
    }
    assert exists k :: IsFirst(k, timers.Keys) by {
      var k := FirstExists(timers.Keys);
    }
    var k :| IsFirst(k, timers.Keys);
    k
  }

  // ----- The operations as functions of the state -----

  /** The narrowing of a 64-bit difference to a 32-bit `int`. */
  function ToInt32(v: int): int {
    (v + 0x8000_0000) % 0x1_0000_0000 - 0x8000_0000
  }

  function Nearest(timers: map<TimerId, Thunk>, clock: int): int {
    if timers == map[] then
      NO_TIMER_WAIT
    else
      var d := ToInt32(First(timers).first - clock);
      if d < 0 then 0 else d
  }

  function Refresh(s: State, clock: int): State {
    s.(nextTimeout := Nearest(s.timers, clock), refreshedAt := clock)
  }

  /**
   * The arguments for which the sign of a handle tells the two kinds of timer apart; for cancel, a live handle
   * when it is a repeating one, and never the key a repeating entry keeps to itself (runAt does not return those).
   */
  predicate Legal(s: State, a: Action) {
    match a
    case RunAt(milli, _, interval, _) => interval >= 0 && (if interval == 0 then milli >= 0 else milli > 0)
    case Cancel(id) => if id.first < 0 then id in s.reps else id in s.timers ==> s.timers[id].Once?
  }

  function ArmOnce(s: State, key: TimerId, task: Task): State {
    s.(timers := s.timers[key := Once(task)], seqNo := s.seqNo + 1)
  }

  function ArmAgain(s: State, tid: TimerId, tr: Repeatable): State {
    s.(reps := s.reps[tid := tr], timers := s.timers[tr.timerid := Again(tid)], seqNo := s.seqNo + 2)
  }

  function DoRunAt(s: State, milli: int, task: Task, interval: int, clock: int): (State, TimerId) {
    if s.exited then
      (s, NO_ID)
    else if interval != 0 then
      var tid := TimerId(-milli, s.seqNo + 1);
      (Refresh(ArmAgain(s, tid, Repeatable(milli, interval, TimerId(milli, s.seqNo + 2), task)), clock), tid)
    else
      var tid := TimerId(milli, s.seqNo + 1);
      (Refresh(ArmOnce(s, tid, task), clock), tid)
  }

  function DoCancel(s: State, id: TimerId): (State, bool)
    requires Legal(s, Cancel(id))
  {
    if id.first < 0 then
      (s.(timers := s.timers - {s.reps[id].timerid}, reps := s.reps - {id}), true)
    else
      (s.(timers := s.timers - {id}), id in s.timers)
  }

  /** A call outside the documented arguments is undefined, so the model takes it as a call not made. */
  function Do(s: State, a: Action): State {
    if !Legal(s, a) then s
    else
      match a
      case RunAt(milli, task, interval, clock) => DoRunAt(s, milli, task, interval, clock).0
      case Cancel(id) => DoCancel(s, id).0
  }

  function DoAll(s: State, actions: seq<Action>): State
    decreases |actions|
  {
    if actions == [] then s else DoAll(Do(s, actions[0]), actions[1..])
  }

  predicate Due(s: State, now: int) {
    s.timers != map[] && Less(First(s.timers), TimerId(now, SEQ_LIMIT))
  }

  /** Takes the first thunk out; a repeating one re-arms itself one interval later before its callback runs. */
  function Fire(s: State, clock: int): State
    requires s.timers != map[] && Inv(s)
  {
    var k := First(s.timers);
    match s.timers[k]
    case Once(_) => s.(timers := s.timers - {k})
    case Again(id) => Refresh(Rearm(s.(timers := s.timers - {k}), id), clock)
  }

  function Rearm(s: State, id: TimerId): State
    requires id in s.reps
  {
    var tr := s.reps[id];
    var key := TimerId(tr.at + tr.interval, s.seqNo + 1);
    s.(timers := s.timers[key := Again(id)],
       reps := s.reps[id := tr.(at := tr.at + tr.interval, timerid := key)],
       seqNo := s.seqNo + 1)
  }

  // ----- The two-map invariant -----

  /** Each repeating entry owns one key, the one it records, and each repeating thunk has a live entry. */
  predicate Linked(s: State) {
    && (forall id | id in s.reps :: s.reps[id].timerid in s.timers && s.timers[s.reps[id].timerid] == Again(id))
    && (forall k | k in s.timers && s.timers[k].Again? ::
          s.timers[k].rep in s.reps && s.reps[s.timers[k].rep].timerid == k)
  }

  /** Sequence numbers are positive and never beyond the counter. */
  predicate Numbered(ids: set<TimerId>, limit: nat) {
    forall k | k in ids :: 0 < k.second <= limit
  }

  /** Whether `x` is a sum of zero or more copies of `i`. */
  predicate Whole(x: int, i: int)
    decreases x
  {
    x == 0 || (0 < i <= x && Whole(x - i, i))
  }

  /** `at` is the time asked for plus a whole number of intervals. */
  predicate OnBeat(id: TimerId, tr: Repeatable) {
    && id.first < 0 < tr.interval
    && tr.timerid.first == tr.at
    && Whole(tr.at + id.first, tr.interval)
  }

  predicate NoDrift(reps: map<TimerId, Repeatable>) {
    forall id | id in reps :: OnBeat(id, reps[id])
  }

  predicate Inv(s: State) {
    && Linked(s)
    && Numbered(s.timers.Keys, s.seqNo)
    && Numbered(s.reps.Keys, s.seqNo)
    && NoDrift(s.reps)
    && forall k | k in s.timers :: 0 <= k.first
  }

  /** The task that runs when the thunk under `k` fires. */
  function TaskAt(s: State, k: TimerId): Task
    requires Inv(s) && k in s.timers
  {
    match s.timers[k]
    case Once(task) => task
    case Again(id) => s.reps[id].cb
  }

  /** What firing the first thunk is recorded as. */
  function FiresNow(s: State): Fired
    requires Inv(s) && s.timers != map[]
  {
    var k := First(s.timers);
    Fired(k, s.timers[k], TaskAt(s, k))
  }

  lemma {:induction false} DoKeepsInv(s: State, a: Action)
    requires Inv(s)
    ensures Inv(Do(s, a))
  {
    if Legal(s, a) {
      match a
      case RunAt(milli, task, interval, clock) => RunAtKeepsInv(s, milli, task, interval, clock);
      case Cancel(id) => CancelKeepsInv(s, id);
    }
  }

  lemma ArmAgainKeepsInv(s: State, tid: TimerId, tr: Repeatable)
    requires Inv(s)
    requires tid.second == s.seqNo + 1 && tr.timerid.second == s.seqNo + 2 && OnBeat(tid, tr)
    ensures Inv(ArmAgain(s, tid, tr))
  {
    var t := ArmAgain(s, tid, tr);
    assert t.timers.Keys == s.timers.Keys + {tr.timerid};
    assert t.reps.Keys == s.reps.Keys + {tid};
    assert Linked(t);
  }

  lemma ArmOnceKeepsInv(s: State, key: TimerId, task: Task)
    requires Inv(s) && key.second == s.seqNo + 1 && key.first >= 0
    ensures Inv(ArmOnce(s, key, task))
  {
    assert key !in s.timers;
  }

  lemma RefreshKeepsInv(s: State, clock: int)
    requires Inv(s)
    ensures Inv(Refresh(s, clock))
  {
    hide Nearest;
  }

  lemma RunAtKeepsInv(s: State, milli: int, task: Task, interval: int, clock: int)
    requires Inv(s) && Legal(s, RunAt(milli, task, interval, clock))
    ensures Inv(DoRunAt(s, milli, task, interval, clock).0)
  {
    hide Inv, Refresh, ArmOnce, ArmAgain;
    if s.exited {
    } else if interval != 0 {
      var tid := TimerId(-milli, s.seqNo + 1);
      var tr := Repeatable(milli, interval, TimerId(milli, s.seqNo + 2), task);
      ArmAgainKeepsInv(s, tid, tr);
      RefreshKeepsInv(ArmAgain(s, tid, tr), clock);
    } else {
      ArmOnceKeepsInv(s, TimerId(milli, s.seqNo + 1), task);
      RefreshKeepsInv(ArmOnce(s, TimerId(milli, s.seqNo + 1), task), clock);
    }
  }

  lemma CancelKeepsInv(s: State, id: TimerId)
    requires Inv(s) && Legal(s, Cancel(id))
    ensures Inv(DoCancel(s, id).0)
  {
    var t := DoCancel(s, id).0;
    assert Linked(t);
    assert NoDrift(t.reps);
  }

  lemma {:induction false} DoAllKeepsInv(s: State, actions: seq<Action>)
    requires Inv(s)
    ensures Inv(DoAll(s, actions))
    decreases |actions|
  {
    if actions != [] {
      DoKeepsInv(s, actions[0]);
      DoAllKeepsInv(Do(s, actions[0]), actions[1..]);
    }
  }

  lemma RearmKeepsInv(s: State, k: TimerId, id: TimerId)
    requires Inv(s) && k in s.timers && s.timers[k] == Again(id)
    ensures Inv(Rearm(s.(timers := s.timers - {k}), id))
  {
    var t := Rearm(s.(timers := s.timers - {k}), id);
    var tr := s.reps[id];
    assert OnBeat(id, tr);
    assert tr.at + tr.interval + id.first - tr.interval == tr.at + id.first;
    assert OnBeat(id, t.reps[id]);
    assert t.timers.Keys == s.timers.Keys - {k} + {TimerId(tr.at + tr.interval, s.seqNo + 1)};
    assert t.reps.Keys == s.reps.Keys;
    assert Linked(t);
  }

  lemma {:induction false} FireKeepsInv(s: State, clock: int)
    requires s.timers != map[] && Inv(s)
    ensures Inv(Fire(s, clock))
  {
    var k := First(s.timers);
    if s.timers[k].Again? {
      RearmKeepsInv(s, k, s.timers[k].rep);
    }
  }

  /** The timer that the handle `id` stands for is gone and everything else is as it was in `s`. */
  predicate Undone(s: State, t: State, id: TimerId) {
    Legal(t, Cancel(id)) && DoCancel(t, id).1 && DoCancel(t, id).0.timers == s.timers
      && DoCancel(t, id).0.reps == s.reps
  }

  lemma CancelUndoesOnce(s: State, key: TimerId, task: Task, t: State)
    requires key !in s.timers && t.timers == s.timers[key := Once(task)] && t.reps == s.reps
    ensures key.first >= 0 ==> Undone(s, t, key)
    ensures key.first < 0 && key !in s.reps ==> !Legal(t, Cancel(key))
  {
    assert t.timers - {key} == s.timers;
  }

  lemma CancelUndoesAgain(s: State, id: TimerId, tr: Repeatable, t: State)
    requires id !in s.timers && id !in s.reps && tr.timerid !in s.timers && id != tr.timerid
    requires t.timers == s.timers[tr.timerid := Again(id)] && t.reps == s.reps[id := tr]
    ensures id.first < 0 <==> Undone(s, t, id)
  {
    assert t.timers - {tr.timerid} == s.timers;
    assert t.reps - {id} == s.reps;
  }

  /** Cancelling the handle from runAt takes the timer out again exactly when the sign of the time fits its kind. */
  lemma CancelUndoesRunAt(s: State, milli: int, task: Task, interval: int, clock: int, t: State, id: TimerId)
    requires Inv(s) && !s.exited && interval >= 0 && (t, id) == DoRunAt(s, milli, task, interval, clock)
    ensures Undone(s, t, id) <==> Legal(s, RunAt(milli, task, interval, clock))
  {
    FreshNames(s, id, TimerId(milli, t.seqNo));
    hide Inv, Nearest, Undone, DoCancel;
    if interval == 0 {
      CancelUndoesOnce(s, id, task, t);
      assert Undone(s, t, id) ==> Legal(t, Cancel(id)) by { UndoneIsLegal(s, t, id); }
    } else {
      CancelUndoesAgain(s, id, Repeatable(milli, interval, TimerId(milli, t.seqNo), task), t);
    }
  }

  lemma UndoneIsLegal(s: State, t: State, id: TimerId)
    ensures Undone(s, t, id) ==> Legal(t, Cancel(id))
  {
  }

  lemma FreshNames(s: State, id: TimerId, key: TimerId)
    requires Inv(s) && id.second > s.seqNo && key.second > s.seqNo
    ensures id !in s.timers && id !in s.reps && key !in s.timers
  {
  }

  // ----- Sequence numbers name at most one thing -----

  function Names(s: State): set<TimerId> { s.timers.Keys + s.reps.Keys }

  predicate Unshared(ids: set<TimerId>) {
    forall k, o | k in ids && o in ids && k.second == o.second :: k == o
  }

  lemma GrowUnshared(ids: set<TimerId>, limit: nat, k: TimerId)
    requires Unshared(ids) && Numbered(ids, limit) && k.second == limit + 1
    ensures Unshared(ids + {k}) && Numbered(ids + {k}, limit + 1)
  {
  }

  lemma ShrinkUnshared(ids: set<TimerId>, fewer: set<TimerId>)
    requires Unshared(ids) && fewer <= ids
    ensures Unshared(fewer)
  {
  }

  lemma DoKeepsUnshared(s: State, a: Action)
    requires Inv(s) && Unshared(Names(s))
    ensures Unshared(Names(Do(s, a)))
  {
    var one, two := DoNames(s, a);
    hide Inv, Unshared, Numbered, Do;
    GrowUnshared(Names(s), s.seqNo, one);
    GrowUnshared(Names(s) + {one}, s.seqNo + 1, two);
    ShrinkUnshared(Names(s) + {one} + {two}, Names(Do(s, a)));
  }

  /** A call brings in at most two new names, with the next two sequence numbers. */
  lemma DoNames(s: State, a: Action) returns (one: TimerId, two: TimerId)
    requires Inv(s)
    ensures one.second == s.seqNo + 1 && two.second == s.seqNo + 2
    ensures Names(Do(s, a)) <= Names(s) + {one} + {two} && Numbered(Names(s), s.seqNo)
  {
    one, two := TimerId(0, s.seqNo + 1), TimerId(0, s.seqNo + 2);
    if a.RunAt? {
      one := TimerId(if a.interval != 0 then -a.milli else a.milli, s.seqNo + 1);
      two := TimerId(a.milli, s.seqNo + 2);
    }
  }

  lemma {:induction false} DoAllKeepsUnshared(s: State, actions: seq<Action>)
    requires Inv(s) && Unshared(Names(s))
    ensures Unshared(Names(DoAll(s, actions)))
    decreases |actions|
  {
    if actions != [] {
      DoKeepsInv(s, actions[0]);
      DoKeepsUnshared(s, actions[0]);
      DoAllKeepsUnshared(Do(s, actions[0]), actions[1..]);
    }
  }

  lemma FireKeepsUnshared(s: State, clock: int)
    requires Inv(s) && s.timers != map[] && Unshared(Names(s))
    ensures Unshared(Names(Fire(s, clock)))
  {
    var added := FireNames(s, clock);
    hide Inv, Unshared, Numbered, Fire;
    GrowUnshared(Names(s), s.seqNo, added);
    ShrinkUnshared(Names(s) + {added}, Names(Fire(s, clock)));
  }

  /** A firing brings in at most one new name, with the next sequence number. */
  lemma FireNames(s: State, clock: int) returns (added: TimerId)
    requires Inv(s) && s.timers != map[]
    ensures added.second == s.seqNo + 1 && Names(Fire(s, clock)) <= Names(s) + {added} && Numbered(Names(s), s.seqNo)
  {
    var k := First(s.timers);
    added := TimerId(0, s.seqNo + 1);
    if s.timers[k].Again? {
      var tr := s.reps[s.timers[k].rep];
      added := TimerId(tr.at + tr.interval, s.seqNo + 1);
    }
  }
}
