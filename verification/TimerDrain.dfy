/** Running the due timers: termination, order, and exactly which callbacks fire. */
module TimerDrain {
  import Arith
  import Sums
  import opened Timers

  // ----- Running everything that is due -----

  /** The number of firings a key still owes up to and including the time `now`. */
  function Remaining(s: State, now: int, k: TimerId): nat
    requires k in s.timers
  {
    if k.first > now then
      0
    else
      match s.timers[k]
      case Once(_) => 1
      case Again(id) =>
        if id in s.reps && s.reps[id].interval > 0 then Occurrences(k.first, s.reps[id].interval, now) else 1
  }

  /** How many of the instants at, at + interval, at + 2 * interval, ... are not after `now`. */
  function Occurrences(at: int, interval: int, now: int): (n: nat)
    requires interval > 0
  {
    if at > now then 0 else (now - at) / interval + 1
  }

  lemma OccurrencesStep(at: int, interval: int, now: int)
    requires at <= now && interval > 0
    ensures Occurrences(at + interval, interval, now) == Occurrences(at, interval, now) - 1
  {
    var x := now - at;
    if x < interval {
      assert x == interval * 0 + x;
      Arith.DivUnique(interval, 0, x);
    } else {
      assert x - interval == interval * (x / interval - 1) + x % interval;
      Arith.DivUnique(interval, x / interval - 1, x % interval);
    }
  }

  ghost function Work(s: State, now: int): map<TimerId, nat> {
    map k | k in s.timers :: Remaining(s, now, k)
  }

  /** The firings still owed in all: what every turn of the loop makes smaller. */
  ghost function TimeLeft(s: State, now: int): nat { Sums.Sum(Work(s, now)) }

  predicate Later(a: Action, now: int) {
    a.RunAt? ==> a.milli > now
  }

  ghost predicate Quiet(env: Env, now: int) {
    forall k: nat, a | a in env(k).actions :: Later(a, now)
  }

  lemma RearmWorks(s: State, k: TimerId, id: TimerId, now: int)
    requires Linked(s) && Numbered(s.timers.Keys, s.seqNo)
    requires k in s.timers && s.timers[k] == Again(id) && OnBeat(id, s.reps[id]) && k.first <= now
    ensures Sums.Sum(Work(Rearm(s.(timers := s.timers - {k}), id), now)) < Sums.Sum(Work(s, now))
  {
    var t := Rearm(s.(timers := s.timers - {k}), id);
    var tr := s.reps[id];
    var key := TimerId(tr.at + tr.interval, s.seqNo + 1);
    OccurrencesStep(tr.at, tr.interval, now);
    RearmLeavesOthers(s, k, id, now);
    Sums.Split(Work(s, now), k);
    Sums.Split(Work(t, now), key);
    assert Work(t, now)[key] < Work(s, now)[k];
  }

  lemma RearmLeavesOthers(s: State, k: TimerId, id: TimerId, now: int)
    requires Linked(s) && Numbered(s.timers.Keys, s.seqNo)
    requires k in s.timers && s.timers[k] == Again(id)
    ensures Work(Rearm(s.(timers := s.timers - {k}), id), now)
              - {TimerId(s.reps[id].at + s.reps[id].interval, s.seqNo + 1)} == Work(s, now) - {k}
  {
    var t := Rearm(s.(timers := s.timers - {k}), id);
    var key := TimerId(s.reps[id].at + s.reps[id].interval, s.seqNo + 1);
    var rest := Work(t, now) - {key};
    assert rest.Keys == s.timers.Keys - {k};
    forall o | o in rest ensures rest[o] == Work(s, now)[o] {
      assert o in s.timers && t.timers[o] == s.timers[o] && s.timers[o] != Again(id);
    }
  }

  lemma OnceWorks(s: State, k: TimerId, now: int)
    requires k in s.timers && s.timers[k].Once? && k.first <= now
    ensures Sums.Sum(Work(s.(timers := s.timers - {k}), now)) < Sums.Sum(Work(s, now))
  {
    Sums.Split(Work(s, now), k);
    assert Work(s.(timers := s.timers - {k}), now) == Work(s, now) - {k};
  }

  lemma RefreshWorks(s: State, clock: int, now: int)
    ensures Work(Refresh(s, clock), now) == Work(s, now)
  {
  }

  lemma FireWorks(s: State, clock: int, now: int)
    requires Inv(s) && Due(s, now)
    ensures Sums.Sum(Work(Fire(s, clock), now)) < Sums.Sum(Work(s, now))
  {
    var k := First(s.timers);
    if s.timers[k].Once? {
      OnceWorks(s, k, now);
    } else {
      var id := s.timers[k].rep;
      assert OnBeat(id, s.reps[id]);
      RearmWorks(s, k, id, now);
      RefreshWorks(Rearm(s.(timers := s.timers - {k}), id), clock, now);
    }
  }

  /** Work is the old work, when `t` has every thunk of `s` with the same due count and one more that owes nothing. */
  lemma NothingAdded(s: State, t: State, key: TimerId, now: int)
    requires key !in s.timers && key.first > now && t.timers.Keys == s.timers.Keys + {key}
    requires forall o | o in s.timers :: Remaining(t, now, o) == Remaining(s, now, o)
    ensures Sums.Sum(Work(t, now)) == Sums.Sum(Work(s, now))
  {
    Sums.Split(Work(t, now), key);
    assert Work(t, now) - {key} == Work(s, now);
  }

  /** A timer armed strictly later than `now` owes nothing yet. */
  lemma RunAtWorks(s: State, milli: int, task: Task, interval: int, clock: int, now: int)
    requires Inv(s) && milli > now
    ensures Sums.Sum(Work(DoRunAt(s, milli, task, interval, clock).0, now)) == Sums.Sum(Work(s, now))
  {
    if !s.exited {
      var t := DoRunAt(s, milli, task, interval, clock).0;
      NothingAdded(s, t, TimerId(milli, s.seqNo + if interval != 0 then 2 else 1), now);
    }
  }

  lemma CancelWorks(s: State, id: TimerId, now: int)
    requires Linked(s) && Legal(s, Cancel(id))
    ensures Sums.Sum(Work(DoCancel(s, id).0, now)) <= Sums.Sum(Work(s, now))
  {
    var key := if id.first < 0 then s.reps[id].timerid else id;
    assert Work(DoCancel(s, id).0, now) == Work(s, now) - {key};
    if key in s.timers {
      Sums.Split(Work(s, now), key);
    } else {
      assert Work(s, now) - {key} == Work(s, now);
    }
  }

  lemma DoWorks(s: State, a: Action, now: int)
    requires Inv(s) && Later(a, now)
    ensures Sums.Sum(Work(Do(s, a), now)) <= Sums.Sum(Work(s, now))
  {
    if Legal(s, a) {
      match a {
        case RunAt(milli, task, interval, clock) => RunAtWorks(s, milli, task, interval, clock, now);
        case Cancel(id) => CancelWorks(s, id, now);
      }
    }
  }

  lemma {:induction false} DoAllWorks(s: State, actions: seq<Action>, now: int)
    requires Inv(s) && forall a | a in actions :: Later(a, now)
    ensures Sums.Sum(Work(DoAll(s, actions), now)) <= Sums.Sum(Work(s, now))
    decreases |actions|
  {
    if actions != [] {
      DoKeepsInv(s, actions[0]);
      DoWorks(s, actions[0], now);
      DoAllWorks(Do(s, actions[0]), actions[1..], now);
    }
  }

  /** One turn of the loop: the first thunk, and then whatever its callback does. */
  function Turn(s: State, reply: Reply): State
    requires s.timers != map[] && Inv(s)
  {
    DoAll(Fire(s, reply.clock), reply.actions)
  }

  lemma TurnProgress(s: State, now: int, reply: Reply)
    requires Inv(s) && Due(s, now) && forall a | a in reply.actions :: Later(a, now)
    ensures Inv(Turn(s, reply))
    ensures Sums.Sum(Work(Turn(s, reply), now)) < Sums.Sum(Work(s, now))
  {
    FireKeepsInv(s, reply.clock);
    FireWorks(s, reply.clock, now);
    DoAllKeepsInv(Fire(s, reply.clock), reply.actions);
    DoAllWorks(Fire(s, reply.clock), reply.actions, now);
  }

  /** The whole loop, with the callback of turn `k`, `k + 1`, ... behaving as `env` says, and the keys it fired. */
  ghost function Drain(s: State, now: int, env: Env, k: nat): (r: (State, seq<Fired>))
    requires Inv(s) && Quiet(env, now)
    ensures Inv(r.0)
    decreases Sums.Sum(Work(s, now))
  {
    if !Due(s, now) then
      (Refresh(s, env(k).clock), [])
    else
      TurnProgress(s, now, env(k));
      var (t, log) := Drain(Turn(s, env(k)), now, env, k + 1);
      (t, [FiresNow(s)] + log)
  }

  // ----- What one run of the due timers fires -----

  /** The fired keys of a run that starts with a due timer. */
  lemma DrainUnfolds(s: State, now: int, env: Env, k: nat, t: State, log: seq<Fired>)
    returns (u: State, rest: seq<Fired>)
    requires Inv(s) && Quiet(env, now) && Drain(s, now, env, k) == (t, log) && Due(s, now)
    ensures u == Turn(s, env(k)) && Inv(Fire(s, env(k).clock)) && Inv(u)
    ensures Sums.Sum(Work(u, now)) < Sums.Sum(Work(s, now))
    ensures Drain(u, now, env, k + 1) == (t, rest)
    ensures log == [FiresNow(s)] + rest
  {
    FireKeepsInv(s, env(k).clock);
    TurnProgress(s, now, env(k));
    u := Turn(s, env(k));
    rest := Drain(u, now, env, k + 1).1;
  }

  lemma DrainStops(s: State, now: int, env: Env, k: nat, t: State, log: seq<Fired>)
    requires Inv(s) && Quiet(env, now) && Drain(s, now, env, k) == (t, log) && !Due(s, now)
    ensures t == Refresh(s, env(k).clock) && log == [] && Inv(t)
  {
  }

  predicate AllAfter(s: State, last: TimerId) {
    forall k | k in s.timers :: Less(last, k)
  }

  lemma {:induction false} DoAllAfter(s: State, actions: seq<Action>, now: int, last: TimerId)
    requires AllAfter(s, last) && last.first <= now && forall a | a in actions :: Later(a, now)
    ensures AllAfter(DoAll(s, actions), last)
    decreases |actions|
  {
    if actions != [] {
      assert Later(actions[0], now);
      DoAllAfter(Do(s, actions[0]), actions[1..], now, last);
    }
  }

  lemma TurnAfter(s: State, now: int, reply: Reply)
    requires Inv(s) && Due(s, now) && forall a | a in reply.actions :: Later(a, now)
    ensures AllAfter(Turn(s, reply), First(s.timers))
  {
    var f := First(s.timers);
    if s.timers[f].Again? {
      assert OnBeat(s.timers[f].rep, s.reps[s.timers[f].rep]);
    }
    assert AllAfter(Fire(s, reply.clock), f);
    DoAllAfter(Fire(s, reply.clock), reply.actions, now, f);
  }

  /** Keys fire in strictly increasing order and none later than `now`. */
  lemma {:induction false} DrainOrder(s: State, now: int, env: Env, k: nat, last: TimerId, t: State, log: seq<Fired>)
    requires Inv(s) && Quiet(env, now) && Drain(s, now, env, k) == (t, log) && AllAfter(s, last)
    ensures forall i | 0 <= i < |log| :: Less(last, log[i].key) && log[i].key.first <= now
    ensures forall i, j | 0 <= i < j < |log| :: Less(log[i].key, log[j].key)
    decreases Sums.Sum(Work(s, now))
  {
    hide Inv, Drain;
    if Due(s, now) {
      var u, rest := DrainUnfolds(s, now, env, k, t, log);
      TurnAfter(s, now, env(k));
      DrainOrder(u, now, env, k + 1, First(s.timers), t, rest);
    } else {
      DrainStops(s, now, env, k, t, log);
    }
  }

  /** Nothing due is left behind, as long as the sequence counter is below the sentinel the loop compares with. */
  lemma {:induction false} DrainLeavesOnlyLater(s: State, now: int, env: Env, k: nat, t: State, log: seq<Fired>)
    requires Inv(s) && Quiet(env, now) && Drain(s, now, env, k) == (t, log) && t.seqNo < SEQ_LIMIT
    ensures forall key | key in t.timers :: key.first > now
    decreases Sums.Sum(Work(s, now))
  {
    hide Drain;
    if Due(s, now) {
      var u, rest := DrainUnfolds(s, now, env, k, t, log);
      DrainLeavesOnlyLater(u, now, env, k + 1, t, rest);
    } else {
      DrainStops(s, now, env, k, t, log);
      assert t.timers == s.timers;
    }
  }

  /** One run of a timer's task, and the instant it was due. */
  datatype Shot = Shot(at: int, task: Task)

  /** Whether a firing is one of the timer that the handle `id` stands for. */
  predicate Belongs(e: Fired, id: TimerId) {
    match e.thunk
    case Once(_) => e.key == id
    case Again(rep) => rep == id
  }

  /** The runs of one timer, in order. */
  function Shots(log: seq<Fired>, id: TimerId): seq<Shot> {
    if log == [] then []
    else (if Belongs(log[0], id) then [Shot(log[0].key.first, log[0].task)] else []) + Shots(log[1..], id)
  }

  /** The runs a repeating timer owes up to `now`: one at `at`, one an interval later, and so on. */
  function Schedule(at: int, interval: int, task: Task, now: int): seq<Shot>
    requires interval > 0
    decreases now - at
  {
    if at > now then [] else [Shot(at, task)] + Schedule(at + interval, interval, task, now)
  }

  /** The first instant of a repeating timer that is later than `now`. */
  function NextAt(at: int, interval: int, now: int): int
    requires interval > 0
    decreases now - at
  {
    if at > now then at else NextAt(at + interval, interval, now)
  }

  lemma {:induction false} ScheduleCounts(at: int, interval: int, task: Task, now: int)
    requires interval > 0
    ensures |Schedule(at, interval, task, now)| == Occurrences(at, interval, now)
    ensures NextAt(at, interval, now) > now && (at <= now ==> NextAt(at, interval, now) <= now + interval)
    decreases now - at
  {
    if at <= now {
      OccurrencesStep(at, interval, now);
      ScheduleCounts(at + interval, interval, task, now);
    }
  }

  /** What is owed later is what is owed now and what is owed from then on. */
  lemma {:induction false} ScheduleSplits(at: int, interval: int, task: Task, now: int, later: int)
    requires interval > 0 && now <= later
    ensures Schedule(at, interval, task, later)
         == Schedule(at, interval, task, now) + Schedule(NextAt(at, interval, now), interval, task, later)
    decreases now - at
  {
    var rest := Schedule(NextAt(at, interval, now), interval, task, later);
    if at > now {
      assert [] + rest == rest;
    } else {
      ScheduleSplits(at + interval, interval, task, now, later);
      assert [Shot(at, task)] + (Schedule(at + interval, interval, task, now) + rest)
          == [Shot(at, task)] + Schedule(at + interval, interval, task, now) + rest;
    }
  }

  lemma NoShots(id: TimerId)
    ensures Shots([], id) == []
  {
  }

  lemma ShotsUnfold(e: Fired, rest: seq<Fired>, id: TimerId)
    ensures Shots([e] + rest, id)
         == (if Belongs(e, id) then [Shot(e.key.first, e.task)] else []) + Shots(rest, id)
  {
    assert ([e] + rest)[1..] == rest;
  }

  ghost predicate NeverCancels(env: Env, id: TimerId) {
    forall k: nat :: Cancel(id) !in env(k).actions
  }

  lemma {:induction false} DoAllKeepsRep(s: State, actions: seq<Action>, id: TimerId)
    requires Inv(s) && id in s.reps && Cancel(id) !in actions
    ensures id in DoAll(s, actions).reps && DoAll(s, actions).reps[id] == s.reps[id]
    decreases |actions|
  {
    if actions != [] {
      assert actions[0] != Cancel(id);
      DoKeepsInv(s, actions[0]);
      DoAllKeepsRep(Do(s, actions[0]), actions[1..], id);
    }
  }

  lemma TurnMovesRep(s: State, reply: Reply, id: TimerId)
    requires Inv(s) && s.timers != map[] && id in s.reps && Cancel(id) !in reply.actions
    ensures id in Turn(s, reply).reps
    ensures var tr := s.reps[id]; var next := Turn(s, reply).reps[id];
      if s.timers[First(s.timers)] == Again(id) then
        First(s.timers).first == tr.at && next == tr.(at := tr.at + tr.interval, timerid := next.timerid)
      else
        next == tr
  {
    assert OnBeat(id, s.reps[id]);
    FireKeepsInv(s, reply.clock);
    DoAllKeepsRep(Fire(s, reply.clock), reply.actions, id);
  }

  /** An instant of a repeating timer is done with: the run it owes, and the next one. */
  lemma TurnShot(s: State, now: int, id: TimerId)
    requires Inv(s) && Due(s, now) && id in s.reps
    ensures
      var e, tr := FiresNow(s), s.reps[id];
      && (Belongs(e, id) <==> e.thunk == Again(id))
      && (Belongs(e, id) ==> e.key.first == tr.at <= now && e.task == tr.cb)
      && tr.interval > 0
  {
    RepIsKeyed(s, id);
    assert OnBeat(id, s.reps[id]);
  }

  /** What a repeating timer has become after all its instants up to `now`. */
  predicate Advanced(tr: Repeatable, next: Repeatable, now: int) {
    tr.interval > 0 && next == tr.(at := NextAt(tr.at, tr.interval, now), timerid := next.timerid)
  }

  lemma StaysAdvanced(tr: Repeatable, now: int)
    requires tr.interval > 0
    ensures tr.at > now ==> Advanced(tr, tr, now)
  {
  }

  /** The first firing in front of the others. */
  lemma NextShot(tr: Repeatable, mid: Repeatable, next: Repeatable, now: int, e: Fired, rest: seq<Fired>, id: TimerId)
    requires tr.interval > 0 && mid.interval == tr.interval
    requires
      if Belongs(e, id) then
        e.key.first == tr.at <= now && e.task == tr.cb && mid == tr.(at := tr.at + tr.interval, timerid := mid.timerid)
      else mid == tr
    requires Shots(rest, id) == Schedule(mid.at, mid.interval, mid.cb, now) && Advanced(mid, next, now)
    ensures Shots([e] + rest, id) == Schedule(tr.at, tr.interval, tr.cb, now) && Advanced(tr, next, now)
  {
    hide Belongs, Shots;
    ShotsUnfold(e, rest, id);
    assert [] + Shots(rest, id) == Shots(rest, id);
  }

  /**
   * The catch-up rule: a repeating timer that nothing cancels runs its task once for each of its instants up to `now`,
   * however late, and is left armed at the first instant after `now`.
   */
  lemma {:induction false} RepeatingFiresExactly(s: State, now: int, env: Env, k: nat, id: TimerId,
                                                 t: State, log: seq<Fired>)
    requires Inv(s) && Quiet(env, now) && NeverCancels(env, id) && id in s.reps
    requires Drain(s, now, env, k) == (t, log) && t.seqNo < SEQ_LIMIT
    ensures s.reps[id].interval > 0
    ensures Shots(log, id) == Schedule(s.reps[id].at, s.reps[id].interval, s.reps[id].cb, now)
    ensures id in t.reps && Advanced(s.reps[id], t.reps[id], now)
    decreases Sums.Sum(Work(s, now))
  {
    hide Inv, Drain, Turn, Belongs, FiresNow, Shots, Advanced;
    RepIsKeyed(s, id);
    if Due(s, now) {
      hide Schedule, Due;
      var u, rest := DrainUnfolds(s, now, env, k, t, log);
      TurnMovesRep(s, env(k), id);
      TurnShot(s, now, id);
      FiresFirst(s);
      RepeatingFiresExactly(u, now, env, k + 1, id, t, rest);
      NextShot(s.reps[id], u.reps[id], t.reps[id], now, FiresNow(s), rest, id);
    } else {
      StaysAdvanced(s.reps[id], now);
      DrainLeavesOnlyLater(s, now, env, k, t, log);
      DrainStops(s, now, env, k, t, log);
      NoShots(id);
    }
  }

  lemma FiresFirst(s: State)
    requires Inv(s) && s.timers != map[]
    ensures var e := FiresNow(s); e.key == First(s.timers) && e.thunk == s.timers[First(s.timers)]
    ensures s.timers[First(s.timers)].Once? ==> FiresNow(s).task == s.timers[First(s.timers)].task
  {
  }

  lemma RepIsKeyed(s: State, id: TimerId)
    requires Inv(s) && id in s.reps
    ensures s.reps[id].interval > 0 && s.reps[id].timerid in s.timers && s.reps[id].timerid.first == s.reps[id].at
    ensures id.first < 0
  {
    assert OnBeat(id, s.reps[id]);
  }

  lemma {:induction false} DoAllKeepsOnce(s: State, actions: seq<Action>, key: TimerId)
    requires Inv(s) && key in s.timers && s.timers[key].Once? && Cancel(key) !in actions
    ensures key in DoAll(s, actions).timers && DoAll(s, actions).timers[key] == s.timers[key]
    decreases |actions|
  {
    if actions != [] {
      assert actions[0] != Cancel(key);
      DoKeepsInv(s, actions[0]);
      DoAllKeepsOnce(Do(s, actions[0]), actions[1..], key);
    }
  }

  lemma TurnKeepsOnce(s: State, reply: Reply, key: TimerId)
    requires Inv(s) && s.timers != map[] && First(s.timers) != key && Cancel(key) !in reply.actions
    requires key in s.timers && s.timers[key].Once?
    ensures key in Turn(s, reply).timers && Turn(s, reply).timers[key] == s.timers[key]
  {
    FireKeepsInv(s, reply.clock);
    DoAllKeepsOnce(Fire(s, reply.clock), reply.actions, key);
  }

  // ----- Nothing runs for a handle that is gone -----

  /** A handle that was given out and stands for nothing any more. */
  predicate Gone(s: State, id: TimerId) {
    id.second <= s.seqNo && id !in s.timers && id !in s.reps
  }

  lemma {:induction false} DoAllKeepsGone(s: State, actions: seq<Action>, id: TimerId)
    requires Gone(s, id)
    ensures Gone(DoAll(s, actions), id)
    decreases |actions|
  {
    hide Nearest;
    if actions != [] { DoAllKeepsGone(Do(s, actions[0]), actions[1..], id); }
  }

  lemma TurnKeepsGone(s: State, reply: Reply, id: TimerId)
    requires Inv(s) && s.timers != map[] && Gone(s, id)
    ensures Gone(Turn(s, reply), id) && !Belongs(FiresNow(s), id)
  {
    hide Nearest;
    FireKeepsInv(s, reply.clock);
    DoAllKeepsGone(Fire(s, reply.clock), reply.actions, id);
  }

  lemma {:induction false} GoneNeverFires(s: State, now: int, env: Env, k: nat, id: TimerId, t: State, log: seq<Fired>)
    requires Inv(s) && Quiet(env, now) && Gone(s, id) && Drain(s, now, env, k) == (t, log)
    ensures Gone(t, id) && Shots(log, id) == []
    decreases Sums.Sum(Work(s, now))
  {
    hide Inv, Drain, Turn, Belongs, FiresNow, Nearest, Gone;
    if Due(s, now) {
      var u, rest := DrainUnfolds(s, now, env, k, t, log);
      TurnKeepsGone(s, env(k), id);
      GoneNeverFires(u, now, env, k + 1, id, t, rest);
      ShotsUnfold(FiresNow(s), rest, id);
    } else {
      DrainStops(s, now, env, k, t, log);
      RefreshKeepsGone(s, env(k).clock, id);
    }
  }

  lemma RefreshKeepsGone(s: State, clock: int, id: TimerId)
    requires Gone(s, id)
    ensures Gone(Refresh(s, clock), id)
  {
  }

  /** A one-shot timer that nothing cancels runs its task exactly once if due, and otherwise stays as it is. */
  lemma {:induction false} OneShotFiresExactly(s: State, now: int, env: Env, k: nat, key: TimerId,
                                               t: State, log: seq<Fired>)
    requires Inv(s) && Quiet(env, now) && NeverCancels(env, key) && key in s.timers && s.timers[key].Once?
    requires Drain(s, now, env, k) == (t, log) && t.seqNo < SEQ_LIMIT
    ensures Shots(log, key) == if key.first <= now then [Shot(key.first, s.timers[key].task)] else []
    ensures key.first <= now ==> Gone(t, key)
    ensures key.first > now ==> key in t.timers && t.timers[key] == s.timers[key]
    decreases Sums.Sum(Work(s, now))
  {
    hide Inv, Drain, Turn, FiresNow, Gone;
    if Due(s, now) {
      var u, rest := DrainUnfolds(s, now, env, k, t, log);
      FiresFirst(s);
      ShotsUnfold(FiresNow(s), rest, key);
      assert [] + Shots(rest, key) == Shots(rest, key);
      if First(s.timers) == key {
        TurnDropsOnce(s, env(k), key);
        GoneNeverFires(u, now, env, k + 1, key, t, rest);
      } else {
        NotARep(s, key);
        TurnKeepsOnce(s, env(k), key);
        OneShotFiresExactly(u, now, env, k + 1, key, t, rest);
      }
    } else {
      DrainLeavesOnlyLater(s, now, env, k, t, log);
      DrainStops(s, now, env, k, t, log);
    }
  }

  /** The handles of the two kinds of timer differ in sign. */
  lemma NotARep(s: State, key: TimerId)
    requires Inv(s) && key in s.timers
    ensures key !in s.reps && key.second <= s.seqNo
    ensures forall k | k in s.timers && s.timers[k].Again? :: s.timers[k].rep != key
  {
    assert forall id | id in s.reps :: OnBeat(id, s.reps[id]) && id.first < 0;
  }

  lemma TurnDropsOnce(s: State, reply: Reply, key: TimerId)
    requires Inv(s) && key in s.timers && s.timers[key].Once? && First(s.timers) == key
    ensures Gone(Turn(s, reply), key)
  {
    hide Nearest;
    NotARep(s, key);
    FireKeepsInv(s, reply.clock);
    DoAllKeepsGone(Fire(s, reply.clock), reply.actions, key);
  }

  // ----- Only timers that were there at the start fire -----

  /** Whether the thunk under `key` was already scheduled in `s0`. */
  predicate Known(s0: State, key: TimerId, thunk: Thunk) {
    match thunk
    case Once(_) => key in s0.timers && s0.timers[key] == thunk
    case Again(id) => id in s0.reps
  }

  predicate DueKnown(s0: State, s: State, now: int) {
    forall k | k in s.timers && k.first <= now :: Known(s0, k, s.timers[k])
  }

  lemma {:induction false} DoAllDueKnown(s0: State, s: State, actions: seq<Action>, now: int)
    requires DueKnown(s0, s, now) && forall a | a in actions :: Later(a, now)
    ensures DueKnown(s0, DoAll(s, actions), now)
    decreases |actions|
  {
    if actions != [] {
      assert Later(actions[0], now);
      DoAllDueKnown(s0, Do(s, actions[0]), actions[1..], now);
    }
  }

  lemma TurnDueKnown(s0: State, s: State, reply: Reply, now: int)
    requires Inv(s) && Due(s, now) && DueKnown(s0, s, now) && forall a | a in reply.actions :: Later(a, now)
    ensures DueKnown(s0, Turn(s, reply), now)
  {
    assert DueKnown(s0, Fire(s, reply.clock), now);
    DoAllDueKnown(s0, Fire(s, reply.clock), reply.actions, now);
  }

  /** A run fires nothing but one-shots and repeating entries of the state it started from. */
  lemma {:induction false} DrainFiresOnlyKnown(s0: State, s: State, now: int, env: Env, k: nat,
                                               t: State, log: seq<Fired>)
    requires Inv(s) && Quiet(env, now) && Drain(s, now, env, k) == (t, log) && DueKnown(s0, s, now)
    ensures forall e | e in log :: Known(s0, e.key, e.thunk)
    decreases Sums.Sum(Work(s, now))
  {
    hide Inv, Drain;
    if Due(s, now) {
      var u, rest := DrainUnfolds(s, now, env, k, t, log);
      TurnDueKnown(s0, s, env(k), now);
      DrainFiresOnlyKnown(s0, u, now, env, k + 1, t, rest);
    } else {
      DrainStops(s, now, env, k, t, log);
    }
  }

  lemma {:induction false} DrainKeepsUnshared(s: State, now: int, env: Env, k: nat, t: State, log: seq<Fired>)
    requires Inv(s) && Quiet(env, now) && Drain(s, now, env, k) == (t, log) && Unshared(Names(s))
    ensures Unshared(Names(t))
    decreases Sums.Sum(Work(s, now))
  {
    hide Inv, Drain;
    if Due(s, now) {
      var u, rest := DrainUnfolds(s, now, env, k, t, log);
      FireKeepsUnshared(s, env(k).clock);
      DoAllKeepsUnshared(Fire(s, env(k).clock), env(k).actions);
      DrainKeepsUnshared(u, now, env, k + 1, t, rest);
    } else {
      DrainStops(s, now, env, k, t, log);
      assert Names(t) == Names(s);
    }
  }
}
