/** What runAt and cancel promise, over whole runs: which tasks run, for which instants, and how often. */
module TimerRuns {
  import opened Timers
  import opened TimerDrain
  import opened TimerSleep

  // ----- Whole runs with everything they fire -----

  ghost function StepLog(s: State, op: Op): seq<Fired>
    requires Inv(s) && Allowed(op)
  {
    if op.Timeouts? then Drain(s, op.now, op.env, 0).1 else []
  }

  ghost function Log(s: State, ops: seq<Op>): seq<Fired>
    requires Inv(s) && forall op | op in ops :: Allowed(op)
    decreases |ops|
  {
    if ops == [] then [] else StepLog(s, ops[0]) + Log(Step(s, ops[0]), ops[1..])
  }

  /** The latest instant for which timeouts have been handled. */
  ghost function Latest(ops: seq<Op>, low: int): int
    decreases |ops|
  {
    if ops == [] then low else Latest(ops[1..], After(ops[0], low))
  }

  ghost function After(op: Op, low: int): int { if op.Timeouts? then Max(op.now, low) else low }

  /** Nobody cancels the handle, neither from outside nor in a callback. */
  ghost predicate Spares(op: Op, id: TimerId) {
    match op
    case Call(a) => a != Cancel(id)
    case Timeouts(_, env) => NeverCancels(env, id)
    case Exit => true
  }

  lemma {:induction false} ShotsConcat(a: seq<Fired>, b: seq<Fired>, id: TimerId)
    ensures Shots(a + b, id) == Shots(a, id) + Shots(b, id)
    decreases |a|
  {
    hide Belongs;
    if a == [] {
      assert a + b == b;
    } else {
      var first := if Belongs(a[0], id) then [Shot(a[0].key.first, a[0].task)] else [];
      assert (a + b)[0] == a[0] && (a + b)[1..] == a[1..] + b;
      ShotsConcat(a[1..], b, id);
      assert first + Shots(a[1..], id) + Shots(b, id) == first + (Shots(a[1..], id) + Shots(b, id));
    }
  }

  lemma {:induction false} DoAllCountsUp(s: State, actions: seq<Action>)
    ensures DoAll(s, actions).seqNo >= s.seqNo && DoAll(s, actions).exited == s.exited
    decreases |actions|
  {
    if actions != [] { DoAllCountsUp(Do(s, actions[0]), actions[1..]); }
  }

  lemma {:induction false} DrainCountsUp(s: State, now: int, env: Env, k: nat)
    requires Inv(s) && Quiet(env, now)
    ensures Drain(s, now, env, k).0.seqNo >= s.seqNo && Drain(s, now, env, k).0.exited == s.exited
    decreases Sums.Sum(Work(s, now))
  {
    hide Inv, Drain;
    var (t, log) := Drain(s, now, env, k);
    if Due(s, now) {
      var u, rest := DrainUnfolds(s, now, env, k, t, log);
      DoAllCountsUp(Fire(s, env(k).clock), env(k).actions);
      DrainCountsUp(u, now, env, k + 1);
    } else {
      DrainStops(s, now, env, k, t, log);
    }
  }

  lemma {:induction false} RunCountsUp(s: State, ops: seq<Op>)
    requires Inv(s) && forall op | op in ops :: Allowed(op)
    ensures Run(s, ops).seqNo >= s.seqNo
    decreases |ops|
  {
    if ops != [] {
      assert Allowed(ops[0]);
      if ops[0].Timeouts? { DrainCountsUp(s, ops[0].now, ops[0].env, 0); }
      RunCountsUp(Step(s, ops[0]), ops[1..]);
    }
  }

  // ----- runAt -----

  /** The runs that runAt promises up to `now`. */
  function Promised(milli: int, task: Task, interval: int, now: int): seq<Shot>
    requires interval >= 0
  {
    if interval > 0 then Schedule(milli, interval, task, now)
    else if milli <= now then [Shot(milli, task)] else []
  }

  /** The timer as runAt has made it, with every run up to `low` done. */
  predicate Armed(s: State, id: TimerId, milli: int, task: Task, interval: int, low: int) {
    if interval > 0 then
      id in s.reps && s.reps[id].interval == interval && s.reps[id].cb == task
        && s.reps[id].at == NextAt(milli, interval, low)
    else
      interval == 0 && id.first == milli
        && if milli <= low then Gone(s, id) else id in s.timers && s.timers[id] == Once(task)
  }

  lemma RunAtArms(s: State, milli: int, task: Task, interval: int, clock: int)
    requires Inv(s) && !s.exited && Legal(s, RunAt(milli, task, interval, clock))
    ensures
      var (t, id) := DoRunAt(s, milli, task, interval, clock);
      Armed(t, id, milli, task, interval, milli - 1)
  {
    hide Nearest;
  }

  lemma {:induction false} NextAtTwice(at: int, interval: int, low: int, now: int)
    requires interval > 0 && low <= now
    ensures NextAt(NextAt(at, interval, low), interval, now) == NextAt(at, interval, now)
    decreases low - at
  {
    if at <= low { NextAtTwice(at + interval, interval, low, now); }
  }

  lemma CallKeepsArmed(s: State, a: Action, id: TimerId, milli: int, task: Task, interval: int, low: int)
    requires Inv(s) && a != Cancel(id) && Armed(s, id, milli, task, interval, low)
    ensures Armed(Do(s, a), id, milli, task, interval, low)
  {
    hide Nearest, NextAt;
    DoKeepsInv(s, a);
    DoAllKeepsOne(s, a, id);
  }

  /** One call as a list of calls. */
  lemma DoAllKeepsOne(s: State, a: Action, id: TimerId)
    requires Inv(s) && a != Cancel(id)
    ensures id in s.reps ==> id in Do(s, a).reps && Do(s, a).reps[id] == s.reps[id]
    ensures id in s.timers && s.timers[id].Once? ==> id in Do(s, a).timers && Do(s, a).timers[id] == s.timers[id]
    ensures Gone(s, id) ==> Gone(Do(s, a), id)
  {
    assert DoAll(s, [a]) == Do(s, a) by { assert [a][1..] == []; assert DoAll(Do(s, a), []) == Do(s, a); }
    if id in s.reps { DoAllKeepsRep(s, [a], id); }
    if id in s.timers && s.timers[id].Once? { DoAllKeepsOnce(s, [a], id); }
    if Gone(s, id) { DoAllKeepsGone(s, [a], id); }
    hide Do, DoAll, Inv;
  }

  lemma TimeoutsKeepArmed(s: State, now: int, env: Env, id: TimerId, milli: int, task: Task, interval: int, low: int)
    requires Inv(s) && Quiet(env, now) && NeverCancels(env, id) && Armed(s, id, milli, task, interval, low)
    requires Drain(s, now, env, 0).0.seqNo < SEQ_LIMIT && low >= milli - 1
    ensures
      var (t, log) := Drain(s, now, env, 0);
      && Armed(t, id, milli, task, interval, Max(now, low))
      && Promised(milli, task, interval, Max(now, low)) == Promised(milli, task, interval, low) + Shots(log, id)
  {
    hide Inv, Drain, Shots, Gone;
    var (t, log) := Drain(s, now, env, 0);
    if interval > 0 {
      RepeatingFiresExactly(s, now, env, 0, id, t, log);
      ScheduleCounts(milli, interval, task, low);
      if now <= low {
        assert Schedule(s.reps[id].at, interval, task, now) == [];
      } else {
        ScheduleSplits(milli, interval, task, low, now);
        NextAtTwice(milli, interval, low, now);
      }
    } else if milli <= low {
      GoneNeverFires(s, now, env, 0, id, t, log);
    } else {
      OneShotFiresExactly(s, now, env, 0, id, t, log);
    }
  }

  lemma {:induction false} ArmedKeepsItsSchedule(s: State, ops: seq<Op>, id: TimerId, milli: int, task: Task,
                                                 interval: int, low: int)
    requires Inv(s) && (forall op | op in ops :: Allowed(op) && Spares(op, id)) && Run(s, ops).seqNo < SEQ_LIMIT
    requires interval >= 0 && Armed(s, id, milli, task, interval, low) && low >= milli - 1
    ensures Armed(Run(s, ops), id, milli, task, interval, Latest(ops, low))
    ensures Promised(milli, task, interval, Latest(ops, low))
         == Promised(milli, task, interval, low) + Shots(Log(s, ops), id)
    decreases |ops|
  {
    hide Inv, Drain, Shots, Armed, Promised;
    if ops == [] {
      NoShots(id);
    } else {
      var op, t := ops[0], Step(s, ops[0]);
      assert Allowed(op) && Spares(op, id);
      RunCountsUp(t, ops[1..]);
      match op {
        case Call(a) => CallKeepsArmed(s, a, id, milli, task, interval, low);
        case Timeouts(now, env) => TimeoutsKeepArmed(s, now, env, id, milli, task, interval, low);
        case Exit => ExitKeepsArmed(s, id, milli, task, interval, low);
      }
      NoShots(id);
      var mid := After(op, low);
      var done := Promised(milli, task, interval, low);
      ArmedKeepsItsSchedule(t, ops[1..], id, milli, task, interval, mid);
      ShotsConcat(StepLog(s, op), Log(t, ops[1..]), id);
      assert done + Shots(StepLog(s, op), id) + Shots(Log(t, ops[1..]), id) == done + Shots(Log(s, ops), id);
    }
  }

  lemma ExitKeepsArmed(s: State, id: TimerId, milli: int, task: Task, interval: int, low: int)
    requires Armed(s, id, milli, task, interval, low)
    ensures Armed(s.(exited := true), id, milli, task, interval, low)
  {
  }

  /**
   * What runAt promises, in every run that does not cancel its handle: a one-shot's task runs exactly once if its time
   * is not later than the last instant for which timeouts were handled, and not before; a repeating timer's task runs
   * once for the time asked for and once for each whole number of intervals after it up to that instant.
   */
  lemma RunAtKeepsItsSchedule(s: State, milli: int, task: Task, interval: int, clock: int, ops: seq<Op>)
    requires Inv(s) && !s.exited && Legal(s, RunAt(milli, task, interval, clock))
    requires
      var (t, id) := DoRunAt(s, milli, task, interval, clock);
      && Inv(t) && (forall op | op in ops :: Allowed(op) && Spares(op, id)) && Run(t, ops).seqNo < SEQ_LIMIT
    ensures
      var (t, id) := DoRunAt(s, milli, task, interval, clock);
      var now := Latest(ops, milli - 1);
      Shots(Log(t, ops), id) ==
        if interval > 0 then Schedule(milli, interval, task, now)
        else if milli <= now then [Shot(milli, task)] else []
  {
    var (t, id) := DoRunAt(s, milli, task, interval, clock);
    RunAtArms(s, milli, task, interval, clock);
    ArmedKeepsItsSchedule(t, ops, id, milli, task, interval, milli - 1);
    assert Promised(milli, task, interval, milli - 1) == [];
    hide Shots, Log, Run, Inv, DoRunAt;
    assert [] + Shots(Log(t, ops), id) == Shots(Log(t, ops), id);
  }

  // ----- cancel -----

  /** The handle stands for a live timer. */
  predicate Alive(s: State, id: TimerId) { id in s.reps || (id in s.timers && s.timers[id].Once?) }

  lemma CancelledIsGone(s: State, id: TimerId)
    requires Inv(s) && Alive(s, id)
    ensures Legal(s, Cancel(id)) && DoCancel(s, id).1 && Gone(DoCancel(s, id).0, id)
  {
    if id in s.reps { RepIsKeyed(s, id); } else { NotARep(s, id); }
  }

  lemma {:induction false} RunKeepsGone(s: State, ops: seq<Op>, id: TimerId)
    requires Inv(s) && Gone(s, id) && forall op | op in ops :: Allowed(op)
    ensures Gone(Run(s, ops), id) && Shots(Log(s, ops), id) == []
    decreases |ops|
  {
    hide Inv, Drain, Shots;
    NoShots(id);
    if ops != [] {
      var op, t := ops[0], Step(s, ops[0]);
      assert Allowed(op);
      match op {
        case Call(a) => DoKeepsGone(s, a, id);
        case Timeouts(now, env) => GoneNeverFires(s, now, env, 0, id, t, StepLog(s, op));
        case Exit =>
      }
      RunKeepsGone(t, ops[1..], id);
      ShotsConcat(StepLog(s, op), Log(t, ops[1..]), id);
    }
  }

  lemma DoKeepsGone(s: State, a: Action, id: TimerId)
    requires Gone(s, id)
    ensures Gone(Do(s, a), id)
  {
    hide Nearest;
  }

  /**
   * What cancel promises for a handle that runAt has given out and nobody has cancelled: it reports success exactly
   * while the timer has a run to come, which a repeating one always has; a second cancel of a one-shot fails; and
   * however the run goes on, the task never runs again.
   */
  lemma CancelStopsExactly(s: State, milli: int, task: Task, interval: int, clock: int, ops: seq<Op>, later: seq<Op>)
    requires Inv(s) && !s.exited && Legal(s, RunAt(milli, task, interval, clock))
    requires
      var (t, id) := DoRunAt(s, milli, task, interval, clock);
      && Inv(t) && (forall op | op in ops :: Allowed(op) && Spares(op, id)) && Run(t, ops).seqNo < SEQ_LIMIT
    requires forall op | op in later :: Allowed(op)
    ensures
      var (t, id) := DoRunAt(s, milli, task, interval, clock);
      var u := Run(t, ops);
      && Legal(u, Cancel(id))
      && var (v, found) := DoCancel(u, id);
         && (found <==> interval > 0 || milli > Latest(ops, milli - 1))
         && (interval == 0 ==> Legal(v, Cancel(id)) && !DoCancel(v, id).1)
         && Inv(v) && Shots(Log(v, later), id) == []
  {
    hide Inv, Log, Shots, Nearest;
    var (t, id) := DoRunAt(s, milli, task, interval, clock);
    RunAtArms(s, milli, task, interval, clock);
    ArmedKeepsItsSchedule(t, ops, id, milli, task, interval, milli - 1);
    var u := Run(t, ops);
    if Alive(u, id) { CancelledIsGone(u, id); }
    var v := DoCancel(u, id).0;
    CancelKeepsInv(u, id);
    RunKeepsGone(v, later, id);
  }

  // ----- After exit -----

  /** Every timer of `s` was already there in `s0`. */
  predicate NothingNew(s0: State, s: State) {
    s.exited && forall k | k in s.timers :: Known(s0, k, s.timers[k])
  }

  lemma {:induction false} DoAllAddsNothing(s0: State, s: State, actions: seq<Action>)
    requires NothingNew(s0, s)
    ensures NothingNew(s0, DoAll(s, actions))
    decreases |actions|
  {
    if actions != [] { DoAllAddsNothing(s0, Do(s, actions[0]), actions[1..]); }
  }

  lemma {:induction false} DrainAddsNothing(s0: State, s: State, now: int, env: Env, k: nat, t: State, log: seq<Fired>)
    requires Inv(s) && Quiet(env, now) && Drain(s, now, env, k) == (t, log) && NothingNew(s0, s)
    ensures NothingNew(s0, t) && forall e | e in log :: Known(s0, e.key, e.thunk)
    decreases Sums.Sum(Work(s, now))
  {
    hide Inv, Drain, Nearest, FiresNow;
    if Due(s, now) {
      var u, rest := DrainUnfolds(s, now, env, k, t, log);
      FiresFirst(s);
      assert NothingNew(s0, Fire(s, env(k).clock));
      DoAllAddsNothing(s0, Fire(s, env(k).clock), env(k).actions);
      DrainAddsNothing(s0, u, now, env, k + 1, t, rest);
    } else {
      DrainStops(s, now, env, k, t, log);
    }
  }

  lemma {:induction false} RunAddsNothing(s0: State, s: State, ops: seq<Op>)
    requires Inv(s) && NothingNew(s0, s) && forall op | op in ops :: Allowed(op)
    ensures forall e | e in Log(s, ops) :: Known(s0, e.key, e.thunk)
    decreases |ops|
  {
    hide Inv, Drain, Known;
    if ops != [] {
      var op := ops[0];
      assert Allowed(op);
      match op {
        case Call(a) =>
          assert DoAll(s, [a]) == Do(s, a) by { assert [a][1..] == []; assert DoAll(Do(s, a), []) == Do(s, a); }
          DoAllAddsNothing(s0, s, [a]);
        case Timeouts(now, env) => DrainAddsNothing(s0, s, now, env, 0, Step(s, op), StepLog(s, op));
        case Exit =>
      }
      RunAddsNothing(s0, Step(s, op), ops[1..]);
    }
  }

  /** After exit only timers that were there run, whoever calls runAt, and the handle it gives stands for nothing. */
  lemma ExitStopsScheduling(s: State, ops: seq<Op>, milli: int, task: Task, interval: int, clock: int)
    requires Inv(s) && s.exited && forall op | op in ops :: Allowed(op)
    ensures forall e | e in Log(s, ops) :: Known(s, e.key, e.thunk)
    ensures
      var (t, id) := DoRunAt(s, milli, task, interval, clock);
      t == s && Legal(s, Cancel(id)) && DoCancel(s, id) == (s, false)
  {
    RunAddsNothing(s, s, ops);
    hide Log, Known;
    assert NO_ID !in s.timers;
    assert s.timers - {NO_ID} == s.timers;
  }

  // ----- What callbacks do takes effect -----

  /** A live or a gone handle, and nothing else. */
  predicate GivenOut(s: State, id: TimerId) { Alive(s, id) || Gone(s, id) }

  lemma {:induction false} DoAllCancels(s: State, actions: seq<Action>, id: TimerId)
    requires Inv(s) && GivenOut(s, id)
    ensures GivenOut(DoAll(s, actions), id) && (Cancel(id) in actions ==> Gone(DoAll(s, actions), id))
    decreases |actions|
  {
    hide Inv, Gone, Alive, Do;
    if actions != [] {
      var t := Do(s, actions[0]);
      DoKeepsInv(s, actions[0]);
      CallOnGivenOut(s, actions[0], id);
      if Gone(t, id) {
        DoAllKeepsGone(t, actions[1..], id);
      } else {
        DoAllCancels(t, actions[1..], id);
      }
    }
  }

  lemma CallOnGivenOut(s: State, a: Action, id: TimerId)
    requires Inv(s) && GivenOut(s, id)
    ensures GivenOut(Do(s, a), id) && (a == Cancel(id) ==> Gone(Do(s, a), id))
  {
    if a == Cancel(id) {
      if Alive(s, id) { CancelledIsGone(s, id); } else { DoKeepsGone(s, a, id); }
    } else {
      DoAllKeepsOne(s, a, id);
    }
    hide Do, Gone;
  }

  lemma TurnOnGivenOut(s: State, reply: Reply, id: TimerId)
    requires Inv(s) && s.timers != map[] && GivenOut(s, id)
    ensures GivenOut(Turn(s, reply), id) && (Cancel(id) in reply.actions ==> Gone(Turn(s, reply), id))
  {
    hide Nearest;
    FireKeepsInv(s, reply.clock);
    if id in s.timers { NotARep(s, id); }
    assert GivenOut(Fire(s, reply.clock), id);
    DoAllCancels(Fire(s, reply.clock), reply.actions, id);
  }

  /**
   * A cancel in the j-th callback of a run of timeouts takes effect at once, also on the callback's own timer: the
   * timer does not run again, in this run or later.
   */
  lemma {:induction false} CallbackCancels(s: State, now: int, env: Env, k: nat, id: TimerId, t: State,
                                           log: seq<Fired>, j: nat)
    requires Inv(s) && Quiet(env, now) && GivenOut(s, id) && Drain(s, now, env, k) == (t, log)
    requires j < |log| && Cancel(id) in env(k + j).actions
    ensures Gone(t, id) && Shots(log[j + 1..], id) == []
    decreases Sums.Sum(Work(s, now))
  {
    hide Inv, Drain, Turn, GivenOut, Gone, Shots;
    if Due(s, now) {
      var u, rest := DrainUnfolds(s, now, env, k, t, log);
      TurnOnGivenOut(s, env(k), id);
      if j == 0 {
        GoneNeverFires(u, now, env, k + 1, id, t, rest);
        assert log[1..] == rest;
      } else {
        CallbackCancels(u, now, env, k + 1, id, t, rest, j - 1);
        assert log[j + 1..] == rest[j..];
      }
    } else {
      DrainStops(s, now, env, k, t, log);
    }
  }

  /** A timer later than `now` with a number above `limit`, as this call of runAt makes it. */
  predicate Scheduled(s: State, a: Action, limit: nat, key: TimerId)
    requires a.RunAt?
  {
    && key in s.timers && key.second > limit && key.first == a.milli
    && match s.timers[key]
       case Once(task) => a.interval == 0 && task == a.task
       case Again(id) =>
         id in s.reps && s.reps[id] == Repeatable(a.milli, a.interval, key, a.task) && a.interval != 0
  }

  predicate OnlySchedules(actions: seq<Action>) { forall a | a in actions :: a.RunAt? }

  lemma {:induction false} DoAllSchedules(s: State, actions: seq<Action>, a: Action, limit: nat) returns (key: TimerId)
    requires Inv(s) && !s.exited && limit <= s.seqNo && OnlySchedules(actions)
    requires a in actions && a.RunAt? && Legal(s, a)
    ensures Scheduled(DoAll(s, actions), a, limit, key)
    decreases |actions|
  {
    hide Nearest;
    var t := Do(s, actions[0]);
    DoKeepsInv(s, actions[0]);
    if a == actions[0] {
      key := TimerId(a.milli, s.seqNo + if a.interval == 0 then 1 else 2);
      assert Scheduled(t, a, limit, key);
      DoAllKeepsScheduled(t, actions[1..], a, limit, key);
    } else {
      key := DoAllSchedules(t, actions[1..], a, limit);
    }
  }

  lemma {:induction false} DoAllKeepsScheduled(s: State, actions: seq<Action>, a: Action, limit: nat, key: TimerId)
    requires Inv(s) && OnlySchedules(actions) && a.RunAt? && Scheduled(s, a, limit, key)
    ensures Scheduled(DoAll(s, actions), a, limit, key)
    decreases |actions|
  {
    hide Nearest;
    if actions != [] {
      assert actions[0].RunAt?;
      DoKeepsInv(s, actions[0]);
      DoAllKeepsScheduled(Do(s, actions[0]), actions[1..], a, limit, key);
    }
  }

  lemma TurnKeepsScheduled(s: State, now: int, reply: Reply, a: Action, limit: nat, key: TimerId)
    requires Inv(s) && Due(s, now) && OnlySchedules(reply.actions) && a.RunAt? && a.milli > now
    requires Scheduled(s, a, limit, key)
    ensures Scheduled(Turn(s, reply), a, limit, key)
  {
    hide Nearest;
    FireKeepsInv(s, reply.clock);
    assert Scheduled(Fire(s, reply.clock), a, limit, key);
    DoAllKeepsScheduled(Fire(s, reply.clock), reply.actions, a, limit, key);
  }

  lemma {:induction false} DrainKeepsScheduled(s: State, now: int, env: Env, k: nat, t: State, log: seq<Fired>,
                                               a: Action, limit: nat, key: TimerId)
    requires Inv(s) && Quiet(env, now) && Drain(s, now, env, k) == (t, log)
    requires (forall i: nat :: OnlySchedules(env(i).actions)) && a.RunAt? && a.milli > now
    requires Scheduled(s, a, limit, key)
    ensures Scheduled(t, a, limit, key)
    decreases Sums.Sum(Work(s, now))
  {
    hide Inv, Drain, Turn, OnlySchedules;
    if Due(s, now) {
      var u, rest := DrainUnfolds(s, now, env, k, t, log);
      TurnKeepsScheduled(s, now, env(k), a, limit, key);
      DrainKeepsScheduled(u, now, env, k + 1, t, rest, a, limit, key);
    } else {
      DrainStops(s, now, env, k, t, log);
    }
  }

  /**
   * A runAt in the j-th callback of a run of timeouts takes effect too: at the end the timer is there, with its task,
   * its time and its interval, if no callback cancels anything.
   */
  lemma {:induction false} CallbackSchedules(s: State, now: int, env: Env, k: nat, t: State, log: seq<Fired>,
                                             j: nat, a: Action) returns (key: TimerId)
    requires Inv(s) && !s.exited && Quiet(env, now) && Drain(s, now, env, k) == (t, log)
    requires j < |log| && a in env(k + j).actions && Legal(s, a)
    requires forall i: nat :: OnlySchedules(env(i).actions)
    ensures a.RunAt? && Scheduled(t, a, s.seqNo, key)
    decreases Sums.Sum(Work(s, now))
  {
    hide Inv, Drain, Turn;
    assert OnlySchedules(env(k + j).actions) && a.RunAt? && Later(a, now);
    if Due(s, now) {
      var u, rest := DrainUnfolds(s, now, env, k, t, log);
      if j == 0 {
        key := TurnSchedules(s, env(k), a);
        DrainKeepsScheduled(u, now, env, k + 1, t, rest, a, s.seqNo, key);
      } else {
        TurnCountsUp(s, env(k));
        key := CallbackSchedules(u, now, env, k + 1, t, rest, j - 1, a);
      }
    } else {
      DrainStops(s, now, env, k, t, log);
    }
  }

  lemma TurnCountsUp(s: State, reply: Reply)
    requires Inv(s) && s.timers != map[]
    ensures Turn(s, reply).seqNo >= s.seqNo && Turn(s, reply).exited == s.exited
  {
    hide Nearest;
    DoAllCountsUp(Fire(s, reply.clock), reply.actions);
  }

  lemma TurnSchedules(s: State, reply: Reply, a: Action) returns (key: TimerId)
    requires Inv(s) && s.timers != map[] && !s.exited && OnlySchedules(reply.actions)
    requires a in reply.actions && a.RunAt? && Legal(s, a)
    ensures Scheduled(Turn(s, reply), a, s.seqNo, key)
  {
    hide Nearest;
    FireKeepsInv(s, reply.clock);
    key := DoAllSchedules(Fire(s, reply.clock), reply.actions, a, s.seqNo);
  }
}
