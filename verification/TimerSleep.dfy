/** How long the event loop may sleep, over whole runs. */
module TimerSleep {
  import opened Timers
  import opened TimerDrain

  // ----- How long the loop may sleep -----

  function Max(a: int, b: int): int { if a > b then a else b }

  /** The wait computed last is no longer than the time that was left to the earliest timer of today. */
  predicate WakesInTime(s: State) {
    s.timers != map[] ==> s.nextTimeout <= Max(0, First(s.timers).first - s.refreshedAt)
  }

  /** The overdue time, cut to 32 bits, still reads as overdue. */
  predicate Representable(key: int, clock: int) {
    key >= clock || (clock - key) % 0x1_0000_0000 <= 0x8000_0000
  }

  /** Exactly when the narrowing to `int` in the refresh cannot make the loop oversleep. */
  lemma {:induction false} RefreshWakesInTime(s: State, clock: int)
    requires s.timers != map[]
    ensures WakesInTime(Refresh(s, clock)) <==> Representable(First(s.timers).first, clock)
  {
    NarrowingOfOverdue(First(s.timers).first - clock);
  }

  lemma NarrowingOfOverdue(d: int)
    ensures d >= 0 ==> ToInt32(d) <= d
    ensures d < 0 ==> (ToInt32(d) <= 0 <==> (-d) % 0x1_0000_0000 <= 0x8000_0000)
  {
    var q, r := (-d) / 0x1_0000_0000, (-d) % 0x1_0000_0000;
    assert d == -(0x1_0000_0000 * q) - r;
  }

  /**
   * The wait is exactly the time left to the earliest timer, or nothing for one that is due, if and only if that time
   * fits 31 bits or, overdue, still reads as overdue; without timers it is 2^30 ms.
   */
  lemma RefreshSleepsExactly(s: State, clock: int)
    ensures s.timers == map[] ==> Refresh(s, clock).nextTimeout == 0x4000_0000
    ensures s.timers != map[] ==>
      (Refresh(s, clock).nextTimeout == Max(0, First(s.timers).first - clock)
      <==> First(s.timers).first - clock < 0x8000_0000 && Representable(First(s.timers).first, clock))
  {
    if s.timers != map[] {
      var d := First(s.timers).first - clock;
      NarrowingOfOverdue(d);
      NarrowingOfFuture(d);
    }
  }

  lemma NarrowingOfFuture(d: int)
    ensures 0 <= d ==> (ToInt32(d) == d <==> d < 0x8000_0000) && (d >= 0x8000_0000 ==> ToInt32(d) < d)
  {
  }

  /** A timer due 49 days ago may make the loop sleep: its narrowed distance is positive. */
  lemma OverdueTimerCanOversleep() returns (s: State)
    ensures s == Do(START, RunAt(0, 7, 0, 0xFFFF_0000))
    ensures s.timers.Keys == {TimerId(0, 1)} && s.refreshedAt == 0xFFFF_0000 && s.nextTimeout == 0x1_0000
    ensures !WakesInTime(s)
  {
    s := Do(START, RunAt(0, 7, 0, 0xFFFF_0000));
    assert s.timers.Keys == {TimerId(0, 1)};
    assert First(s.timers) == TimerId(0, 1);
  }

  lemma {:induction false} CancelWakesInTime(s: State, id: TimerId)
    requires WakesInTime(s) && Legal(s, Cancel(id))
    ensures WakesInTime(DoCancel(s, id).0)
  {
    var t := DoCancel(s, id).0;
    if t.timers != map[] {
      var k := First(t.timers);
      assert k in s.timers;
      assert First(s.timers) == k || Less(First(s.timers), k);
    }
  }

  // ----- Whole runs -----

  /** What happens to the event base between its creation and its end. */
  datatype Op = Call(a: Action) | Timeouts(now: int, env: Env) | Exit

  ghost predicate Allowed(op: Op) {
    op.Timeouts? ==> Quiet(op.env, op.now)
  }

  ghost function Step(s: State, op: Op): (t: State)
    requires Inv(s) && Allowed(op)
    ensures Inv(t)
  {
    match op
    case Call(a) => DoKeepsInv(s, a); Do(s, a)
    case Timeouts(now, env) => Drain(s, now, env, 0).0
    case Exit => s.(exited := true)
  }

  const START := State(map[], map[], 0, NO_TIMER_WAIT, 0, false)

  ghost function Run(s: State, ops: seq<Op>): (t: State)
    requires Inv(s) && forall op | op in ops :: Allowed(op)
    ensures Inv(t)
    decreases |ops|
  {
    if ops == [] then s else Run(Step(s, ops[0]), ops[1..])
  }

  /** No refresh looks at a timer more than 2^31 ms late, and no run of timeouts lasts that long. */
  ghost predicate Prompt(s: State, op: Op) {
    match op
    case Call(RunAt(milli, _, _, clock)) =>
      milli >= clock - 0x8000_0000 && forall k | k in s.timers :: k.first >= clock - 0x8000_0000
    case Call(Cancel(_)) => true
    case Timeouts(now, env) => forall k: nat :: env(k).clock <= now + 0x8000_0000
    case Exit => true
  }

  lemma {:induction false} DrainEndsRefreshed(s: State, now: int, env: Env, k: nat, t: State, log: seq<Fired>)
    requires Inv(s) && Quiet(env, now) && Drain(s, now, env, k) == (t, log)
    ensures t == Refresh(t, env(k + |log|).clock)
    decreases Sums.Sum(Work(s, now))
  {
    hide Inv, Drain;
    if Due(s, now) {
      var u, rest := DrainUnfolds(s, now, env, k, t, log);
      DrainEndsRefreshed(u, now, env, k + 1, t, rest);
    } else {
      DrainStops(s, now, env, k, t, log);
    }
  }

  lemma {:induction false} TimeoutsWakeInTime(s: State, now: int, env: Env)
    requires Inv(s) && Quiet(env, now) && Prompt(s, Timeouts(now, env))
    requires Drain(s, now, env, 0).0.seqNo < SEQ_LIMIT
    ensures WakesInTime(Drain(s, now, env, 0).0)
  {
    var (t, log) := Drain(s, now, env, 0);
    DrainEndsRefreshed(s, now, env, 0, t, log);
    DrainLeavesOnlyLater(s, now, env, 0, t, log);
    if t.timers != map[] {
      RefreshWakesInTime(t, env(|log|).clock);
    }
  }

  lemma RunAtWakesInTime(s: State, a: Action)
    requires Inv(s) && a.RunAt? && Legal(s, a) && Prompt(s, Call(a)) && WakesInTime(s)
    ensures WakesInTime(Do(s, a))
  {
    if !s.exited {
      var t := Do(s, a);
      assert t == Refresh(t, a.clock);
      assert t.timers != map[] by {
        assert TimerId(a.milli, s.seqNo + if a.interval != 0 then 2 else 1) in t.timers;
      }
      RefreshWakesInTime(t, a.clock);
    }
  }

  /** No step of a prompt run can leave the loop sleeping past its earliest timer. */
  lemma {:induction false} RunWakesInTime(s: State, ops: seq<Op>)
    requires Inv(s) && WakesInTime(s) && forall op | op in ops :: Allowed(op)
    requires PromptRun(s, ops)
    ensures WakesInTime(Run(s, ops))
    decreases |ops|
  {
    if ops != [] {
      assert Allowed(ops[0]);
      match ops[0] {
        case Call(RunAt(_, _, _, _)) => if Legal(s, ops[0].a) { RunAtWakesInTime(s, ops[0].a); }
        case Call(Cancel(id)) => if Legal(s, ops[0].a) { CancelWakesInTime(s, id); }
        case Timeouts(now, env) => TimeoutsWakeInTime(s, now, env);
        case Exit =>
      }
      RunWakesInTime(Step(s, ops[0]), ops[1..]);
    }
  }

  ghost predicate PromptRun(s: State, ops: seq<Op>)
    requires Inv(s) && forall op | op in ops :: Allowed(op)
    decreases |ops|
  {
    ops == [] ||
    (Prompt(s, ops[0]) && Step(s, ops[0]).seqNo < SEQ_LIMIT && PromptRun(Step(s, ops[0]), ops[1..]))
  }

  /** Along any run no two live timers or handles share a sequence number. */
  lemma {:induction false} RunKeepsUnshared(s: State, ops: seq<Op>)
    requires Inv(s) && Unshared(Names(s)) && forall op | op in ops :: Allowed(op)
    ensures Unshared(Names(Run(s, ops)))
    decreases |ops|
  {
    if ops != [] {
      assert Allowed(ops[0]);
      match ops[0] {
        case Call(a) => DoKeepsUnshared(s, a);
        case Timeouts(now, env) =>
          DrainKeepsUnshared(s, now, env, 0, Drain(s, now, env, 0).0, Drain(s, now, env, 0).1);
        case Exit => assert Names(Step(s, ops[0])) == Names(s);
      }
      RunKeepsUnshared(Step(s, ops[0]), ops[1..]);
    }
  }

  /**
   * What every run from a new event base keeps: repeating entries and their keys stay paired, each entry is a whole
   * number of intervals after its start, and sequence numbers are unique and within the counter.
   */
  lemma EveryRunIsSound(ops: seq<Op>)
    requires forall op | op in ops :: Allowed(op)
    ensures
      var t := Run(START, ops);
      && (forall id | id in t.reps ::
            && t.reps[id].timerid in t.timers && t.timers[t.reps[id].timerid] == Again(id)
            && t.reps[id].timerid.first == t.reps[id].at >= -id.first
            && t.reps[id].interval > 0 && (t.reps[id].at + id.first) % t.reps[id].interval == 0)
      && (forall k | k in t.timers && t.timers[k].Again? ::
            t.timers[k].rep in t.reps && t.reps[t.timers[k].rep].timerid == k)
      && Unshared(Names(t)) && Numbered(Names(t), t.seqNo)
  {
    RunKeepsUnshared(START, ops);
    var t := Run(START, ops);
    forall id | id in t.reps
      ensures t.reps[id].interval > 0 && t.reps[id].timerid.first == t.reps[id].at >= -id.first
      ensures (t.reps[id].at + id.first) % t.reps[id].interval == 0
    {
      assert OnBeat(id, t.reps[id]);
      WholeIs(t.reps[id].at + id.first, t.reps[id].interval);
    }
  }

  lemma {:induction false} WholeIs(x: int, i: int)
    requires Whole(x, i) && i > 0
    ensures x >= 0 && x % i == 0
    decreases x
  {
    if x == 0 {
      Arith.DivUnique(i, 0, 0);
    } else {
      WholeIs(x - i, i);
      Arith.StepKeepsPhase(x - i, i);
    }
  }
}
