/** The event base's timer half as the object the loop updates in place. */
module EventsImp {
  import opened Timers
  import opened TimerDrain

  class EventsImp {
    var timers: map<TimerId, Thunk>
    var timerReps: map<TimerId, Repeatable>
    var timerSeq: nat
    var nextTimeout: int
    var exit: bool
    /** The clock reading of the last refresh; the program keeps no such field. */
    var refreshedAt: int

    function View(): State
      reads this
    {
      State(timers, timerReps, timerSeq, nextTimeout, refreshedAt, exit)
    }

    constructor ()
      ensures View() == State(map[], map[], 0, NO_TIMER_WAIT, 0, false)
    {
      timers, timerReps, timerSeq, nextTimeout, exit, refreshedAt := map[], map[], 0, NO_TIMER_WAIT, false, 0;
    }

    method RefreshNearest(clock: int)
      modifies this`nextTimeout, this`refreshedAt
      ensures View() == Refresh(old(View()), clock)
    {
      if timers == map[] {
        nextTimeout := NO_TIMER_WAIT;
      } else {
        nextTimeout := ToInt32(First(timers).first - clock);
        nextTimeout := if nextTimeout < 0 then 0 else nextTimeout;
      }
      refreshedAt := clock;
    }

    method RunAt(milli: int, task: Task, interval: int, clock: int) returns (id: TimerId)
      modifies this
      ensures (View(), id) == DoRunAt(old(View()), milli, task, interval, clock)
    {
      if exit {
        return NO_ID;
      }
      if interval != 0 {
        timerSeq := timerSeq + 1;
        id := TimerId(-milli, timerSeq);
        timerSeq := timerSeq + 1;
        timerReps := timerReps[id := Repeatable(milli, interval, TimerId(milli, timerSeq), task)];
        timers := timers[timerReps[id].timerid := Again(id)];
      } else {
        timerSeq := timerSeq + 1;
        id := TimerId(milli, timerSeq);
        timers := timers[id := Once(task)];
      }
      RefreshNearest(clock);
    }

    method CancelTimer(id: TimerId) returns (found: bool)
      requires Legal(View(), Cancel(id))
      modifies this
      ensures (View(), found) == DoCancel(old(View()), id)
    {
      if id.first < 0 {
        var tr := timerReps[id];
        if tr.timerid in timers {
          timers := timers - {tr.timerid};
        } else {
          assert timers - {tr.timerid} == timers;
        }
        timerReps := timerReps - {id};
        return true;
      }
      if id in timers {
        timers := timers - {id};
        return true;
      }
      assert timers - {id} == timers;
      return false;
    }

    method RepeatableTimeout(id: TimerId, clock: int)
      requires id in timerReps
      modifies this
      ensures View() == Refresh(Rearm(old(View()), id), clock)
    {
      var tr := timerReps[id];
      timerSeq := timerSeq + 1;
      tr := tr.(at := tr.at + tr.interval, timerid := TimerId(tr.at + tr.interval, timerSeq));
      timerReps := timerReps[id := tr];
      timers := timers[tr.timerid := Again(id)];
      RefreshNearest(clock);
    }

    /** Everything a callback does on the event base, in order. */
    method RunCallback(actions: seq<Action>)
      modifies this
      ensures View() == DoAll(old(View()), actions)
    {
      var i := 0;
      assert actions[0..] == actions;
      while i < |actions|
        invariant 0 <= i <= |actions|
        invariant DoAll(View(), actions[i..]) == DoAll(old(View()), actions)
      {
        assert actions[i..][1..] == actions[i + 1..];
        if Legal(View(), actions[i]) {
          match actions[i]
          case RunAt(milli, task, interval, clock) => var _ := RunAt(milli, task, interval, clock);
          case Cancel(id) => var _ := CancelTimer(id);
        }
        i := i + 1;
      }
    }

    /** Takes the first thunk out and runs it. */
    method FireFirst(reply: Reply) returns (fired: Fired)
      requires Inv(View()) && timers != map[]
      modifies this
      ensures View() == Turn(old(View()), reply)
      ensures fired == FiresNow(old(View()))
    {
      var f := First(timers);
      var thunk := timers[f];
      fired := Fired(f, thunk, if thunk.Again? then timerReps[thunk.rep].cb else thunk.task);
      timers := timers - {f};
      if fired.thunk.Again? {
        RepeatableTimeout(fired.thunk.rep, reply.clock);
      }
      RunCallback(reply.actions);
    }

    /** Fires every thunk due at `now`; terminates because each turn removes one owed firing. */
    method HandleTimeouts(now: int, env: Env) returns (log: seq<Fired>)
      requires Inv(View()) && Quiet(env, now)
      modifies this
      ensures (View(), log) == Drain(old(View()), now, env, 0)
      ensures Inv(View())
    {
      hide Inv, Drain;
      ghost var t, all := Drain(View(), now, env, 0).0, Drain(View(), now, env, 0).1;
      log := [];
      ghost var left := all;
      while timers != map[] && Less(First(timers), TimerId(now, SEQ_LIMIT))
        invariant Inv(View())
        invariant Drain(View(), now, env, |log|) == (t, left) && log + left == all
        decreases TimeLeft(View(), now)
      {
        ghost var u, rest := DrainUnfolds(View(), now, env, |log|, t, left);
        var fired := FireFirst(env(|log|));
        log := log + [fired];
        left := rest;
      }
      DrainStops(View(), now, env, |log|, t, left);
      RefreshNearest(env(|log|).clock);
      assert View() == t && log == log + left == all;
    }
  }
}
