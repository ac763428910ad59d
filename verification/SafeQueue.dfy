/**
 * The blocking queue and the thread pool on top of it, as interleaved atomic steps of any number of threads over one
 * mutex and one condition variable.
 */
module SafeQueue {
  type Tid = nat
  type Task = nat

  /** How pop_wait was called: without waiting, with a deadline, or without one. */
  datatype Wait = NoWait | Timed | Forever

  datatype Pc =
    | Idle
    | PushWant(task: Task)      // about to lock for a push
    | PushHold(task: Task)      // in push, holding the lock
    | PopWant(wait: Wait)       // about to lock for a pop
    | PopCheck(wait: Wait)      // first test of wait_ready, holding the lock
    | PopPred                   // predicate of the untimed wait, holding the lock
    | PopRecheck(late: bool)    // loop condition of the timed wait, holding the lock
    | PopSleepy(wait: Wait)     // has decided to wait, still holding the lock
    | Asleep(wait: Wait)        // waiting, not notified
    | Notified(wait: Wait)      // notified, has not run yet
    | Woken(wait: Wait)         // woken by the deadline or for no reason
    | PopTake(wait: Wait, late: bool)   // wait_ready is over, holding the lock
    | Running(ticket: nat)      // has popped this task and is running it
    | ExitWant                  // has set the exit flag, about to lock

  datatype Lock = Free | Held(owner: Tid)

  /** `accepted` lists every task a push took, `taken` counts the pops, `executed` holds the finished tickets. */
  datatype State = State(pc: map<Tid, Pc>, lock: Lock, items: seq<Task>, exit: bool, capacity: nat,
                         accepted: seq<Task>, taken: nat, executed: set<nat>, exitDone: bool)

  datatype Action =
    | StartPush(t: Tid, task: Task) | LockPush(t: Tid) | FinishPush(t: Tid, wakes: Tid)
    | StartPop(t: Tid, wait: Wait) | LockPop(t: Tid) | Check(t: Tid) | Pred(t: Tid) | Recheck(t: Tid)
    | Sleep(t: Tid) | Wake(t: Tid) | Relock(t: Tid, late: bool) | Take(t: Tid) | FinishTask(t: Tid)
    | StartExit(t: Tid) | FinishExit(t: Tid)

  predicate Holds(pc: Pc) {
    pc.PushHold? || pc.PopCheck? || pc.PopPred? || pc.PopRecheck? || pc.PopSleepy? || pc.PopTake?
  }

  function Sleepers(s: State): set<Tid> { set t | t in s.pc && s.pc[t].Asleep? }

  predicate Refuses(s: State) { s.exit || (s.capacity > 0 && |s.items| >= s.capacity) }

  predicate Enabled(s: State, a: Action) {
    && a.t in s.pc
    && var pc := s.pc[a.t];
       match a
       case StartPush(_, _) => pc.Idle?
       case LockPush(_) => pc.PushWant? && s.lock == Free
       // notify_one picks one of the sleepers, if there is any
       case FinishPush(_, w) => pc.PushHold? && (!Refuses(s) && Sleepers(s) != {} ==> w in Sleepers(s))
       case StartPop(_, _) => pc.Idle?
       case LockPop(_) => pc.PopWant? && s.lock == Free
       case Check(_) => pc.PopCheck?
       case Pred(_) => pc.PopPred?
       case Recheck(_) => pc.PopRecheck?
       case Sleep(_) => pc.PopSleepy?
       case Wake(_) => pc.Asleep?
       case Relock(_, late) => (pc.Notified? || pc.Woken?) && s.lock == Free
       case Take(_) => pc.PopTake?
       case FinishTask(_) => pc.Running?
       case StartExit(_) => pc.Idle?
       case FinishExit(_) => pc.ExitWant? && s.lock == Free
  }

  /** Whether a waiter has what it waits for. */
  predicate Ready(s: State) { s.exit || s.items != [] }

  function Goto(s: State, t: Tid, pc: Pc): State { s.(pc := s.pc[t := pc]) }

  function Next(s: State, a: Action): State
    requires Enabled(s, a)
  {
    var t := a.t;
    match a
    case StartPush(_, task) => Goto(s, t, PushWant(task))
    case LockPush(_) => Goto(s, t, PushHold(s.pc[t].task)).(lock := Held(t))
    case FinishPush(_, w) =>
      var done := Goto(s, t, Idle).(lock := Free);
      if Refuses(s) then done
      else
        var task := s.pc[t].task;
        var put := done.(items := s.items + [task], accepted := s.accepted + [task]);
        if Sleepers(s) == {} then put else Goto(put, w, Notified(s.pc[w].wait))
    case StartPop(_, wait) => Goto(s, t, PopWant(wait))
    case LockPop(_) => Goto(s, t, PopCheck(s.pc[t].wait)).(lock := Held(t))
    case Check(_) =>
      var wait := s.pc[t].wait;
      Goto(s, t, if Ready(s) || wait == NoWait then PopTake(wait, false)
                 else if wait == Forever then PopPred else PopSleepy(Timed))
    case Pred(_) => Goto(s, t, if Ready(s) then PopTake(Forever, false) else PopSleepy(Forever))
    case Recheck(_) =>
      Goto(s, t, if s.pc[t].late || Ready(s) then PopTake(Timed, s.pc[t].late) else PopSleepy(Timed))
    case Sleep(_) => Goto(s, t, Asleep(s.pc[t].wait)).(lock := Free)
    case Wake(_) => Goto(s, t, Woken(s.pc[t].wait))
    case Relock(_, late) => Goto(s, t, if s.pc[t].wait == Forever then PopPred else PopRecheck(late)).(lock := Held(t))
    case Take(_) =>
      if s.items == [] then Goto(s, t, Idle).(lock := Free)
      else Goto(s, t, Running(s.taken)).(lock := Free, items := s.items[1..], taken := s.taken + 1)
    case FinishTask(_) => Goto(s, t, Idle).(executed := s.executed + {s.pc[t].ticket})
    case StartExit(_) => Goto(s, t, ExitWant).(exit := true)
    case FinishExit(_) =>
      s.(pc := (map u | u in s.pc :: if u == t then Idle
                                     else if s.pc[u].Asleep? then Notified(s.pc[u].wait) else s.pc[u]),
         exitDone := true)
  }

  function Start(threads: set<Tid>, capacity: nat): State {
    State(map t | t in threads :: Idle, Free, [], false, capacity, [], 0, {}, false)
  }

  // ----- What every step keeps -----

  /** The mutex excludes: the holder, and nobody else, is inside a locked region. */
  predicate Exclusive(s: State) {
    && (forall t | t in s.pc :: Holds(s.pc[t]) <==> s.lock == Held(t))
    && (s.lock.Held? ==> s.lock.owner in s.pc)
  }

  /** The queue is the accepted tasks not yet taken, within capacity. */
  predicate Accounted(s: State) {
    && s.taken <= |s.accepted|
    && s.items == s.accepted[s.taken..]
    && (s.capacity > 0 ==> |s.items| <= s.capacity)
  }

  /** Each taken task is in flight in exactly one thread or has been executed, never both. */
  predicate Ticketed(s: State) {
    && (forall t | t in s.pc && s.pc[t].Running? :: s.pc[t].ticket < s.taken && s.pc[t].ticket !in s.executed)
    && (forall t, u | t in s.pc && u in s.pc && s.pc[t].Running? && s.pc[u].Running?
                      && s.pc[t].ticket == s.pc[u].ticket :: t == u)
    && (forall k | k in s.executed :: k < s.taken)
    && (forall k: nat | k < s.taken :: k in s.executed || exists t :: t in s.pc && s.pc[t] == Running(k))
  }

  /** A thread on its way to the queue's front: notified and not yet running, or holding the lock in pop_wait. */
  predicate Coming(pc: Pc) {
    pc.Notified? || pc.PopCheck? || pc.PopPred? || pc.PopRecheck? || pc.PopTake?
  }

  function Comers(s: State): set<Tid> { set t | t in s.pc && Coming(s.pc[t]) }

  /** While somebody sleeps un-notified there is somebody coming for every queued task. */
  predicate NoneLost(s: State) {
    && (Sleepers(s) != {} ==> |s.items| <= |Comers(s)|)
    && (forall t | t in s.pc && s.pc[t].PopSleepy? :: s.items == [])
  }

  predicate ExitReaches(s: State) {
    && (s.exitDone ==> s.exit)
    && (forall t | t in s.pc && s.pc[t].ExitWant? :: s.exit)
    && (s.exitDone ==> forall t | t in s.pc :: !s.pc[t].Asleep? && !s.pc[t].PopSleepy?)
  }

  /** Nobody gives up waiting too soon, and nobody waits who must not. */
  predicate Waits(s: State) { forall t | t in s.pc :: WaitsWell(s.pc[t], Ready(s)) }

  predicate WaitsWell(pc: Pc, ready: bool) {
    match pc
    case PopTake(wait, late) => ready || wait == NoWait || (wait == Timed && late)
    case PopSleepy(wait) => wait != NoWait
    case Asleep(wait) => wait != NoWait
    case Notified(wait) => wait != NoWait
    case Woken(wait) => wait != NoWait
    case _ => true
  }

  predicate Inv(s: State) {
    Exclusive(s) && Accounted(s) && Ticketed(s) && NoneLost(s) && ExitReaches(s) && Waits(s)
  }

  lemma ExclusiveKept(s: State, a: Action)
    requires Exclusive(s) && Enabled(s, a)
    ensures Exclusive(Next(s, a))
  {
  }

  lemma AccountedKept(s: State, a: Action)
    requires Accounted(s) && Enabled(s, a)
    ensures Accounted(Next(s, a))
  {
    if a.Take? && s.items != [] {
      assert s.items[1..] == s.accepted[s.taken + 1..];
    }
  }

  lemma TicketedKept(s: State, a: Action)
    requires Ticketed(s) && Enabled(s, a)
    ensures Ticketed(Next(s, a))
  {
    var n := Next(s, a);
    if a.Take? {
      TakeKeepsTickets(s, a.t);
    } else if a.FinishTask? {
      FinishKeepsTickets(s, a.t);
    } else {
      SameTickets(s, a);
      hide Next, Enabled, Ticketed;
      RunnersKeepTickets(s, n);
    }
  }

  lemma SameTickets(s: State, a: Action)
    requires Enabled(s, a) && !a.Take? && !a.FinishTask?
    ensures
      var n := Next(s, a);
      && n.pc.Keys == s.pc.Keys && n.taken == s.taken && n.executed == s.executed
      && forall t | t in s.pc :: n.pc[t].Running? || s.pc[t].Running? ==> n.pc[t] == s.pc[t]
  {
  }

  lemma RunnersKeepTickets(s: State, n: State)
    requires Ticketed(s) && n.pc.Keys == s.pc.Keys && n.taken == s.taken && n.executed == s.executed
    requires forall t | t in s.pc :: n.pc[t].Running? || s.pc[t].Running? ==> n.pc[t] == s.pc[t]
    ensures Ticketed(n)
  {
    forall k: nat | k < n.taken ensures k in n.executed || exists t :: t in n.pc && n.pc[t] == Running(k) {
      if k !in s.executed {
        var t :| t in s.pc && s.pc[t] == Running(k);
        assert n.pc[t] == Running(k);
      }
    }
  }

  lemma TakeKeepsTickets(s: State, t: Tid)
    requires Ticketed(s) && Enabled(s, Take(t))
    ensures Ticketed(Next(s, Take(t)))
  {
    var n := Next(s, Take(t));
    if s.items == [] {
      assert n.pc == s.pc[t := Idle] && !s.pc[t].Running?;
      RunnersKeepTickets(s, n);
    } else {
      assert n.pc == s.pc[t := Running(s.taken)] && !s.pc[t].Running?;
      hide Next, Enabled;
      OneMoreTicket(s, t, n);
    }
  }

  lemma OneMoreTicket(s: State, t: Tid, n: State)
    requires Ticketed(s) && t in s.pc && !s.pc[t].Running?
    requires n.pc == s.pc[t := Running(s.taken)] && n.taken == s.taken + 1 && n.executed == s.executed
    ensures Ticketed(n)
  {
    forall k: nat | k < n.taken ensures k in n.executed || exists u :: u in n.pc && n.pc[u] == Running(k) {
      if k == s.taken {
        assert n.pc[t] == Running(k);
      } else if k !in s.executed {
        var u :| u in s.pc && s.pc[u] == Running(k);
        assert n.pc[u] == Running(k);
      }
    }
  }

  lemma FinishKeepsTickets(s: State, t: Tid)
    requires Ticketed(s) && Enabled(s, FinishTask(t))
    ensures Ticketed(Next(s, FinishTask(t)))
  {
    var n := Next(s, FinishTask(t));
    forall k: nat | k < n.taken ensures k in n.executed || exists u :: u in n.pc && n.pc[u] == Running(k) {
      if k !in s.executed {
        var u :| u in s.pc && s.pc[u] == Running(k);
        assert u == t || n.pc[u] == Running(k);
      }
    }
  }

  lemma ExitReachesKept(s: State, a: Action)
    requires Exclusive(s) && ExitReaches(s) && Enabled(s, a)
    ensures ExitReaches(Next(s, a))
  {
  }

  lemma WaitsKept(s: State, a: Action)
    requires Exclusive(s) && Waits(s) && Enabled(s, a)
    ensures Waits(Next(s, a))
  {
    var n := Next(s, a);
    forall t | t in n.pc ensures WaitsWell(n.pc[t], Ready(n)) {
      assert WaitsWell(s.pc[t], Ready(s));
      if t == a.t {
        OwnStepWaits(s, a);
      } else {
        OthersMayWake(s, a, t);
        if s.pc[t].PopTake? { StaysReady(s, a, t); }
        hide Next, Enabled;
      }
    }
  }

  lemma OwnStepWaits(s: State, a: Action)
    requires Enabled(s, a) && WaitsWell(s.pc[a.t], Ready(s))
    ensures WaitsWell(Next(s, a).pc[a.t], Ready(Next(s, a)))
  {
    hide Refuses;
  }

  /** Nobody takes a task from under the lock's holder. */
  lemma StaysReady(s: State, a: Action, t: Tid)
    requires Exclusive(s) && Enabled(s, a) && t in s.pc && a.t != t && Holds(s.pc[t])
    ensures Ready(s) ==> Ready(Next(s, a))
  {
    assert s.lock == Held(t) && !Holds(s.pc[a.t]);
  }

  /** One thread's step changes another only by notifying it. */
  lemma OthersMayWake(s: State, a: Action, t: Tid)
    requires Enabled(s, a) && t in s.pc && a.t != t
    ensures
      var n := Next(s, a);
      t in n.pc && (n.pc[t] == s.pc[t] || (s.pc[t].Asleep? && n.pc[t] == Notified(s.pc[t].wait)))
  {
  }

  /** One thread's move changes who is coming by that thread alone. */
  lemma ComersMove(s: State, t: Tid, pc: Pc)
    requires t in s.pc
    ensures Comers(Goto(s, t, pc)) == if Coming(pc) then Comers(s) + {t} else Comers(s) - {t}
  {
  }

  lemma ComersCount(s: State, t: Tid, pc: Pc)
    requires t in s.pc
    ensures |Comers(Goto(s, t, pc))| >= |Comers(s)| - if Coming(s.pc[t]) && !Coming(pc) then 1 else 0
  {
    ComersMove(s, t, pc);
    if t in Comers(s) {
      assert |Comers(s) - {t}| == |Comers(s)| - 1;
      assert Comers(s) + {t} == Comers(s);
    } else {
      assert Comers(s) - {t} == Comers(s);
      assert |Comers(s) + {t}| == |Comers(s)| + 1;
    }
  }

  /** A move keeps the balance if its thread falls asleep, or leaves without a task, only on an empty queue. */
  lemma MoveKeepsBalance(s: State, t: Tid, n: State)
    requires NoneLost(s) && t in s.pc && t in n.pc && n.pc == s.pc[t := n.pc[t]]
    requires n.items == s.items || (|n.items| < |s.items| && Coming(s.pc[t]))
    requires n.pc[t].Asleep? || n.pc[t].PopSleepy? ==> n.items == []
    requires Coming(s.pc[t]) && !Coming(n.pc[t]) ==> n.items == [] || |n.items| < |s.items|
    requires (forall u | u in n.pc && u != t :: n.pc[u].PopSleepy? ==> n.items == [])
    ensures NoneLost(n)
  {
    ComersCount(s, t, n.pc[t]);
    assert Comers(n) == Comers(Goto(s, t, n.pc[t]));
    if Sleepers(n) != {} && n.items != [] {
      var u :| u in Sleepers(n);
      assert u in Sleepers(s);
    }
    hide Coming;
  }

  lemma NoneLostKept(s: State, a: Action)
    requires Exclusive(s) && NoneLost(s) && Enabled(s, a)
    ensures NoneLost(Next(s, a))
  {
    var n := Next(s, a);
    if a.FinishPush? && !Refuses(s) {
      PushWakes(s, a.t, a.wakes);
    } else if a.FinishExit? {
      assert Sleepers(n) == {};
    } else {
      MoveKeepsBalance(s, a.t, n);
    }
  }

  /** The heart of it: a push that finds sleepers turns one of them into somebody coming. */
  lemma PushWakes(s: State, t: Tid, w: Tid)
    requires Exclusive(s) && NoneLost(s) && Enabled(s, FinishPush(t, w)) && !Refuses(s)
    ensures NoneLost(Next(s, FinishPush(t, w)))
  {
    var n := Next(s, FinishPush(t, w));
    assert t !in Comers(s);
    if Sleepers(s) == {} {
      assert Sleepers(n) == {};
    } else {
      assert w in Sleepers(s) && w !in Comers(s) && w != t;
      assert Comers(n) == Comers(s) + {w};
    }
  }

  lemma InvKept(s: State, a: Action)
    requires Inv(s) && Enabled(s, a)
    ensures Inv(Next(s, a))
  {
    ExclusiveKept(s, a);
    AccountedKept(s, a);
    TicketedKept(s, a);
    NoneLostKept(s, a);
    ExitReachesKept(s, a);
    WaitsKept(s, a);
  }

  // ----- Every interleaving -----

  predicate Allowed(s: State, actions: seq<Action>)
    decreases |actions|
  {
    actions == [] || (Enabled(s, actions[0]) && Allowed(Next(s, actions[0]), actions[1..]))
  }

  function Run(s: State, actions: seq<Action>): State
    requires Allowed(s, actions)
    decreases |actions|
  {
    if actions == [] then s else Run(Next(s, actions[0]), actions[1..])
  }

  lemma {:induction false} RunKeepsInv(s: State, actions: seq<Action>)
    requires Inv(s) && Allowed(s, actions)
    ensures Inv(Run(s, actions))
    decreases |actions|
  {
    hide Inv;
    if actions != [] {
      InvKept(s, actions[0]);
      RunKeepsInv(Next(s, actions[0]), actions[1..]);
    }
  }

  lemma StartInv(threads: set<Tid>, capacity: nat)
    ensures Inv(Start(threads, capacity))
  {
  }

  function NotifiedOnes(s: State): set<Tid> { set t | t in s.pc && s.pc[t].Notified? }

  /** Whether the lock's holder is in pop_wait and has not decided to wait. */
  predicate HolderComes(s: State) { s.lock.Held? && s.lock.owner in s.pc && Coming(s.pc[s.lock.owner]) }

  lemma ComersAre(s: State)
    requires Exclusive(s)
    ensures |Comers(s)| == |NotifiedOnes(s)| + if HolderComes(s) then 1 else 0
  {
    if HolderComes(s) {
      assert Comers(s) == NotifiedOnes(s) + {s.lock.owner} && s.lock.owner !in NotifiedOnes(s);
    } else {
      assert Comers(s) == NotifiedOnes(s);
    }
  }

  /**
   * No lost wakeup: in every state any interleaving can reach, when somebody sleeps without having been notified,
   * there are at least as many notified threads still to run as tasks in the queue, counting the lock's holder as one
   * of them while it is on its way to the queue.
   */
  lemma NoLostWakeup(threads: set<Tid>, capacity: nat, actions: seq<Action>, t: Tid)
    requires Allowed(Start(threads, capacity), actions)
    ensures
      var s := Run(Start(threads, capacity), actions);
      t in s.pc && s.pc[t].Asleep? ==> |s.items| <= |NotifiedOnes(s)| + if HolderComes(s) then 1 else 0
  {
    StartInv(threads, capacity);
    RunKeepsInv(Start(threads, capacity), actions);
    var s := Run(Start(threads, capacity), actions);
    if t in s.pc && s.pc[t].Asleep? {
      assert t in Sleepers(s);
      ComersAre(s);
    }
  }

  /** Once exit() has returned nobody sleeps un-notified, although the flag is set before the lock is taken. */
  lemma ExitWakesEveryone(threads: set<Tid>, capacity: nat, actions: seq<Action>, t: Tid)
    requires Allowed(Start(threads, capacity), actions)
    ensures var s := Run(Start(threads, capacity), actions);
      s.exitDone && t in s.pc ==> !s.pc[t].Asleep?
  {
    StartInv(threads, capacity);
    RunKeepsInv(Start(threads, capacity), actions);
  }

  /**
   * Conservation: every accepted task is executed, in flight in one thread, or queued, and only one of these; the
   * queue is the tail of the acceptance order, so tasks are handed out in push order across all consumers; and a
   * bounded queue stays within its bound.
   */
  lemma TasksAreConserved(threads: set<Tid>, capacity: nat, actions: seq<Action>, k: nat)
    requires Allowed(Start(threads, capacity), actions)
    ensures
      var s := Run(Start(threads, capacity), actions);
      var inFlight := exists t :: t in s.pc && s.pc[t] == Running(k);
      && s.taken + |s.items| == |s.accepted|
      && s.items == s.accepted[s.taken..]
      && (capacity > 0 ==> |s.items| <= capacity)
      && (k < |s.accepted| ==>
            if k in s.executed then k < s.taken && !inFlight
            else inFlight <==> k < s.taken)
      && (forall t, u | t in s.pc && u in s.pc && s.pc[t] == Running(k) && s.pc[u] == Running(k) :: t == u)
  {
    StartInv(threads, capacity);
    RunKeepsInv(Start(threads, capacity), actions);
    RunKeepsCapacity(Start(threads, capacity), actions);
  }

  lemma {:induction false} RunKeepsCapacity(s: State, actions: seq<Action>)
    requires Allowed(s, actions)
    ensures Run(s, actions).capacity == s.capacity
    decreases |actions|
  {
    if actions != [] {
      RunKeepsCapacity(Next(s, actions[0]), actions[1..]);
    }
  }

  // ----- What one push and one pop do -----

  /** The task of a push that `t` is in the middle of. */
  predicate Pushes(s: State, t: Tid, task: Task) {
    t in s.pc && (s.pc[t] == PushWant(task) || s.pc[t] == PushHold(task))
  }

  /** A push carries the task it was called with until it ends, whatever other threads do meanwhile. */
  lemma {:induction false} PushCarriesItsTask(s: State, t: Tid, task: Task, actions: seq<Action>)
    requires Enabled(s, StartPush(t, task)) && Allowed(Next(s, StartPush(t, task)), actions)
    requires forall a | a in actions :: a.FinishPush? ==> a.t != t
    ensures Pushes(Run(Next(s, StartPush(t, task)), actions), t, task)
  {
    StillPushes(Next(s, StartPush(t, task)), t, task, actions);
  }

  lemma {:induction false} StillPushes(s: State, t: Tid, task: Task, actions: seq<Action>)
    requires Pushes(s, t, task) && Allowed(s, actions)
    requires forall a | a in actions :: a.FinishPush? ==> a.t != t
    ensures Pushes(Run(s, actions), t, task)
    decreases |actions|
  {
    if actions != [] {
      assert actions[0] in actions;
      StillPushes(Next(s, actions[0]), t, task, actions[1..]);
    }
  }

  /**
   * In every state any interleaving can reach, a push at its end appends exactly its own task if the exit flag is not
   * set and the queue has no bound (capacity 0) or is below it, and then wakes a sleeper if there is one; in exactly
   * the other cases it is refused and changes nothing.
   */
  lemma PushAppendsExactly(threads: set<Tid>, capacity: nat, actions: seq<Action>, t: Tid, w: Tid)
    requires Allowed(Start(threads, capacity), actions)
    requires Enabled(Run(Start(threads, capacity), actions), FinishPush(t, w))
    ensures
      var s := Run(Start(threads, capacity), actions);
      var n := Next(s, FinishPush(t, w));
      && n.pc[t] == Idle && n.lock == Free && n.exit == s.exit && n.taken == s.taken
      && if !s.exit && (capacity == 0 || |s.items| < capacity) then
           && n.items == s.items + [s.pc[t].task] && n.accepted == s.accepted + [s.pc[t].task]
           && (Sleepers(s) != {} ==> w in Sleepers(s) && n.pc[w].Notified? && Sleepers(n) == Sleepers(s) - {w})
         else
           n.items == s.items && n.accepted == s.accepted && Sleepers(n) == Sleepers(s)
  {
    RunKeepsCapacity(Start(threads, capacity), actions);
  }

  /** How a pop that `t` is in the middle of was called. */
  predicate Pops(s: State, t: Tid, wait: Wait) {
    t in s.pc &&
    match s.pc[t]
    case PopPred => wait == Forever
    case PopRecheck(_) => wait == Timed
    case PopWant(w) => w == wait
    case PopCheck(w) => w == wait
    case PopSleepy(w) => w == wait
    case Asleep(w) => w == wait
    case Notified(w) => w == wait
    case Woken(w) => w == wait
    case PopTake(w, _) => w == wait
    case _ => false
  }

  /** A pop keeps to the way it was called until it ends. */
  lemma PopCarriesItsWait(s: State, t: Tid, wait: Wait, actions: seq<Action>)
    requires Inv(s) && Enabled(s, StartPop(t, wait)) && Allowed(Next(s, StartPop(t, wait)), actions)
    requires Take(t) !in actions
    ensures Pops(Run(Next(s, StartPop(t, wait)), actions), t, wait)
  {
    InvKept(s, StartPop(t, wait));
    StillPops(Next(s, StartPop(t, wait)), t, wait, actions);
  }

  lemma {:induction false} StillPops(s: State, t: Tid, wait: Wait, actions: seq<Action>)
    requires Inv(s) && Pops(s, t, wait) && Allowed(s, actions) && Take(t) !in actions
    ensures Pops(Run(s, actions), t, wait)
    decreases |actions|
  {
    if actions != [] {
      assert actions[0] in actions;
      InvKept(s, actions[0]);
      StepPops(s, t, wait, actions[0]);
      StillPops(Next(s, actions[0]), t, wait, actions[1..]);
    }
  }

  lemma StepPops(s: State, t: Tid, wait: Wait, a: Action)
    requires Waits(s) && Pops(s, t, wait) && Enabled(s, a) && a != Take(t)
    ensures Pops(Next(s, a), t, wait)
  {
    hide Ready, Refuses;
    if a.t != t {
      OthersMayWake(s, a, t);
      hide Next, Enabled;
    }
  }

  /**
   * A pop holding the lock stops waiting if and only if there is a task, the exit flag is set, it was called not to
   * wait, or its deadline has passed; otherwise it is asleep two steps of its own later.
   */
  lemma PopStopsWaitingExactly(s: State, t: Tid)
    requires t in s.pc && (s.pc[t].PopCheck? || s.pc[t].PopPred? || s.pc[t].PopRecheck?)
    ensures
      var over := s.items != [] || s.exit || Pops(s, t, NoWait) || s.pc[t] == PopRecheck(true);
      var d := Decided(s, t);
      && (over <==> Enabled(d, Take(t)))
      && (!over <==> Enabled(d, Sleep(t)) && Next(d, Sleep(t)).pc[t].Asleep? && Next(d, Sleep(t)).lock == Free)
  {
    hide Refuses, Sleepers;
    var d := Decided(s, t);
    assert d.pc[t].PopTake? || d.pc[t].PopSleepy?;
  }

  /** The thread's own steps up to its decision to wait or not. */
  function Decided(s: State, t: Tid): State
    requires t in s.pc && (s.pc[t].PopCheck? || s.pc[t].PopPred? || s.pc[t].PopRecheck?)
  {
    if s.pc[t].PopRecheck? then Next(s, Recheck(t))
    else
      var d := if s.pc[t].PopCheck? then Next(s, Check(t)) else s;
      if d.pc[t].PopPred? then Next(d, Pred(t)) else d
  }

  /**
   * In every reachable state a pop that ends gets the oldest accepted task that nobody has taken; it ends without a
   * task only if the queue is empty, and only after exit, or if it was called not to wait or its deadline has passed.
   */
  lemma PopEndsExactly(threads: set<Tid>, capacity: nat, actions: seq<Action>, t: Tid)
    requires Allowed(Start(threads, capacity), actions)
    requires Enabled(Run(Start(threads, capacity), actions), Take(t))
    ensures
      var s := Run(Start(threads, capacity), actions);
      var n := Next(s, Take(t));
      && n.lock == Free && n.accepted == s.accepted
      && if s.items != [] then
           s.taken < |s.accepted| && s.items[0] == s.accepted[s.taken] && n.pc[t] == Running(s.taken)
             && n.items == s.items[1..] && n.taken == s.taken + 1
         else
           n.pc[t] == Idle && n.items == [] && n.taken == s.taken
             && (s.exit || Pops(s, t, NoWait) || s.pc[t] == PopTake(Timed, true))
  {
    StartInv(threads, capacity);
    RunKeepsInv(Start(threads, capacity), actions);
    var s := Run(Start(threads, capacity), actions);
    assert s.items == s.accepted[s.taken..];
  }

  /** A pop that was called not to wait is never asleep. */
  lemma NoWaitNeverSleeps(threads: set<Tid>, capacity: nat, actions: seq<Action>, t: Tid)
    requires Allowed(Start(threads, capacity), actions)
    ensures var s := Run(Start(threads, capacity), actions); Pops(s, t, NoWait) ==> !s.pc[t].Asleep?
  {
    StartInv(threads, capacity);
    RunKeepsInv(Start(threads, capacity), actions);
  }

  /** From the moment the exit flag is set no push adds anything. */
  lemma {:induction false} ExitRefuses(s: State, actions: seq<Action>)
    requires s.exit && Allowed(s, actions)
    ensures Run(s, actions).accepted == s.accepted && Run(s, actions).exit
    decreases |actions|
  {
    if actions != [] {
      ExitRefuses(Next(s, actions[0]), actions[1..]);
    }
  }

  /** The thread a step of which is always possible: the lock's holder, or else anyone who is coming. */
  lemma NeverStuck(s: State, t: Tid) returns (a: Action)
    requires Inv(s) && t in s.pc && s.pc[t].Asleep? && s.items != []
    ensures Enabled(s, a)
    ensures s.lock.Held? ==> a.t == s.lock.owner
    ensures s.lock == Free ==> a.Relock? && s.pc[a.t].Notified?
  {
    if s.lock.Held? {
      var h := s.lock.owner;
      match s.pc[h] {
        case PushHold(_) => a := FinishPush(h, t);
        case PopCheck(_) => a := Check(h);
        case PopPred => a := Pred(h);
        case PopRecheck(_) => a := Recheck(h);
        case PopSleepy(_) => a := Sleep(h);
        case PopTake(_, _) => a := Take(h);
      }
      assert t in Sleepers(s);
    } else {
      assert t in Sleepers(s);
      assert |Comers(s)| > 0;
      var u :| u in Comers(s);
      a := Relock(u, false);
    }
  }
}
