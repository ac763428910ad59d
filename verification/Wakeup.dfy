/**
 * safeCall from any thread into an event loop: a task queue drained by the loop, and a pipe whose bytes wake it.
 * Queue operations are single steps here; SafeQueue says what they do inside.
 */
module Wakeup {
  type Tid = nat
  type Task = nat

  const READ_SIZE: nat := 1024

  /** A thread calling safeCall is idle, or between its push and its write to the pipe. */
  datatype Producer = Idle | MustWrite

  /** Where the loop thread is: waiting for events, draining, running a task, or in a safeCall made by that task. */
  datatype Loop = Polling | Draining | Running(task: Task) | RunningMustWrite(task: Task)

  datatype State = State(queue: seq<Task>, pipe: nat, producers: map<Tid, Producer>, loop: Loop, capacity: nat,
                         accepted: seq<Task>, executed: seq<Task>)

  datatype Action =
    | Push(t: Tid, task: Task)   // a producer pushes; a full queue refuses
    | Write(t: Tid)              // and writes its byte, refused or not
    | ReadPipe                   // the loop sees the pipe readable and reads
    | Pop                        // the drain loop tries the queue
    | CallFromTask(task: Task)   // the running task calls safeCall: push
    | WriteFromTask              // and write
    | Finish                     // the running task returns

  predicate Full(s: State) { s.capacity > 0 && |s.queue| >= s.capacity }

  predicate Enabled(s: State, a: Action) {
    match a
    case Push(t, _) => t in s.producers && s.producers[t].Idle?
    case Write(t) => t in s.producers && s.producers[t].MustWrite?
    case ReadPipe => s.loop.Polling? && s.pipe > 0
    case Pop => s.loop.Draining?
    case CallFromTask(_) => s.loop.Running?
    case WriteFromTask => s.loop.RunningMustWrite?
    case Finish => s.loop.Running?
  }

  function Enqueue(s: State, task: Task): State {
    if Full(s) then s else s.(queue := s.queue + [task], accepted := s.accepted + [task])
  }

  function Next(s: State, a: Action): State
    requires Enabled(s, a)
  {
    match a
    case Push(t, task) => Enqueue(s, task).(producers := s.producers[t := MustWrite])
    case Write(t) => s.(pipe := s.pipe + 1, producers := s.producers[t := Idle])
    case ReadPipe => s.(pipe := if s.pipe > READ_SIZE then s.pipe - READ_SIZE else 0, loop := Draining)
    case Pop =>
      if s.queue == [] then s.(loop := Polling) else s.(queue := s.queue[1..], loop := Running(s.queue[0]))
    case CallFromTask(task) => Enqueue(s, task).(loop := RunningMustWrite(s.loop.task))
    case WriteFromTask => s.(pipe := s.pipe + 1, loop := Running(s.loop.task))
    case Finish => s.(executed := s.executed + [s.loop.task], loop := Draining)
  }

  function Start(threads: set<Tid>, capacity: nat): State {
    State([], 0, map t | t in threads :: Idle, Polling, capacity, [], [])
  }

  /** The task the loop is in the middle of. */
  function InFlight(s: State): seq<Task> {
    if s.loop.Running? || s.loop.RunningMustWrite? then [s.loop.task] else []
  }

  /** A queued task is announced: a byte is in the pipe or about to be, or the loop is not done draining. */
  predicate Announced(s: State) {
    s.queue != [] ==>
      s.pipe > 0 || (exists t :: t in s.producers && s.producers[t] == MustWrite) || !s.loop.Polling?
  }

  predicate Inv(s: State) {
    && Announced(s)
    && s.accepted == s.executed + InFlight(s) + s.queue
    && (s.capacity > 0 ==> |s.queue| <= s.capacity)
  }

  lemma InvKept(s: State, a: Action)
    requires Inv(s) && Enabled(s, a)
    ensures Inv(Next(s, a))
  {
    var n := Next(s, a);
    if a.Push? {
      assert n.producers[a.t] == MustWrite;
    } else if a.ReadPipe? || a.WriteFromTask? || a.CallFromTask? || a.Finish? {
      assert !n.loop.Polling?;
    } else if a.Pop? && s.queue != [] {
      assert s.queue == [s.queue[0]] + s.queue[1..];
    }
  }

  predicate Allowed(s: State, actions: seq<Action>)
    decreases |actions|
  {
    actions == [] || (Enabled(s, actions[0]) && Allowed(Next(s, actions[0]), actions[1..]))
  }

  function Run(s: State, actions: seq<Action>): State
    requires Allowed(s, actions)
    decreases |actions|
  {
    if actions == [] then s else Run(Next(s, actions[0]), actions[1..])
  }

  lemma {:induction false} RunKeepsInv(s: State, actions: seq<Action>)
    requires Inv(s) && Allowed(s, actions)
    ensures Inv(Run(s, actions))
    decreases |actions|
  {
    if actions != [] {
      InvKept(s, actions[0]);
      RunKeepsInv(Next(s, actions[0]), actions[1..]);
    }
  }

  /**
   * In every interleaving: the tasks executed, then the one in flight, then the queue, are the accepted tasks in
   * order; and while a task is queued the loop is going to look at the queue again.
   */
  lemma NoTaskIsLost(threads: set<Tid>, capacity: nat, actions: seq<Action>)
    requires Allowed(Start(threads, capacity), actions)
    ensures
      var s := Run(Start(threads, capacity), actions);
      && s.accepted == s.executed + InFlight(s) + s.queue
      && (s.queue != [] ==>
            s.pipe > 0 || (exists t :: t in s.producers && s.producers[t] == MustWrite) || !s.loop.Polling?)
  {
    RunKeepsInv(Start(threads, capacity), actions);
  }

  lemma {:induction false} RunKeepsCapacity(s: State, actions: seq<Action>)
    requires Allowed(s, actions)
    ensures Run(s, actions).capacity == s.capacity
    decreases |actions|
  {
    if actions != [] { RunKeepsCapacity(Next(s, actions[0]), actions[1..]); }
  }

  /** safeCall, from another thread or from the running task. */
  predicate Calls(a: Action, task: Task) { (a.Push? || a.CallFromTask?) && a.task == task }

  /**
   * In every reachable state safeCall appends exactly its own task, and its caller goes on to write its byte, if the
   * queue has no bound (capacity 0) or is below it; otherwise nothing is accepted, though the byte is still written.
   */
  lemma SafeCallAppendsExactly(threads: set<Tid>, capacity: nat, actions: seq<Action>, a: Action, task: Task)
    requires Allowed(Start(threads, capacity), actions) && Calls(a, task)
    requires Enabled(Run(Start(threads, capacity), actions), a)
    ensures
      var s := Run(Start(threads, capacity), actions);
      var n := Next(s, a);
      var more := if capacity == 0 || |s.queue| < capacity then [task] else [];
      && n.accepted == s.accepted + more && n.queue == s.queue + more && n.executed == s.executed
      && n.pipe == s.pipe && InFlight(n) == InFlight(s)
      && (if a.Push? then Enabled(n, Write(a.t)) && Next(n, Write(a.t)).pipe == s.pipe + 1
          else Enabled(n, WriteFromTask) && Next(n, WriteFromTask).pipe == s.pipe + 1)
  {
    RunKeepsCapacity(Start(threads, capacity), actions);
  }

  // ----- The loop gets there -----

  /** The loop thread's own next step; there is none only when it waits with an empty pipe. */
  function LoopStep(s: State): (a: Action)
    requires !s.loop.Polling? || s.pipe > 0
    ensures Enabled(s, a)
  {
    match s.loop
    case Polling => ReadPipe
    case Draining => Pop
    case Running(_) => Finish
    case RunningMustWrite(_) => WriteFromTask
  }

  /** Steps the loop still has before it waits on an empty pipe, if nobody adds anything. */
  function Distance(s: State): nat {
    2 * s.pipe + 2 * |s.queue| +
    (match s.loop case Polling => 0 case Draining => 1 case Running(_) => 2 case RunningMustWrite(_) => 5)
  }

  /** The loop thread alone, until it waits on an empty pipe. */
  function Settle(s: State): State
    decreases Distance(s)
  {
    if s.loop.Polling? && s.pipe == 0 then s else Settle(Next(s, LoopStep(s)))
  }

  /** With no producer in between its two steps, the loop alone brings every accepted task to execution. */
  lemma {:induction false} LoopExecutesEverything(s: State)
    requires Inv(s) && forall t | t in s.producers :: s.producers[t].Idle?
    ensures Settle(s).queue == [] && Settle(s).executed == s.accepted && Settle(s).accepted == s.accepted
    decreases Distance(s)
  {
    if s.loop.Polling? && s.pipe == 0 {
      assert s.queue == [];
    } else {
      InvKept(s, LoopStep(s));
      LoopExecutesEverything(Next(s, LoopStep(s)));
    }
  }

  /** How often the loop thread, alone, comes back to the pipe. */
  function Reads(s: State): nat
    decreases Distance(s)
  {
    if s.loop.Polling? && s.pipe == 0 then 0
    else (if s.loop.Polling? then 1 else 0) + Reads(Next(s, LoopStep(s)))
  }

  /** The loop comes back once for every 1024 bytes in the pipe, however many tasks there are. */
  lemma {:induction false} ReadsExactly(s: State)
    ensures Reads(s) == (s.pipe + (if s.loop.RunningMustWrite? then 1 else 0) + 1023) / 1024
    decreases Distance(s)
  {
    if !(s.loop.Polling? && s.pipe == 0) { ReadsExactly(Next(s, LoopStep(s))); }
  }
}
