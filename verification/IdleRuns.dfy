/** What idle callbacks are for, over whole runs: who is called with what, and when. */
module IdleRuns {
  import opened IdleLists

  // ----- What each operation does to a list -----

  /** The nodes of a list with another handle, in their order. */
  function Others(list: seq<Node>, id: nat): seq<Node> {
    if list == [] then [] else (if list[0].id != id then [list[0]] else []) + Others(list[1..], id)
  }

  lemma {:induction false} OthersOfNone(list: seq<Node>, id: nat)
    requires forall n | n in list :: n.id != id
    ensures Others(list, id) == list
    decreases |list|
  {
    if list != [] {
      assert list[0] in list;
      OthersOfNone(list[1..], id);
    }
  }

  lemma {:induction false} ErasedAreOthers(list: seq<Node>, i: nat)
    requires i < |list| && Distinct(list)
    ensures Erase(list, i) == Others(list, list[i].id)
    decreases i
  {
    var id := list[i].id;
    if i == 0 {
      OthersOfNone(list[1..], id);
      assert Erase(list, 0) == list[1..];
    } else {
      ErasedAreOthers(list[1..], i - 1);
      assert Erase(list, i) == [list[0]] + Erase(list[1..], i - 1);
    }
  }

  /** The list an operation is about. */
  function KeyOf(a: Act): int { if a.Register? then a.idle else a.id.idle }

  /** The node that a handle names. */
  predicate Names(s: State, id: IdleId, n: Node) { n.id == id.id && n in List(s, id.idle) }

  lemma OneNode(s: State, id: IdleId, n: Node, m: Node)
    requires Inv(s) && Names(s, id, n) && Names(s, id, m)
    ensures n == m
  {
  }

  /**
   * A registration puts a new node with its connection and the time at the end of its list; an update takes the
   * handle's node from its place to the end, with the same connection and the new time; to unregister only takes it
   * away. The other nodes keep their order, and the other lists do not change.
   */
  lemma ActsMean(s: State, a: Act, n: Node)
    requires Inv(s) && Legal(s, a) && (a.Register? || Names(s, a.id, n))
    ensures
      var t, list := Do(s, a), List(s, KeyOf(a));
      && (forall k | k != KeyOf(a) :: List(t, k) == List(s, k))
      && (a.Register? ==> !IsLive(s, IdleId(a.idle, s.nextId)))
      && List(t, KeyOf(a)) ==
         match a
         case Register(_, con, now) => list + [Node(s.nextId, con, now)]
         case Unregister(id) => Others(list, id.id)
         case Update(id, now) => (Others(list, id.id) + [Node(id.id, n.con, now)])
  {
    var list := List(s, KeyOf(a));
    assert ListOk(list, s.nextId, s.clock);
    if a.Register? {
      var i := Find(list, s.nextId);
      assert forall j | 0 <= j < |list| :: list[j] in list;
    } else {
      var i := Find(list, a.id.id);
      OneNode(s, a.id, n, list[i]);
      ErasedAreOthers(list, i);
    }
  }

  // ----- Runs of calls and rounds -----

  datatype Op = Make(a: Act) | Tick(keys: seq<int>, now: int, env: Env)

  function Step(s: State, op: Op): State {
    match op
    case Make(a) => Do(s, a)
    case Tick(keys, now, env) => Round(s, keys, now, env, 0).0
  }

  function Run(s: State, ops: seq<Op>): State
    decreases |ops|
  {
    if ops == [] then s else Run(Step(s, ops[0]), ops[1..])
  }

  /** What `n` callbacks do, put together. */
  function Joined(env: Env, k: nat, n: nat): seq<Act>
    decreases n
  {
    if n == 0 then [] else env(k) + Joined(env, k + 1, n - 1)
  }

  lemma {:induction false} DoAllConcat(s: State, a: seq<Act>, b: seq<Act>)
    ensures DoAll(s, a + b) == DoAll(DoAll(s, a), b)
    decreases |a|
  {
    if a == [] {
      assert a + b == b;
    } else {
      assert (a + b)[1..] == a[1..] + b;
      DoAllConcat(Do(s, a[0]), a[1..], b);
    }
  }

  lemma {:induction false} JoinedConcat(env: Env, k: nat, m: nat, n: nat)
    ensures Joined(env, k, m + n) == Joined(env, k, m) + Joined(env, k + m, n)
    decreases m
  {
    if m > 0 { JoinedConcat(env, k + 1, m - 1, n); }
  }

  lemma {:induction false} EffectsAreJoined(s: State, env: Env, k: nat, n: nat)
    ensures Effects(s, env, k, n) == DoAll(s, Joined(env, k, n))
    decreases n
  {
    if n > 0 {
      EffectsAreJoined(DoAll(s, env(k)), env, k + 1, n - 1);
      DoAllConcat(s, env(k), Joined(env, k + 1, n - 1));
    }
  }

  /** What a round does to the lists is what its callbacks do, one for each call, in the order of the calls. */
  lemma {:induction false} EveryCallRunsItsCallback(s: State, keys: seq<int>, now: int, env: Env, k: nat)
    ensures
      var (t, log) := Round(s, keys, now, env, k);
      t == DoAll(s, Joined(env, k, |log|))
    decreases |keys|
  {
    hide DueNodes, List, Effects;
    if keys != [] {
      var n := |DueNodes(List(s, keys[0]), keys[0], now)|;
      var u := Effects(s, env, k, n);
      EffectsAreJoined(s, env, k, n);
      EveryCallRunsItsCallback(u, keys[1..], now, env, k + n);
      var rest := Round(u, keys[1..], now, env, k + n).1;
      JoinedConcat(env, k, n, |rest|);
      DoAllConcat(s, Joined(env, k, n), Joined(env, k + n, |rest|));
    }
  }

  /** Nothing that happens unregisters or updates the handle. */
  ghost predicate Spared(op: Op, id: IdleId) {
    match op
    case Make(a) => Spares([a], id)
    case Tick(_, _, env) => forall j: nat :: Spares(env(j), id)
  }

  lemma {:induction false} RoundKeepsInv(s: State, keys: seq<int>, now: int, env: Env, k: nat)
    requires Inv(s)
    ensures Inv(Round(s, keys, now, env, k).0)
    decreases |keys|
  {
    hide Inv, DueNodes, List, Effects;
    if keys != [] {
      var n := |DueNodes(List(s, keys[0]), keys[0], now)|;
      EffectsKeepInv(s, env, k, n);
      RoundKeepsInv(Effects(s, env, k, n), keys[1..], now, env, k + n);
    }
  }

  lemma StepKeepsInv(s: State, op: Op)
    requires Inv(s)
    ensures Inv(Step(s, op))
  {
    hide Inv, Round, Do;
    match op
    case Make(a) => DoKeepsInv(s, a);
    case Tick(keys, now, env) => RoundKeepsInv(s, keys, now, env, 0);
  }

  lemma {:induction false} RoundSpares(s: State, keys: seq<int>, now: int, env: Env, k: nat, key: int, n: Node)
    requires n in List(s, key) && forall j: nat :: Spares(env(j), IdleId(key, n.id))
    ensures n in List(Round(s, keys, now, env, k).0, key)
    decreases |keys|
  {
    hide DueNodes, List, Effects, Spares;
    if keys != [] {
      var m := |DueNodes(List(s, keys[0]), keys[0], now)|;
      EffectsSpare(s, env, k, m, key, n);
      RoundSpares(Effects(s, env, k, m), keys[1..], now, env, k + m, key, n);
    }
  }

  lemma {:induction false} RunSpares(s: State, ops: seq<Op>, id: IdleId, n: Node)
    requires Inv(s) && Names(s, id, n) && forall op | op in ops :: Spared(op, id)
    ensures Inv(Run(s, ops)) && Names(Run(s, ops), id, n)
    decreases |ops|
  {
    hide Inv, Round, List;
    if ops != [] {
      assert Spared(ops[0], id);
      StepKeepsInv(s, ops[0]);
      match ops[0] {
        case Make(a) =>
          assert a in [a];
          DoSpares(s, a, id.idle, n);
        case Tick(keys, now, env) => RoundSpares(s, keys, now, env, 0, id.idle, n);
      }
      RunSpares(Step(s, ops[0]), ops[1..], id, n);
    }
  }

  predicate IsCall(c: Call, id: IdleId) { c.idle == id.idle && c.node.id == id.id }

  /** Every call of a spared handle is of its own node. */
  lemma {:induction false} SparedCallsAreOwn(s: State, keys: seq<int>, now: int, env: Env, k: nat, id: IdleId, n: Node)
    requires Inv(s) && Names(s, id, n) && forall j: nat :: Spares(env(j), id)
    ensures forall c | c in Round(s, keys, now, env, k).1 && IsCall(c, id) ::
      c.node == n && id.idle in keys && Due(n, id.idle, now)
    decreases |keys|
  {
    hide Inv, DueNodes, Calls, Effects, Spares, Due;
    if keys != [] {
      var due := DueNodes(List(s, keys[0]), keys[0], now);
      var t := Effects(s, env, k, |due|);
      EffectsKeepInv(s, env, k, |due|);
      EffectsSpare(s, env, k, |due|, id.idle, n);
      SparedCallsAreOwn(t, keys[1..], now, env, k + |due|, id, n);
      forall c | c in Calls(keys[0], due) && IsCall(c, id)
        ensures c.node == n && id.idle in keys && Due(n, id.idle, now)
      {
        CallsAre(keys[0], due, c.idle, c.node);
        DueNodesAre(List(s, keys[0]), keys[0], now, c.node);
        OneNode(s, id, n, c.node);
      }
    }
  }

  /**
   * The point of it all. A connection that is registered, or whose handle is updated, at time `u`, is called in a later
   * round if and only if it has then been idle for its list's time, whatever else has happened in between and whatever
   * callbacks do to others; and the call is with the connection that was registered.
   */
  lemma CalledWhenIdleExactly(s: State, a: Act, n: Node, ops: seq<Op>, keys: seq<int>, now: int, env: Env)
    requires Inv(s) && Legal(s, a) && !a.Unregister? && (a.Register? || Names(s, a.id, n))
    requires
      var id := if a.Register? then IdleId(a.idle, s.nextId) else a.id;
      (forall op | op in ops :: Spared(op, id)) && forall j: nat :: Spares(env(j), id)
    ensures
      var id := if a.Register? then IdleId(a.idle, s.nextId) else a.id;
      var con := if a.Register? then a.con else n.con;
      var log := Round(Run(Do(s, a), ops), keys, now, env, 0).1;
      && (forall c | c in log && IsCall(c, id) :: c.node == Node(id.id, con, a.now))
      && ((exists c :: c in log && IsCall(c, id)) <==> id.idle in keys && a.now + id.idle <= now)
  {
    var id := if a.Register? then IdleId(a.idle, s.nextId) else a.id;
    var m := Node(id.id, if a.Register? then a.con else n.con, a.now);
    ActsMean(s, a, n);
    DoKeepsInv(s, a);
    var t := Do(s, a);
    assert Names(t, id, m) by { assert List(t, id.idle)[|List(t, id.idle)| - 1] == m; }
    hide Inv, Round, Do, List, Run, Spared, Spares;
    RunSpares(t, ops, id, m);
    var u := Run(t, ops);
    SparedCallsAreOwn(u, keys, now, env, 0, id, m);
    if id.idle in keys && a.now + id.idle <= now {
      SparedNodesAreCalled(u, keys, now, env, 0, id.idle, m);
      assert IsCall(Call(id.idle, m), id);
    }
  }

  // ----- Nothing is called after it has been unregistered -----

  predicate Gone(s: State, id: IdleId) {
    id.id < s.nextId && forall n | n in List(s, id.idle) :: n.id != id.id
  }

  lemma DoKeepsGone(s: State, a: Act, id: IdleId)
    requires Inv(s) && Gone(s, id)
    ensures Gone(Do(s, a), id)
  {
    if Legal(s, a) && KeyOf(a) == id.idle {
      var list := List(s, id.idle);
      forall n | n in List(Do(s, a), id.idle) ensures n.id != id.id {
        if !a.Register? {
          var i := Find(list, a.id.id);
          assert list[i] in list;
          assert n in Erase(list, i) ==> n in list;
        }
      }
    }
  }

  lemma {:induction false} DoAllKeepsGone(s: State, acts: seq<Act>, id: IdleId)
    requires Inv(s) && Gone(s, id)
    ensures Gone(DoAll(s, acts), id)
    decreases |acts|
  {
    hide Inv, Gone, Do;
    if acts != [] {
      DoKeepsInv(s, acts[0]);
      DoKeepsGone(s, acts[0], id);
      DoAllKeepsGone(Do(s, acts[0]), acts[1..], id);
    }
  }

  lemma {:induction false} EffectsKeepGone(s: State, env: Env, k: nat, n: nat, id: IdleId)
    requires Inv(s) && Gone(s, id)
    ensures Gone(Effects(s, env, k, n), id)
    decreases n
  {
    hide Inv, Gone;
    if n > 0 {
      DoAllKeepsInv(s, env(k));
      DoAllKeepsGone(s, env(k), id);
      EffectsKeepGone(DoAll(s, env(k)), env, k + 1, n - 1, id);
    }
  }

  lemma {:induction false} GoneIsNotCalled(s: State, keys: seq<int>, now: int, env: Env, k: nat, id: IdleId)
    requires Inv(s) && Gone(s, id)
    ensures
      var (t, log) := Round(s, keys, now, env, k);
      Gone(t, id) && forall c | c in log :: !IsCall(c, id)
    decreases |keys|
  {
    hide Inv, DueNodes, Calls, Effects;
    if keys != [] {
      var due := DueNodes(List(s, keys[0]), keys[0], now);
      EffectsKeepInv(s, env, k, |due|);
      EffectsKeepGone(s, env, k, |due|, id);
      GoneIsNotCalled(Effects(s, env, k, |due|), keys[1..], now, env, k + |due|, id);
      forall c | c in Calls(keys[0], due) ensures !IsCall(c, id) {
        CallsAre(keys[0], due, c.idle, c.node);
        DueNodesAre(List(s, keys[0]), keys[0], now, c.node);
      }
    }
  }

  lemma {:induction false} RunKeepsGone(s: State, ops: seq<Op>, id: IdleId)
    requires Inv(s) && Gone(s, id)
    ensures Inv(Run(s, ops)) && Gone(Run(s, ops), id)
    decreases |ops|
  {
    hide Inv, Gone, Round, Do;
    if ops != [] {
      StepKeepsInv(s, ops[0]);
      match ops[0] {
        case Make(a) => DoKeepsGone(s, a, id);
        case Tick(keys, now, env) => GoneIsNotCalled(s, keys, now, env, 0, id);
      }
      RunKeepsGone(Step(s, ops[0]), ops[1..], id);
    }
  }

  /** Once a handle has been unregistered no later round calls it, whatever happens. */
  lemma UnregisteredIsNotCalled(s: State, id: IdleId, ops: seq<Op>, keys: seq<int>, now: int, env: Env)
    requires Inv(s) && Legal(s, Unregister(id))
    ensures forall c | c in Round(Run(Do(s, Unregister(id)), ops), keys, now, env, 0).1 :: !IsCall(c, id)
  {
    var list := List(s, id.idle);
    var i := Find(list, id.id);
    var t := Do(s, Unregister(id));
    assert ListOk(list, s.nextId, s.clock) && list[i] in list;
    EraseOk(list, s.nextId, s.clock, i);
    assert Gone(t, id);
    DoKeepsInv(s, Unregister(id));
    hide Inv, Gone, Round, Do, Run;
    RunKeepsGone(t, ops, id);
    GoneIsNotCalled(Run(t, ops), keys, now, env, 0, id);
  }
}
