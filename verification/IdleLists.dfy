/** Idle callbacks: one list of connections for each idle time, least recently active first. */
module IdleLists {
  /** A list node; `id` stands for the iterator that an IdleId keeps. */
  datatype Node = Node(id: nat, con: nat, updated: int)

  datatype IdleId = IdleId(idle: int, id: nat)

  /** The lists by idle time in seconds, the next node to be made, and the latest clock reading, in seconds. */
  datatype State = State(lists: map<int, seq<Node>>, nextId: nat, clock: int)

  datatype Act = Register(idle: int, con: nat, now: int) | Unregister(id: IdleId) | Update(id: IdleId, now: int)

  /** What the k-th idle callback does to the lists. */
  type Env = nat -> seq<Act>

  function List(s: State, idle: int): seq<Node> { if idle in s.lists then s.lists[idle] else [] }

  /** Position of the node `id`, or the length. */
  function Find(list: seq<Node>, id: nat): (i: nat)
    ensures i <= |list|
    ensures i < |list| ==> list[i].id == id
    ensures forall j | 0 <= j < i :: list[j].id != id
  {
    if list == [] then 0 else if list[0].id == id then 0 else
      var i := Find(list[1..], id);
      assert forall j | 0 < j < i + 1 :: list[j] == list[1..][j - 1];
      i + 1
  }

  predicate IsLive(s: State, id: IdleId) { Find(List(s, id.idle), id.id) < |List(s, id.idle)| }

  predicate Legal(s: State, a: Act) {
    match a
    case Register(_, _, now) => now >= s.clock
    case Unregister(id) => IsLive(s, id)
    case Update(id, now) => IsLive(s, id) && now >= s.clock
  }

  function Erase(list: seq<Node>, i: nat): seq<Node>
    requires i < |list|
  {
    list[..i] + list[i + 1..]
  }

  /** A call with a dead handle or an older clock is not one the program makes; the model takes it as not made. */
  function Do(s: State, a: Act): State {
    if !Legal(s, a) then s
    else match a
      case Register(idle, con, now) =>
        State(s.lists[idle := List(s, idle) + [Node(s.nextId, con, now)]], s.nextId + 1, now)
      case Unregister(id) =>
        var list := List(s, id.idle);
        s.(lists := s.lists[id.idle := Erase(list, Find(list, id.id))])
      case Update(id, now) =>
        var list := List(s, id.idle);
        var i := Find(list, id.id);
        s.(lists := s.lists[id.idle := Erase(list, i) + [list[i].(updated := now)]], clock := now)
  }

  function DoAll(s: State, acts: seq<Act>): State
    decreases |acts|
  {
    if acts == [] then s else DoAll(Do(s, acts[0]), acts[1..])
  }

  // ----- Sorted lists with one node for each handle -----

  predicate Sorted(list: seq<Node>) {
    forall i, j | 0 <= i < j < |list| :: list[i].updated <= list[j].updated
  }

  predicate Distinct(list: seq<Node>) {
    forall i, j | 0 <= i < j < |list| :: list[i].id != list[j].id
  }

  predicate Within(list: seq<Node>, limit: nat, clock: int) {
    forall n | n in list :: n.id < limit && n.updated <= clock
  }

  predicate ListOk(list: seq<Node>, limit: nat, clock: int) {
    Sorted(list) && Distinct(list) && Within(list, limit, clock)
  }

  predicate Disjoint(a: seq<Node>, b: seq<Node>) {
    forall i, j | 0 <= i < |a| && 0 <= j < |b| :: a[i].id != b[j].id
  }

  predicate Inv(s: State) {
    && (forall k | k in s.lists :: ListOk(s.lists[k], s.nextId, s.clock))
    && (forall k, l | k in s.lists && l in s.lists && k != l :: Disjoint(s.lists[k], s.lists[l]))
  }

  lemma AppendOk(list: seq<Node>, limit: nat, clock: int, n: Node, now: int)
    requires ListOk(list, limit, clock) && n.updated == now >= clock
    requires forall o | o in list :: o.id != n.id
    ensures ListOk(list + [n], if n.id < limit then limit else n.id + 1, now)
  {
    var r := list + [n];
    forall i, j | 0 <= i < j < |r| ensures r[i].updated <= r[j].updated && r[i].id != r[j].id {
      assert r[i] == list[i] && list[i] in list;
      if j < |list| { assert r[j] == list[j]; }
    }
  }

  lemma EraseOk(list: seq<Node>, limit: nat, clock: int, i: nat)
    requires ListOk(list, limit, clock) && i < |list|
    ensures ListOk(Erase(list, i), limit, clock)
    ensures forall n | n in Erase(list, i) :: n in list && n.id != list[i].id
  {
    var r := Erase(list, i);
    assert forall k | 0 <= k < |r| :: r[k] == list[if k < i then k else k + 1];
    forall n | n in r ensures n in list && n.id != list[i].id {
      var k :| 0 <= k < |r| && r[k] == n;
    }
  }

  lemma WithinMore(list: seq<Node>, limit: nat, clock: int, limit': nat, clock': int)
    requires ListOk(list, limit, clock) && limit <= limit' && clock <= clock'
    ensures ListOk(list, limit', clock')
  {
  }

  /** The list an operation writes to, and the facts about its nodes that keep it apart from the others. */
  lemma DoKeepsInv(s: State, a: Act)
    requires Inv(s)
    ensures Inv(Do(s, a))
  {
    if Legal(s, a) {
      var t := Do(s, a);
      var key := if a.Register? then a.idle else a.id.idle;
      var list := List(s, key);
      assert ListOk(list, s.nextId, s.clock);
      if a.Register? {
        AppendOk(list, s.nextId, s.clock, Node(s.nextId, a.con, a.now), a.now);
      } else {
        var i := Find(list, a.id.id);
        EraseOk(list, s.nextId, s.clock, i);
        if a.Update? {
          assert list[i] in list;
          AppendOk(Erase(list, i), s.nextId, s.clock, list[i].(updated := a.now), a.now);
        }
      }
      assert ListOk(t.lists[key], t.nextId, t.clock);
      forall n | n in t.lists[key] ensures n.id == s.nextId || exists j :: 0 <= j < |list| && list[j].id == n.id {
        WhereFrom(s, a, n);
      }
      OneListChanged(s, t, key);
    }
  }

  lemma WhereFrom(s: State, a: Act, n: Node)
    requires Legal(s, a)
    requires var key := if a.Register? then a.idle else a.id.idle; n in Do(s, a).lists[key]
    ensures var list := List(s, if a.Register? then a.idle else a.id.idle);
      (a.Register? && n.id == s.nextId) || exists j :: 0 <= j < |list| && list[j].id == n.id
  {
    var list := List(s, if a.Register? then a.idle else a.id.idle);
    var r := Do(s, a).lists[if a.Register? then a.idle else a.id.idle];
    var k :| 0 <= k < |r| && r[k] == n;
    if a.Register? {
      assert k < |list| ==> list[k].id == n.id;
    } else {
      var i := Find(list, a.id.id);
      assert list[if k < i then k else if k + 1 < |list| then k + 1 else i].id == n.id;
    }
  }

  lemma OneListChanged(s: State, t: State, key: int)
    requires Inv(s) && s.nextId <= t.nextId && s.clock <= t.clock && key in t.lists
    requires t.lists == s.lists[key := t.lists[key]] && ListOk(t.lists[key], t.nextId, t.clock)
    requires forall n | n in t.lists[key] ::
      n.id == s.nextId || exists j :: 0 <= j < |List(s, key)| && List(s, key)[j].id == n.id
    ensures Inv(t)
  {
    forall k | k in t.lists ensures ListOk(t.lists[k], t.nextId, t.clock) {
      if k != key { WithinMore(s.lists[k], s.nextId, s.clock, t.nextId, t.clock); }
    }
    forall l | l in t.lists && l != key
      ensures Disjoint(t.lists[key], t.lists[l]) && Disjoint(t.lists[l], t.lists[key])
    {
      forall i, j | 0 <= i < |t.lists[key]| && 0 <= j < |t.lists[l]| ensures t.lists[key][i].id != t.lists[l][j].id {
        assert t.lists[key][i] in t.lists[key] && t.lists[l][j] in s.lists[l];
      }
    }
  }

  lemma {:induction false} DoAllKeepsInv(s: State, acts: seq<Act>)
    requires Inv(s)
    ensures Inv(DoAll(s, acts))
    decreases |acts|
  {
    hide Inv;
    if acts != [] {
      DoKeepsInv(s, acts[0]);
      DoAllKeepsInv(Do(s, acts[0]), acts[1..]);
    }
  }

  const EMPTY := State(map[], 0, 0)

  /** Along every run with a clock that does not go back, each list stays sorted and each handle names one node. */
  lemma {:induction false} EveryRunIsSorted(acts: seq<Act>)
    ensures
      var s := DoAll(EMPTY, acts);
      && (forall k | k in s.lists :: Sorted(s.lists[k]) && Distinct(s.lists[k]))
      && (forall k, l | k in s.lists && l in s.lists && k != l :: Disjoint(s.lists[k], s.lists[l]))
  {
    DoAllKeepsInv(EMPTY, acts);
  }

  // ----- Calling the idle connections of one list -----

  predicate Due(n: Node, idle: int, now: int) { n.updated + idle <= now }

  /** Stamps the first node and moves it to the end. */
  function Turn(list: seq<Node>, now: int): seq<Node>
    requires list != []
  {
    list[1..] + [list[0].(updated := now)]
  }

  function DueNodes(list: seq<Node>, idle: int, now: int): seq<Node> {
    if list == [] then []
    else (if Due(list[0], idle, now) then [list[0]] else []) + DueNodes(list[1..], idle, now)
  }

  lemma {:induction false} DueConcat(a: seq<Node>, b: seq<Node>, idle: int, now: int)
    ensures DueNodes(a + b, idle, now) == DueNodes(a, idle, now) + DueNodes(b, idle, now)
    decreases |a|
  {
    if a == [] {
      assert a + b == b;
    } else {
      assert (a + b)[0] == a[0] && (a + b)[1..] == a[1..] + b;
      DueConcat(a[1..], b, idle, now);
      var first := if Due(a[0], idle, now) then [a[0]] else [];
      hide DueNodes;
      assert first + (DueNodes(a[1..], idle, now) + DueNodes(b, idle, now))
          == first + DueNodes(a[1..], idle, now) + DueNodes(b, idle, now);
    }
  }

  lemma TurnServes(list: seq<Node>, idle: int, now: int)
    requires list != [] && Due(list[0], idle, now) && idle > 0
    ensures DueNodes(list, idle, now) == [list[0]] + DueNodes(Turn(list, now), idle, now)
  {
    DueConcat(list[1..], [list[0].(updated := now)], idle, now);
    assert DueNodes([list[0].(updated := now)], idle, now) == [];
  }

  /** The due nodes come first, whatever the order of the others. */
  predicate DueFirst(list: seq<Node>, idle: int, now: int) {
    forall i, j | 0 <= i < j < |list| && Due(list[j], idle, now) :: Due(list[i], idle, now)
  }

  lemma {:induction false} FreshFront(list: seq<Node>, idle: int, now: int)
    requires DueFirst(list, idle, now) && (list != [] ==> !Due(list[0], idle, now))
    ensures DueNodes(list, idle, now) == []
    decreases |list|
  {
    if list != [] {
      assert list[1..] != [] ==> !Due(list[1], idle, now);
      FreshFront(list[1..], idle, now);
    }
  }

  /** The walk over a copy of one list: calls due nodes from the front until it meets a fresh one. */
  method CallList(list: seq<Node>, idle: int, now: int) returns (called: seq<Node>)
    requires idle > 0 && Sorted(list)
    ensures called == DueNodes(list, idle, now)
  {
    var lst := list;
    called := [];
    while lst != []
      invariant DueFirst(lst, idle, now)
      invariant called + DueNodes(lst, idle, now) == DueNodes(list, idle, now)
      decreases |DueNodes(lst, idle, now)|
    {
      var node := lst[0];
      if node.updated + idle > now {
        break;
      }
      TurnServes(lst, idle, now);
      assert called + ([node] + DueNodes(Turn(lst, now), idle, now))
          == called + [node] + DueNodes(Turn(lst, now), idle, now);
      called := called + [node];
      lst := lst[1..] + [node.(updated := now)];
    }
    FreshFront(lst, idle, now);
  }

  /** The list after `n` turns of the walk, if it gets that far. */
  function After(list: seq<Node>, idle: int, now: int, n: nat): seq<Node>
    decreases n
  {
    if n == 0 || list == [] || !Due(list[0], idle, now) then list else After(Turn(list, now), idle, now, n - 1)
  }

  predicate Stops(list: seq<Node>, idle: int, now: int) { list == [] || !Due(list[0], idle, now) }

  lemma {:induction false} NeverStops(list: seq<Node>, idle: int, now: int, n: nat)
    requires idle <= 0 && list != [] && forall m | m in list :: m.updated <= now
    ensures !Stops(After(list, idle, now, n), idle, now)
    decreases n
  {
    assert list[0] in list;
    if n > 0 {
      forall m | m in Turn(list, now) ensures m.updated <= now {
        assert m in list || m == list[0].(updated := now);
      }
      NeverStops(Turn(list, now), idle, now, n - 1);
    }
  }

  lemma {:induction false} StopsInTime(list: seq<Node>, idle: int, now: int)
    requires idle > 0
    ensures Stops(After(list, idle, now, |DueNodes(list, idle, now)|), idle, now)
    decreases |DueNodes(list, idle, now)|
  {
    if !Stops(list, idle, now) {
      TurnServes(list, idle, now);
      StopsInTime(Turn(list, now), idle, now);
    }
  }

  /** The walk over a list no newer than the clock ends exactly when the idle time is positive or the list is empty. */
  lemma WalkEndsExactly(list: seq<Node>, idle: int, now: int)
    requires forall m | m in list :: m.updated <= now
    ensures (exists n: nat :: Stops(After(list, idle, now, n), idle, now)) <==> (idle > 0 || list == [])
  {
    if idle > 0 {
      StopsInTime(list, idle, now);
      var n := |DueNodes(list, idle, now)|;
      assert Stops(After(list, idle, now, n), idle, now);
      assert exists m: nat :: Stops(After(list, idle, now, m), idle, now);
    } else if list == [] {
      assert Stops(After(list, idle, now, 0), idle, now);
      assert exists n: nat :: Stops(After(list, idle, now, n), idle, now);
    } else if exists n: nat :: Stops(After(list, idle, now, n), idle, now) {
      var n: nat :| Stops(After(list, idle, now, n), idle, now);
      NeverStops(list, idle, now, n);
      assert false;
    }
  }

  // ----- All lists, with callbacks that change them -----

  datatype Call = Call(idle: int, node: Node)

  function Calls(idle: int, nodes: seq<Node>): (r: seq<Call>)
    ensures |r| == |nodes| && forall i | 0 <= i < |r| :: r[i] == Call(idle, nodes[i])
  {
    if nodes == [] then [] else [Call(idle, nodes[0])] + Calls(idle, nodes[1..])
  }

  /** What `n` callbacks in a row do, the first being the k-th of the round. */
  function Effects(s: State, env: Env, k: nat, n: nat): State
    decreases n
  {
    if n == 0 then s else Effects(DoAll(s, env(k)), env, k + 1, n - 1)
  }

  /** A round over the given idle times: each list as it is when the round comes to it. */
  function Round(s: State, keys: seq<int>, now: int, env: Env, k: nat): (State, seq<Call>)
    decreases |keys|
  {
    if keys == [] then (s, [])
    else
      var due := DueNodes(List(s, keys[0]), keys[0], now);
      var (t, rest) := Round(Effects(s, env, k, |due|), keys[1..], now, env, k + |due|);
      (t, Calls(keys[0], due) + rest)
  }

  lemma {:induction false} EffectsKeepInv(s: State, env: Env, k: nat, n: nat)
    requires Inv(s)
    ensures Inv(Effects(s, env, k, n))
    decreases n
  {
    if n > 0 {
      DoAllKeepsInv(s, env(k));
      EffectsKeepInv(DoAll(s, env(k)), env, k + 1, n - 1);
    }
  }

  class EventsImp {
    var idleConns: map<int, seq<Node>>
    var nextId: nat
    var clock: int

    function View(): State
      reads this
    {
      State(idleConns, nextId, clock)
    }

    constructor ()
      ensures View() == EMPTY
    {
      idleConns, nextId, clock := map[], 0, 0;
    }

    method RegisterIdle(idle: int, con: nat, now: int) returns (id: IdleId)
      requires now >= clock
      modifies this
      ensures View() == Do(old(View()), Register(idle, con, now)) && id == IdleId(idle, old(nextId))
    {
      var list := if idle in idleConns then idleConns[idle] else [];
      idleConns := idleConns[idle := list + [Node(nextId, con, now)]];
      id := IdleId(idle, nextId);
      nextId, clock := nextId + 1, now;
    }

    method UnregisterIdle(id: IdleId)
      requires IsLive(View(), id)
      modifies this
      ensures View() == Do(old(View()), Unregister(id))
    {
      var list := idleConns[id.idle];
      var i := Find(list, id.id);
      idleConns := idleConns[id.idle := list[..i] + list[i + 1..]];
    }

    method UpdateIdle(id: IdleId, now: int)
      requires IsLive(View(), id) && now >= clock
      modifies this
      ensures View() == Do(old(View()), Update(id, now))
    {
      var list := idleConns[id.idle];
      var i := Find(list, id.id);
      idleConns := idleConns[id.idle := list[..i] + list[i + 1..] + [list[i].(updated := now)]];
      clock := now;
    }

    method RunCallback(acts: seq<Act>)
      modifies this
      ensures View() == DoAll(old(View()), acts)
    {
      var i := 0;
      assert acts[0..] == acts;
      while i < |acts|
        invariant 0 <= i <= |acts|
        invariant DoAll(View(), acts[i..]) == DoAll(old(View()), acts)
      {
        assert acts[i..][1..] == acts[i + 1..];
        if Legal(View(), acts[i]) {
          match acts[i] {
            case Register(idle, con, now) => var _ := RegisterIdle(idle, con, now);
            case Unregister(id) => UnregisterIdle(id);
            case Update(id, now) => UpdateIdle(id, now);
          }
        }
        i := i + 1;
      }
    }

    /**
     * Calls every idle connection, list by list; `keys` are the idle times in ascending order. The walk stamps and
     * moves nodes of a copy, so only the callbacks change the lists themselves.
     */
    method CallIdles(keys: seq<int>, now: int, env: Env) returns (log: seq<Call>)
      requires Inv(View()) && forall key | key in keys :: key > 0
      modifies this
      ensures (View(), log) == Round(old(View()), keys, now, env, 0)
      ensures Inv(View())
    {
      hide Inv, Round, Effects, DueNodes, Calls, Sorted;
      log := [];
      ghost var end, all := Round(View(), keys, now, env, 0).0, Round(View(), keys, now, env, 0).1;
      ghost var left := all;
      var i := 0;
      assert keys[0..] == keys;
      while i < |keys|
        invariant 0 <= i <= |keys| && Inv(View())
        invariant Round(View(), keys[i..], now, env, |log|) == (end, left) && log + left == all
      {
        var key := keys[i];
        assert keys[i..][1..] == keys[i + 1..] && keys[i..][0] == key && key in keys;
        var list := if key in idleConns then idleConns[key] else [];
        InvListOk(View(), key);
        var called := CallList(list, key, now);
        ghost var rest := RoundUnfolds(View(), keys[i..], now, env, |log|, end, left);
        EffectsKeepInv(View(), env, |log|, |called|);
        RunCallbacks(env, |log|, |called|);
        log := log + Calls(key, called);
        left := rest;
        i := i + 1;
      }
      RoundEnds(View(), keys[i..], now, env, |log|, end, left);
      assert log == log + left == all;
    }

    method RunCallbacks(env: Env, k: nat, n: nat)
      modifies this
      ensures View() == Effects(old(View()), env, k, n)
    {
      var i := 0;
      while i < n
        invariant 0 <= i <= n
        invariant Effects(View(), env, k + i, n - i) == Effects(old(View()), env, k, n)
      {
        RunCallback(env(k + i));
        i := i + 1;
      }
    }
  }

  lemma InvListOk(s: State, key: int)
    requires Inv(s)
    ensures Sorted(List(s, key))
  {
  }

  lemma RoundUnfolds(s: State, keys: seq<int>, now: int, env: Env, k: nat, end: State, log: seq<Call>)
    returns (rest: seq<Call>)
    requires keys != [] && Round(s, keys, now, env, k) == (end, log)
    ensures
      var due := DueNodes(List(s, keys[0]), keys[0], now);
      && Round(Effects(s, env, k, |due|), keys[1..], now, env, k + |due|) == (end, rest)
      && log == Calls(keys[0], due) + rest
  {
    var due := DueNodes(List(s, keys[0]), keys[0], now);
    rest := Round(Effects(s, env, k, |due|), keys[1..], now, env, k + |due|).1;
  }

  lemma RoundEnds(s: State, keys: seq<int>, now: int, env: Env, k: nat, end: State, log: seq<Call>)
    requires keys == [] && Round(s, keys, now, env, k) == (end, log)
    ensures end == s && log == []
  {
  }

  /** The walk works on copies: a round whose callbacks do nothing changes nothing and would call the same again. */
  lemma {:induction false} QuietRoundChangesNothing(s: State, keys: seq<int>, now: int, env: Env, k: nat)
    requires forall j: nat :: env(j) == []
    ensures Round(s, keys, now, env, k).0 == s
    decreases |keys|
  {
    if keys != [] {
      var due := DueNodes(List(s, keys[0]), keys[0], now);
      QuietEffects(s, env, k, |due|);
      QuietRoundChangesNothing(s, keys[1..], now, env, k + |due|);
    }
  }

  lemma {:induction false} QuietEffects(s: State, env: Env, k: nat, n: nat)
    requires forall j: nat :: env(j) == []
    ensures Effects(s, env, k, n) == s
    decreases n
  {
    if n > 0 {
      assert DoAll(s, env(k)) == s;
      QuietEffects(s, env, k + 1, n - 1);
    }
  }

  lemma {:induction false} DueNodesAre(list: seq<Node>, idle: int, now: int, n: Node)
    ensures n in DueNodes(list, idle, now) <==> n in list && Due(n, idle, now)
    decreases |list|
  {
    if list != [] {
      assert n in list <==> n == list[0] || n in list[1..];
      DueNodesAre(list[1..], idle, now, n);
    }
  }

  lemma CallsAre(idle: int, nodes: seq<Node>, key: int, n: Node)
    ensures Call(key, n) in Calls(idle, nodes) <==> key == idle && n in nodes
  {
    var r := Calls(idle, nodes);
    if Call(key, n) in r {
      var i :| 0 <= i < |r| && r[i] == Call(key, n);
      assert nodes[i] == n;
    }
    if key == idle && n in nodes {
      var i :| 0 <= i < |nodes| && nodes[i] == n;
      assert r[i] == Call(key, n);
    }
  }

  // ----- What a round calls, whatever its callbacks do -----

  /** No call in `acts` unregisters or updates the handle. */
  predicate Spares(acts: seq<Act>, id: IdleId) {
    forall a | a in acts :: a.Register? || a.id != id
  }

  /** Nothing in `acts` is registered or updated with a time before `now`. */
  predicate NotBefore(acts: seq<Act>, now: int) {
    forall a | a in acts :: a.Unregister? || a.now >= now
  }

  lemma EraseSpares(list: seq<Node>, i: nat, n: Node)
    requires i < |list| && n in list && list[i].id != n.id
    ensures n in Erase(list, i)
  {
    var k :| 0 <= k < |list| && list[k] == n;
    assert Erase(list, i)[if k < i then k else k - 1] == n;
  }

  lemma DoSpares(s: State, a: Act, key: int, n: Node)
    requires n in List(s, key) && (a.Register? || a.id != IdleId(key, n.id))
    ensures n in List(Do(s, a), key)
  {
    if Legal(s, a) && !a.Register? && a.id.idle == key {
      EraseSpares(List(s, key), Find(List(s, key), a.id.id), n);
    }
  }

  lemma {:induction false} DoAllSpares(s: State, acts: seq<Act>, key: int, n: Node)
    requires n in List(s, key) && Spares(acts, IdleId(key, n.id))
    ensures n in List(DoAll(s, acts), key)
    decreases |acts|
  {
    if acts != [] {
      DoSpares(s, acts[0], key, n);
      DoAllSpares(Do(s, acts[0]), acts[1..], key, n);
    }
  }

  lemma {:induction false} EffectsSpare(s: State, env: Env, k: nat, m: nat, key: int, n: Node)
    requires n in List(s, key) && forall j: nat :: Spares(env(j), IdleId(key, n.id))
    ensures n in List(Effects(s, env, k, m), key)
    decreases m
  {
    hide List, Spares;
    if m > 0 {
      DoAllSpares(s, env(k), key, n);
      EffectsSpare(DoAll(s, env(k)), env, k + 1, m - 1, key, n);
    }
  }

  lemma DoAddsFresh(s: State, a: Act, now: int, key: int, n: Node)
    requires (a.Unregister? || a.now >= now) && n in List(Do(s, a), key)
    ensures n in List(s, key) || n.updated >= now
  {
    if Legal(s, a) && !a.Register? && a.id.idle == key {
      var list := List(s, key);
      var i := Find(list, a.id.id);
      assert n in Erase(list, i) ==> n in list;
    }
  }

  lemma {:induction false} DoAllAddsFresh(s: State, acts: seq<Act>, now: int, key: int, n: Node)
    requires NotBefore(acts, now) && n in List(DoAll(s, acts), key)
    ensures n in List(s, key) || n.updated >= now
    decreases |acts|
  {
    if acts != [] {
      DoAllAddsFresh(Do(s, acts[0]), acts[1..], now, key, n);
      if n in List(Do(s, acts[0]), key) {
        DoAddsFresh(s, acts[0], now, key, n);
      }
    }
  }

  /** What callbacks register or update is not due in the same round. */
  lemma {:induction false} EffectsAddFresh(s: State, env: Env, k: nat, m: nat, now: int, key: int, n: Node)
    requires n in List(Effects(s, env, k, m), key) && forall j: nat :: NotBefore(env(j), now)
    ensures n in List(s, key) || n.updated >= now
    decreases m
  {
    hide List, NotBefore;
    if m > 0 {
      EffectsAddFresh(DoAll(s, env(k)), env, k + 1, m - 1, now, key, n);
      if n in List(DoAll(s, env(k)), key) {
        DoAllAddsFresh(s, env(k), now, key, n);
      }
    }
  }

  /** Whatever callbacks do to other nodes, a due node that none of them unregisters or updates is called. */
  lemma {:induction false} SparedNodesAreCalled(s: State, keys: seq<int>, now: int, env: Env, k: nat, key: int, n: Node)
    requires key in keys && n in List(s, key) && Due(n, key, now)
    requires forall j: nat :: Spares(env(j), IdleId(key, n.id))
    ensures Call(key, n) in Round(s, keys, now, env, k).1
    decreases |keys|
  {
    var due := DueNodes(List(s, keys[0]), keys[0], now);
    var r := Round(s, keys, now, env, k);
    var rest := RoundUnfolds(s, keys, now, env, k, r.0, r.1);
    hide Round, DueNodes, Calls, List, Effects, Spares, Due;
    if keys[0] == key {
      DueNodesAre(List(s, key), key, now, n);
      CallsAre(key, due, key, n);
    } else {
      EffectsSpare(s, env, k, |due|, key, n);
      SparedNodesAreCalled(Effects(s, env, k, |due|), keys[1..], now, env, k + |due|, key, n);
    }
  }

  /**
   * Every call of a round is of a node that was in its list and due when the round began: nodes that callbacks
   * register or update are not called, nor are lists that callbacks make.
   */
  lemma {:induction false} RoundCallsOnlyKnown(s: State, keys: seq<int>, now: int, env: Env, k: nat, key: int, n: Node)
    requires Call(key, n) in Round(s, keys, now, env, k).1
    requires (forall i | i in keys :: i > 0) && forall j: nat :: NotBefore(env(j), now)
    ensures key in keys && n in List(s, key) && Due(n, key, now)
    decreases |keys|
  {
    var due := DueNodes(List(s, keys[0]), keys[0], now);
    CallsAre(keys[0], due, key, n);
    DueNodesAre(List(s, keys[0]), keys[0], now, n);
    hide DueNodes, Calls, List, Effects, NotBefore;
    assert forall i | i in keys[1..] :: i in keys;
    if Call(key, n) !in Calls(keys[0], due) {
      RoundCallsOnlyKnown(Effects(s, env, k, |due|), keys[1..], now, env, k + |due|, key, n);
      EffectsAddFresh(s, env, k, |due|, now, key, n);
    }
  }

  /** So a node that callbacks leave alone is called if and only if it has been idle for its list's time. */
  lemma RoundCallsExactly(s: State, keys: seq<int>, now: int, env: Env, key: int, n: Node)
    requires (forall i | i in keys :: i > 0) && forall j: nat :: NotBefore(env(j), now)
    requires forall j: nat :: Spares(env(j), IdleId(key, n.id))
    ensures Call(key, n) in Round(s, keys, now, env, 0).1 <==> key in keys && n in List(s, key) && Due(n, key, now)
  {
    hide Round;
    if Call(key, n) in Round(s, keys, now, env, 0).1 {
      RoundCallsOnlyKnown(s, keys, now, env, 0, key, n);
    }
    if key in keys && n in List(s, key) && Due(n, key, now) {
      SparedNodesAreCalled(s, keys, now, env, 0, key, n);
    }
  }

  lemma {:induction false} DueNodesDistinct(list: seq<Node>, idle: int, now: int)
    requires Distinct(list)
    ensures Distinct(DueNodes(list, idle, now))
    decreases |list|
  {
    if list != [] {
      var rest := DueNodes(list[1..], idle, now);
      DueNodesDistinct(list[1..], idle, now);
      forall i | 0 <= i < |rest| ensures rest[i].id != list[0].id {
        DueNodesAre(list[1..], idle, now, rest[i]);
        assert rest[i] in rest;
      }
    }
  }

  /** No two calls are of the same handle. */
  predicate CallsOnce(log: seq<Call>) {
    forall i, j | 0 <= i < j < |log| :: log[i].idle != log[j].idle || log[i].node.id != log[j].node.id
  }

  /** Every call is for one of the idle times visited. */
  lemma {:induction false} RoundCallsKeys(s: State, keys: seq<int>, now: int, env: Env, k: nat, c: Call)
    requires c in Round(s, keys, now, env, k).1
    ensures c.idle in keys
    decreases |keys|
  {
    var due := DueNodes(List(s, keys[0]), keys[0], now);
    if c !in Calls(keys[0], due) {
      RoundCallsKeys(Effects(s, env, k, |due|), keys[1..], now, env, k + |due|, c);
    }
  }

  lemma AppendCallsOnce(idle: int, due: seq<Node>, rest: seq<Call>)
    requires Distinct(due) && CallsOnce(rest) && forall c | c in rest :: c.idle != idle
    ensures CallsOnce(Calls(idle, due) + rest)
  {
    var log := Calls(idle, due) + rest;
    forall i, j | 0 <= i < j < |log| ensures log[i].idle != log[j].idle || log[i].node.id != log[j].node.id {
      if j >= |due| { assert log[j] in rest; }
    }
  }

  /** In one round nobody is called twice, whatever the callbacks do. */
  lemma {:induction false} RoundCallsOnce(s: State, keys: seq<int>, now: int, env: Env, k: nat)
    requires Inv(s) && forall i, j | 0 <= i < j < |keys| :: keys[i] != keys[j]
    ensures CallsOnce(Round(s, keys, now, env, k).1)
    decreases |keys|
  {
    if keys != [] {
      var due := DueNodes(List(s, keys[0]), keys[0], now);
      var t := Effects(s, env, k, |due|);
      var rest := Round(t, keys[1..], now, env, k + |due|).1;
      assert Distinct(List(s, keys[0]));
      DueNodesDistinct(List(s, keys[0]), keys[0], now);
      EffectsKeepInv(s, env, k, |due|);
      hide Inv;
      RoundCallsOnce(t, keys[1..], now, env, k + |due|);
      forall c | c in rest ensures c.idle != keys[0] {
        RoundCallsKeys(t, keys[1..], now, env, k + |due|, c);
      }
      AppendCallsOnce(keys[0], due, rest);
    }
  }

  /** A round in two parts. */
  lemma {:induction false} RoundInTwo(s: State, a: seq<int>, b: seq<int>, now: int, env: Env, k: nat)
    ensures
      var (t, log) := Round(s, a, now, env, k);
      var (u, rest) := Round(t, b, now, env, k + |log|);
      Round(s, a + b, now, env, k) == (u, log + rest)
    decreases |a|
  {
    hide DueNodes, List, Effects;
    if a == [] {
      var rest := Round(s, b, now, env, k).1;
      assert a + b == b && [] + rest == rest;
    } else {
      var due := DueNodes(List(s, a[0]), a[0], now);
      var s' := Effects(s, env, k, |due|);
      assert (a + b)[0] == a[0] && (a + b)[1..] == a[1..] + b;
      RoundInTwo(s', a[1..], b, now, env, k + |due|);
      var (t, log) := Round(s', a[1..], now, env, k + |due|);
      var rest := Round(t, b, now, env, k + |due| + |log|).1;
      assert Calls(a[0], due) + (log + rest) == Calls(a[0], due) + log + rest;
    }
  }

  /**
   * Exactly when a due node is called, whatever callbacks do: when those of the lists before its own have left it
   * there. Those of its own list make no difference, because the walk is over a copy: a node that one of them
   * unregisters is still called.
   */
  lemma DueNodeIsCalledExactly(s: State, before: seq<int>, key: int, after: seq<int>, now: int, env: Env, n: Node)
    requires n in List(s, key) && Due(n, key, now) && key !in before && key !in after
    ensures
      var t := Round(s, before, now, env, 0).0;
      Call(key, n) in Round(s, before + [key] + after, now, env, 0).1 <==> n in List(t, key)
  {
    hide Round, DueNodes, Calls, Effects, List, Due;
    var (t, log) := Round(s, before, now, env, 0);
    var due := DueNodes(List(t, key), key, now);
    var (u, rest) := Round(t, [key] + after, now, env, |log|);
    assert before + ([key] + after) == before + [key] + after && ([key] + after)[1..] == after;
    RoundInTwo(s, before, [key] + after, now, env, 0);
    var later := RoundUnfolds(t, [key] + after, now, env, |log|, u, rest);
    DueNodesAre(List(t, key), key, now, n);
    CallsAre(key, due, key, n);
    if Call(key, n) in log { RoundCallsKeys(s, before, now, env, 0, Call(key, n)); }
    if Call(key, n) in later {
      RoundCallsKeys(Effects(t, env, |log|, |due|), after, now, env, |log| + |due|, Call(key, n));
    }
  }
}
