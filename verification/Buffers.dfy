/** The sliding byte buffer, its capacity policy, and what that policy costs over whole runs. */
module Buffers {
  import opened Bytes

  function Max(a: nat, b: nat): nat { if a > b then a else b }

  // ----- The capacity policy on its own -----

  /** Offsets of the live bytes, the capacity behind them, and the suggested size. */
  datatype Shape = Shape(b: nat, e: nat, cap: nat, exp: nat) {
    predicate Valid() { b <= e <= cap }

    function Size(): nat requires Valid() { e - b }

    function Expanded(len: nat): Shape
      requires Valid()
    {
      Shape(0, Size(), Max(exp, Max(2 * cap, Size() + len)), exp)
    }

    /** What `makeRoom(len)` does to the offsets. */
    function Reserved(len: nat): (s: Shape)
      requires Valid()
      ensures s.Valid() && s.e + len <= s.cap && s.Size() == Size()
    {
      if e + len <= cap then this
      else if Size() + len < cap / 2 then Shape(0, Size(), cap, exp)
      else Expanded(len)
    }

    /** Bytes that `makeRoom(len)` copies. */
    function ReserveCost(len: nat): nat
      requires Valid()
    {
      if e + len <= cap then 0 else Size()
    }

    function Appended(len: nat): Shape
      requires Valid()
    {
      Reserved(len).(e := Reserved(len).e + len)
    }

    /** What `makeRoom()` does before a read: at least `exp` bytes free, or one doubling. */
    function ReadyToRead(): Shape
      requires Valid()
    {
      if cap - e < exp then Expanded(0) else this
    }

    function ReadyCost(): nat
      requires Valid()
    {
      if cap - e < exp then Size() else 0
    }

    function Consumed(len: nat): Shape
      requires Valid() && len <= Size()
    {
      if len == Size() then Empty(exp) else this.(b := b + len)
    }
  }

  function Empty(exp: nat): Shape { Shape(0, 0, 0, exp) }

  // ----- Copying over whole runs -----

  datatype BufferOp = Append(len: nat) | Consume(len: nat) | Ready | Fill(len: nat)

  /** A buffer's shape with running totals: bytes put in, bytes moved inside, and times emptied. */
  datatype Account = Account(shape: Shape, put: nat, copied: nat, clears: nat)

  predicate Fits(a: Account, op: BufferOp) {
    && a.shape.Valid()
    && match op
       case Append(_) => true
       case Consume(len) => len <= a.shape.Size()
       case Ready => true
       case Fill(len) => a.shape.e + len <= a.shape.cap
  }

  function Charge(a: Account, op: BufferOp): Account
    requires Fits(a, op)
  {
    var s := a.shape;
    match op
    case Append(len) => a.(shape := s.Appended(len), put := a.put + len, copied := a.copied + s.ReserveCost(len))
    case Consume(len) => a.(shape := s.Consumed(len), clears := a.clears + if len == s.Size() then 1 else 0)
    case Ready => a.(shape := s.ReadyToRead(), copied := a.copied + s.ReadyCost())
    case Fill(len) => a.(shape := s.(e := s.e + len), put := a.put + len)
  }

  predicate FitsAll(a: Account, ops: seq<BufferOp>)
    decreases |ops|
  {
    ops == [] || (Fits(a, ops[0]) && FitsAll(Charge(a, ops[0]), ops[1..]))
  }

  function ChargeAll(a: Account, ops: seq<BufferOp>): Account
    requires FitsAll(a, ops)
    decreases |ops|
  {
    if ops == [] then a else ChargeAll(Charge(a, ops[0]), ops[1..])
  }

  function Opened(exp: nat): Account { Account(Empty(exp), 0, 0, 0) }

  /** The credit of a buffer that is more than half full from the left. */
  function Credit(s: Shape): nat { if 2 * s.e > s.cap then 2 * s.e - s.cap else 0 }

  predicate PaidByAppends(a: Account) {
    a.shape.Valid() && a.copied + Credit(a.shape) <= 3 * a.put
  }

  lemma AppendPays(a: Account, len: nat)
    requires PaidByAppends(a)
    ensures PaidByAppends(Charge(a, Append(len)))
  {
  }

  /** Appending and consuming in any order moves at most three bytes for each byte appended. */
  lemma {:induction false} CopyingIsAmortised(a: Account, ops: seq<BufferOp>)
    requires PaidByAppends(a) && FitsAll(a, ops) && forall op | op in ops :: op.Append? || op.Consume?
    ensures ChargeAll(a, ops).copied <= 3 * ChargeAll(a, ops).put
    decreases |ops|
  {
    if ops != [] {
      assert ops[0].Append? || ops[0].Consume?;
      if ops[0].Append? {
        AppendPays(a, ops[0].len);
      }
      CopyingIsAmortised(Charge(a, ops[0]), ops[1..]);
    }
  }

  /** What reading ahead may still cost before the capacity is four times the suggested size. */
  function Allowance(s: Shape): nat {
    if s.cap < 2 * s.exp then 6 * s.exp else if s.cap < 4 * s.exp then 4 * s.exp else 0
  }

  predicate PaidWithReads(a: Account) {
    var s := a.shape;
    && s.Valid()
    && (s.cap == 0 || s.exp <= s.cap)
    && a.copied + 2 * Credit(s) + Allowance(s) <= 6 * a.put + Emptied(s.exp, a.clears + 1)
  }

  /** Six suggested sizes for each time the buffer started empty. */
  function Emptied(exp: nat, times: nat): nat {
    if times == 0 then 0 else 6 * exp + Emptied(exp, times - 1)
  }

  lemma {:induction false} EmptiedIs(exp: nat, times: nat)
    ensures Emptied(exp, times) == 6 * exp * times
    decreases times
  {
    if times > 0 {
      EmptiedIs(exp, times - 1);
      assert 6 * exp * times == 6 * exp * (times - 1) + 6 * exp;
    }
  }

  /** The cost of an append and the credit it builds up are paid by its bytes. */
  lemma AppendPaysSix(s: Shape, len: nat)
    requires s.Valid()
    ensures s.ReserveCost(len) + 2 * Credit(s.Appended(len)) <= 2 * Credit(s) + 6 * len
  {
  }

  lemma AllowanceFalls(s: Shape, len: nat)
    requires s.Valid()
    ensures Allowance(s.Appended(len)) <= Allowance(s)
    ensures s.cap == 0 || s.exp <= s.cap ==> var t := s.Appended(len); t.cap == 0 || t.exp <= t.cap
  {
  }

  lemma AppendPaysWithReads(a: Account, len: nat)
    requires PaidWithReads(a)
    ensures PaidWithReads(Charge(a, Append(len)))
  {
    AppendPaysSix(a.shape, len);
    AllowanceFalls(a.shape, len);
    hide Emptied, Allowance, Credit;
  }

  lemma ConsumePaysWithReads(a: Account, len: nat)
    requires PaidWithReads(a) && Fits(a, Consume(len))
    ensures PaidWithReads(Charge(a, Consume(len)))
  {
  }

  lemma PaidBounds(a: Account)
    requires PaidWithReads(a)
    ensures a.copied <= 6 * a.put + 6 * a.shape.exp * (a.clears + 1)
  {
    EmptiedIs(a.shape.exp, a.clears + 1);
  }

  lemma ReadyPaysWithReads(a: Account)
    requires PaidWithReads(a)
    ensures PaidWithReads(Charge(a, Ready))
  {
  }

  lemma FillPaysWithReads(a: Account, len: nat)
    requires PaidWithReads(a) && Fits(a, Fill(len))
    ensures PaidWithReads(Charge(a, Fill(len)))
  {
  }

  /** With the read path mixed in, six for each byte put in and six suggested sizes for each fresh start. */
  lemma {:induction false} CopyingWithReadsIsAmortised(a: Account, ops: seq<BufferOp>)
    requires PaidWithReads(a) && FitsAll(a, ops)
    ensures
      var z := ChargeAll(a, ops);
      z.shape.exp == a.shape.exp && z.copied <= 6 * z.put + 6 * a.shape.exp * (z.clears + 1)
    decreases |ops|
  {
    hide PaidWithReads;
    if ops == [] {
      PaidBounds(a);
    } else {
      match ops[0] {
        case Append(len) => AppendPaysWithReads(a, len);
        case Consume(len) => ConsumePaysWithReads(a, len);
        case Ready => ReadyPaysWithReads(a);
        case Fill(len) => FillPaysWithReads(a, len);
      }
      CopyingWithReadsIsAmortised(Charge(a, ops[0]), ops[1..]);
    }
  }

  /** From a new buffer, both bounds hold of every run. */
  lemma {:induction false} NewBufferCopiesLittle(exp: nat, ops: seq<BufferOp>)
    requires FitsAll(Opened(exp), ops)
    ensures var z := ChargeAll(Opened(exp), ops); z.copied <= 6 * z.put + 6 * exp * (z.clears + 1)
    ensures (forall op | op in ops :: op.Append? || op.Consume?) ==>
              ChargeAll(Opened(exp), ops).copied <= 3 * ChargeAll(Opened(exp), ops).put
  {
    assert Emptied(exp, 1) == 6 * exp + Emptied(exp, 0);
    CopyingWithReadsIsAmortised(Opened(exp), ops);
    if forall op | op in ops :: op.Append? || op.Consume? {
      CopyingIsAmortised(Opened(exp), ops);
    }
  }

  // ----- How large a buffer gets -----

  /** The most bytes that a run has in the buffer at once, or makes room for. */
  function Peak(a: Account, ops: seq<BufferOp>): nat
    requires FitsAll(a, ops)
    decreases |ops|
  {
    if ops == [] then 0
    else
      var now := a.shape.Size() + if ops[0].Append? || ops[0].Fill? then ops[0].len else 0;
      Max(now, Peak(Charge(a, ops[0]), ops[1..]))
  }

  /**
   * A buffer that is only appended to and consumed slides its bytes to the front instead of growing: its capacity stays
   * within about four times the most it has held at once, however much has gone through it.
   */
  lemma {:induction false} CapacityIsBounded(a: Account, ops: seq<BufferOp>, limit: nat)
    requires FitsAll(a, ops) && (forall op | op in ops :: op.Append? || op.Consume?) && Peak(a, ops) <= limit
    requires a.shape.cap <= Max(a.shape.exp, 4 * limit + 2)
    ensures ChargeAll(a, ops).shape.cap <= Max(a.shape.exp, 4 * limit + 2)
    decreases |ops|
  {
    if ops != [] {
      assert ops[0].Append? || ops[0].Consume?;
      CapacityIsBounded(Charge(a, ops[0]), ops[1..], limit);
    }
  }

  lemma {:induction false} RunsJoin(a: Account, x: seq<BufferOp>, y: seq<BufferOp>)
    requires FitsAll(a, x) && FitsAll(ChargeAll(a, x), y)
    ensures FitsAll(a, x + y) && ChargeAll(a, x + y) == ChargeAll(ChargeAll(a, x), y)
    ensures Peak(a, x + y) == Max(Peak(a, x), Peak(ChargeAll(a, x), y))
    decreases |x|
  {
    hide Charge, Fits;
    if x == [] {
      assert x + y == y;
    } else {
      assert (x + y)[0] == x[0] && (x + y)[1..] == x[1..] + y;
      RunsJoin(Charge(a, x[0]), x[1..], y);
    }
  }

  lemma OneOp(a: Account, op: BufferOp)
    requires Fits(a, op)
    ensures FitsAll(a, [op]) && ChargeAll(a, [op]) == Charge(a, op)
    ensures Peak(a, [op]) == a.shape.Size() + if op.Append? || op.Fill? then op.len else 0
  {
    assert [op][1..] == [];
    hide Charge;
    assert FitsAll(Charge(a, op), []);
  }

  /** One byte stays in the buffer and the free space is used up, or else the buffer doubles. */
  lemma GrowsOnce(a: Account) returns (ops: seq<BufferOp>)
    requires a.shape.Valid() && a.shape.Size() == 1 && a.shape.exp > 0
    ensures FitsAll(a, ops) && Peak(a, ops) <= 1 + a.shape.exp
    ensures
      var s, t := a.shape, ChargeAll(a, ops).shape;
      t.Valid() && t.Size() == 1 && t.exp == s.exp && (t.cap > s.cap || (t.cap == s.cap && t.e > s.e))
  {
    var s := a.shape;
    if s.cap - s.e < s.exp {
      ops := [Ready];
      OneOp(a, Ready);
    } else {
      ops := [Fill(s.exp)] + [Consume(s.exp)];
      OneOp(a, Fill(s.exp));
      OneOp(Charge(a, Fill(s.exp)), Consume(s.exp));
      RunsJoin(a, [Fill(s.exp)], [Consume(s.exp)]);
      hide FitsAll, ChargeAll, Peak;
    }
  }

  lemma {:induction false} GrowsTo(a: Account, n: nat) returns (ops: seq<BufferOp>)
    requires a.shape.Valid() && a.shape.Size() == 1 && a.shape.exp > 0
    ensures FitsAll(a, ops) && Peak(a, ops) <= 1 + a.shape.exp && ChargeAll(a, ops).shape.cap >= n
    decreases if n > a.shape.cap then n - a.shape.cap else 0, a.shape.cap - a.shape.e
  {
    if a.shape.cap >= n {
      ops := [];
    } else {
      var x := GrowsOnce(a);
      var y := GrowsTo(ChargeAll(a, x), n);
      RunsJoin(a, x, y);
      ops := x + y;
    }
  }

  /**
   * A buffer that is read into does not slide: makeRoom without a length only ever doubles. As long as a reader leaves
   * a single byte behind each time, the capacity passes any number `n`.
   */
  lemma ReadingOutgrowsTheContents(exp: nat, n: nat) returns (ops: seq<BufferOp>)
    requires exp > 0
    ensures FitsAll(Opened(exp), ops) && Peak(Opened(exp), ops) <= 1 + exp
    ensures ChargeAll(Opened(exp), ops).shape.cap >= n
  {
    var a := Opened(exp);
    OneOp(a, Ready);
    OneOp(Charge(a, Ready), Fill(1));
    hide FitsAll, ChargeAll, Peak;
    RunsJoin(a, [Ready], [Fill(1)]);
    var rest := GrowsTo(ChargeAll(a, [Ready] + [Fill(1)]), n);
    RunsJoin(a, [Ready] + [Fill(1)], rest);
    ops := [Ready] + [Fill(1)] + rest;
  }

  // ----- The buffer itself -----

  const DEFAULT_SUGGESTED: nat := 512

  class Buffer {
    var buf: array?<byte>
    var b: nat
    var e: nat
    var cap: nat
    var exp: nat
    /** Bytes moved inside the buffer so far. */
    ghost var copied: nat

    ghost predicate Valid()
      reads this
    {
      && b <= e <= cap
      && (if buf == null then cap == 0 else buf.Length == cap)
    }

    ghost function Repr(): set<object>
      reads this
    {
      if buf == null then {this} else {this, buf}
    }

    ghost function Contents(): (s: bytes)
      requires Valid()
      reads this, buf
      ensures |s| == e - b
    {
      if buf == null then [] else buf[b..e]
    }

    ghost function View(): (s: Shape)
      requires Valid()
      reads this
      ensures s.Valid()
    {
      Shape(b, e, cap, exp)
    }

    constructor ()
      ensures Valid() && fresh(Repr())
      ensures Contents() == [] && View() == Empty(DEFAULT_SUGGESTED) && copied == 0
    {
      buf, b, e, cap, exp, copied := null, 0, 0, 0, DEFAULT_SUGGESTED, 0;
    }

    /** `copyFrom`: the same offsets over storage of its own. */
    constructor Copy(other: Buffer)
      requires other.Valid()
      ensures Valid() && fresh(Repr())
      ensures Contents() == other.Contents() && View() == other.View()
    {
      var p: array?<byte> := null;
      if other.buf != null {
        p := new byte[other.cap];
        for i := 0 to other.e - other.b
          invariant p.Length == other.cap && fresh(p)
          invariant p[other.b..other.b + i] == other.buf[other.b..other.b + i]
        {
          p[other.b + i] := other.buf[other.b + i];
        }
      }
      buf, b, e, cap, exp, copied := p, other.b, other.e, other.cap, other.exp, 0;
    }

    function Length(): nat
      requires Valid()
      reads this
    {
      e - b
    }

    /** The live bytes as a slice. */
    function Data(): (s: bytes)
      requires Valid()
      reads this, buf
      ensures s == Contents()
    {
      if buf == null then [] else buf[b..e]
    }

    method Clear()
      requires Valid()
      modifies this
      ensures Valid() && Repr() == {this}
      ensures Contents() == [] && View() == Empty(old(exp)) && copied == old(copied)
    {
      buf, cap, b, e := null, 0, 0, 0;
    }

    method MoveHead()
      requires Valid() && buf != null
      modifies this, buf
      ensures Valid() && buf == old(buf)
      ensures Contents() == old(Contents()) && View() == Shape(0, old(e - b), old(cap), old(exp))
      ensures copied == old(copied) + old(e - b)
    {
      for i := 0 to e - b
        invariant unchanged(this)
        invariant buf[..i] == old(buf[b..b + i])
        invariant forall j | b + i <= j < e :: buf[j] == old(buf[j])
      {
        buf[i] := buf[b + i];
      }
      copied := copied + (e - b);
      e, b := e - b, 0;
    }

    method Expand(len: nat)
      requires Valid()
      modifies this
      ensures Valid() && fresh(Repr() - {this})
      ensures Contents() == old(Contents()) && View() == old(View()).Expanded(len)
      ensures copied == old(copied) + old(e - b)
    {
      var size := e - b;
      var ncap := Max(exp, Max(2 * cap, size + len));
      var p := new byte[ncap];
      for i := 0 to size
        invariant unchanged(this) && fresh(p)
        invariant buf != null ==> p[..i] == buf[b..b + i]
      {
        p[i] := buf[b + i];
      }
      copied := copied + size;
      e, b := size, 0;
      buf := p;
      cap := ncap;
    }

    /** `makeRoom(len)`: room for `len` bytes after the contents, which stay the same. */
    method MakeRoom(len: nat)
      requires Valid()
      modifies Repr()
      ensures Valid() && fresh(Repr() - old(Repr()))
      ensures Contents() == old(Contents()) && View() == old(View()).Reserved(len)
      ensures copied == old(copied) + old(View()).ReserveCost(len)
    {
      if e + len <= cap {
      } else if e - b + len < cap / 2 {
        MoveHead();
      } else {
        Expand(len);
      }
    }

    /** `makeRoom()`, called before each read. */
    method MakeRoomToRead()
      requires Valid()
      modifies Repr()
      ensures Valid() && fresh(Repr() - old(Repr()))
      ensures Contents() == old(Contents()) && View() == old(View()).ReadyToRead()
      ensures copied == old(copied) + old(View()).ReadyCost()
    {
      if cap - e < exp {
        Expand(0);
      }
    }

    /** Writes into the free space after the contents, as a read system call does, and counts the bytes in. */
    method Fill(p: bytes)
      requires Valid() && e + |p| <= cap
      modifies Repr()
      ensures Valid() && Repr() == old(Repr())
      ensures Contents() == old(Contents()) + p && View() == old(View()).(e := old(e) + |p|)
      ensures copied == old(copied)
    {
      for i := 0 to |p|
        invariant unchanged(this)
        invariant buf != null ==> buf[b..e] == old(Contents()) && buf[e..e + i] == p[..i]
      {
        buf[e + i] := p[i];
      }
      e := e + |p|;
    }

    /** Writes over live bytes, at an offset from the first one. */
    method Overwrite(at: nat, p: bytes)
      requires Valid() && at + |p| <= e - b
      modifies Repr()
      ensures Valid() && Repr() == old(Repr()) && View() == old(View()) && copied == old(copied)
      ensures Contents() == old(Contents())[..at] + p + old(Contents())[at + |p|..]
    {
      for i := 0 to |p|
        invariant unchanged(this)
        invariant buf != null ==>
          forall j | b <= j < e :: buf[j] == if at <= j - b < at + i then p[j - b - at] else old(buf[j])
      {
        buf[b + at + i] := p[i];
      }
    }

    method Append(p: bytes)
      requires Valid()
      modifies Repr()
      ensures Valid() && fresh(Repr() - old(Repr()))
      ensures Contents() == old(Contents()) + p && View() == old(View()).Appended(|p|)
      ensures copied == old(copied) + old(View()).ReserveCost(|p|)
    {
      MakeRoom(|p|);
      Fill(p);
    }

    /** The overloads of append that take a slice or a literal. */
    method AppendSlice(p: bytes)
      requires Valid()
      modifies Repr()
      ensures Valid() && fresh(Repr() - old(Repr()))
      ensures Contents() == old(Contents()) + p
    {
      Append(p);
    }

    method Consume(len: nat)
      requires Valid() && len <= e - b
      modifies this
      ensures Valid() && Repr() <= old(Repr())
      ensures Contents() == old(Contents())[len..] && View() == old(View()).Consumed(len)
      ensures len == old(e - b) ==> cap == 0
      ensures copied == old(copied)
    {
      ghost var rest := Contents()[len..];
      b := b + len;
      assert Contents() == rest;
      if e == b {
        Clear();
        assert rest == [];
      }
    }

    /** Exchanges storage and offsets with the other buffer; each keeps its own suggested size. */
    method Exchange(other: Buffer)
      requires Valid() && other.Valid() && other != this && Repr() !! other.Repr()
      modifies this, other
      ensures Valid() && other.Valid() && Repr() !! other.Repr()
      ensures Repr() + other.Repr() == old(Repr()) + old(other.Repr())
      ensures exp == old(exp) && other.exp == old(other.exp)
      ensures Contents() == old(other.Contents()) && other.Contents() == old(Contents())
    {
      buf, b, e, cap, other.buf, other.b, other.e, other.cap :=
        other.buf, other.b, other.e, other.cap, buf, b, e, cap;
    }

    /** Moves the other buffer's bytes to the end of this one: by exchanging storage when this one is empty. */
    method Absorb(other: Buffer)
      requires Valid() && other.Valid() && (other == this || Repr() !! other.Repr())
      modifies Repr(), other.Repr()
      ensures Valid() && other.Valid() && (other != this ==> Repr() !! other.Repr())
      ensures fresh(Repr() + other.Repr() - old(Repr()) - old(other.Repr()))
      ensures exp == old(exp) && other.exp == old(other.exp)
      ensures other == this ==> unchanged(this) && Contents() == old(Contents())
      ensures other != this ==> Contents() == old(Contents()) + old(other.Contents()) && other.Contents() == []
    {
      if other != this {
        if e - b == 0 {
          Exchange(other);
        } else {
          var data := other.Data();
          Append(data);
          other.Clear();
        }
      }
    }
  }
}
