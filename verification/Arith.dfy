/** Facts about quotients and remainders by a positive divisor. */
module Arith {
  lemma {:induction false} MulAtLeast(i: int, n: int)
    requires i > 0 && n >= 1
    ensures i * n >= i
    decreases n
  {
    if n > 1 { MulAtLeast(i, n - 1); assert i * n == i * (n - 1) + i; }
  }

  lemma DivUnique(i: int, q: int, r: int)
    requires 0 <= r < i
    ensures (i * q + r) / i == q && (i * q + r) % i == r
  {
    var x := i * q + r;
    var d := x / i;
    var m := x % i;
    assert x == i * d + m;
    assert i * (q - d) == m - r;
    if q > d { MulAtLeast(i, q - d); }
    assert i * (d - q) == r - m;
    if q < d { MulAtLeast(i, d - q); }
  }

  lemma StepKeepsPhase(x: int, i: int)
    requires i > 0 && x % i == 0
    ensures (x + i) % i == 0
  {
    var q := x / i;
    assert x + i == i * (q + 1);
    DivUnique(i, q + 1, 0);
  }
}
