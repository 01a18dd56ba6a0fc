// The few nonlinear facts the proofs use, each stated on its own.
module Arith {
  import opened Common

  lemma MulMono(a: int, b: int, c: int)
    requires a <= b && 0 <= c
    ensures a * c <= b * c
  {
    if a < b { assert b * c == a * c + (b - a) * c; }
  }

  lemma DivisionBounds(x: int, d: int)
    requires d > 0
    ensures (x / d) * d <= x < (x / d) * d + d
  {
  }

  lemma QuotientUnique(x: int, d: int, q: int)
    requires d > 0 && q * d <= x < q * d + d
    ensures x / d == q && x % d == x - q * d
  {
    var p := x / d;
    DivisionBounds(x, d);
    if p < q { MulMono(p + 1, q, d); }
    if p > q { MulMono(q + 1, p, d); }
  }

  lemma QuotientBelow(x: int, d: int, bound: int)
    requires d > 0 && x < bound * d
    ensures x / d < bound
  {
    DivisionBounds(x, d);
    if x / d >= bound { MulMono(bound, x / d, d); }
  }

  lemma QuotientAbove(x: int, d: int, bound: int)
    requires d > 0 && bound * d <= x
    ensures bound <= x / d
  {
    DivisionBounds(x, d);
    if x / d < bound { MulMono(x / d + 1, bound, d); }
  }

  /** Adding a multiple of the divisor moves the quotient and keeps the remainder. */
  lemma AddMultiple(k: int, d: int, r: int)
    requires d > 0
    ensures (k * d + r) % d == r % d
    ensures (k * d + r) / d == k + r / d
  {
    var q := r / d;
    DivisionBounds(r, d);
    assert (k + q) * d == k * d + q * d;
    QuotientUnique(k * d + r, d, k + q);
    QuotientUnique(r, d, q);
  }

  /** Shifting left and adding, both in 32 bits, moves the low bits up and puts the new ones below. */
  lemma ShiftIn(acc: nat, m: nat, v: nat, k: nat, d: nat, n: nat)
    requires m > 0 && k > 0 && d == k * m && n * d == 0x1_0000_0000 && v < m
    ensures Wrap32(Wrap32(acc * m) + v) % d == acc % k * m + v
  {
    var a, c := acc / k, acc % k;
    var x := acc * m;
    var h := x / 0x1_0000_0000;
    var y := Wrap32(x) + v;
    var h' := y / 0x1_0000_0000;
    var r := c * m + v;
    assert x == a * d + c * m by {
      assert acc == a * k + c;
      Distribute(a, k, c, m);
    }
    assert 0 <= r < d by { MulMono(c + 1, k, m); MulMono(0, c, m); assert (c + 1) * m == c * m + m; }
    var z := a * d + r - (h + h') * 0x1_0000_0000;
    assert Wrap32(y) == z;
    assert z == (a - (h + h') * n) * d + r by { Distribute2(a, h + h', n, d); }
    QuotientUnique(z, d, a - (h + h') * n);
  }

  lemma Distribute(a: int, k: int, c: int, m: int)
    ensures (a * k + c) * m == a * (k * m) + c * m
  {
  }

  lemma Distribute2(a: int, b: int, n: int, d: int)
    ensures (a - b * n) * d == a * d - b * (n * d)
  {
  }
}
