// Bitwise operators of C on unsigned values, bit by bit over the naturals, and the laws the proofs use.
module Bits {
  import opened Arith
  import opened Common

  function XorNat(a: nat, b: nat): nat
    decreases a + b
  {
    if a == 0 && b == 0 then 0 else (a + b) % 2 + 2 * XorNat(a / 2, b / 2)
  }

  function Pow2(k: nat): (p: nat)
    ensures p > 0
  {
    if k == 0 then 1 else 2 * Pow2(k - 1)
  }

  lemma {:induction false} Pow2Sum(i: nat, j: nat)
    ensures Pow2(i + j) == Pow2(i) * Pow2(j)
  {
    if i > 0 { Pow2Sum(i - 1, j); }
  }

  lemma Pow2Of64()
    ensures Pow2(64) == TWO_64
  {
    Pow2Values();
    Pow2Sum(32, 32);
  }

  lemma {:induction false} XorNatBound(a: nat, b: nat, k: nat)
    requires a < Pow2(k) && b < Pow2(k)
    ensures XorNat(a, b) < Pow2(k)
    decreases k
  {
    if k > 0 { XorNatBound(a / 2, b / 2, k - 1); }
  }

  lemma {:induction false} XorNatCommutes(a: nat, b: nat)
    ensures XorNat(a, b) == XorNat(b, a)
    decreases a + b
  {
    if a + b > 0 { XorNatCommutes(a / 2, b / 2); }
  }

  lemma {:induction false} XorNatRotates(a: nat, b: nat, c: nat)
    ensures XorNat(XorNat(a, c), b) == XorNat(c, XorNat(a, b))
    decreases a + b + c
  {
    if a + b + c > 0 {
      var ac, ab := XorNat(a, c), XorNat(a, b);
      XorNatRotates(a / 2, b / 2, c / 2);
      XorNatHalf(a, c);
      XorNatHalf(a, b);
      XorNatHalf(ac, b);
      XorNatHalf(c, ab);
      SameParity(ac, a + c, b);
      SameParity(ab, a + b, c);
      SameHalves(XorNat(ac, b), XorNat(c, ab));
    }
  }

  lemma SameParity(x: nat, y: nat, z: nat)
    requires x % 2 == y % 2
    ensures (x + z) % 2 == (y + z) % 2
  {
  }

  lemma SameHalves(x: nat, y: nat)
    requires x / 2 == y / 2 && x % 2 == y % 2
    ensures x == y
  {
  }

  lemma XorNatHalf(a: nat, b: nat)
    ensures XorNat(a, b) / 2 == XorNat(a / 2, b / 2)
    ensures XorNat(a, b) % 2 == (a + b) % 2
  {
  }

  /** Bit `k` of a number. */
  function Bit(x: nat, k: nat): nat {
    if k == 0 then x % 2 else Bit(x / 2, k - 1)
  }

  /** A bit of the exclusive or is set where exactly one of the operands has it. */
  lemma {:induction false} XorBits(a: nat, b: nat, k: nat)
    ensures Bit(XorNat(a, b), k) == 1 <==> Bit(a, k) != Bit(b, k)
    decreases k
  {
    XorNatHalf(a, b);
    if k == 0 {
      ParityOfSum(a, b);
    } else {
      XorBits(a / 2, b / 2, k - 1);
    }
  }

  lemma ParityOfSum(a: nat, b: nat)
    ensures (a + b) % 2 == 1 <==> a % 2 != b % 2
  {
  }

  function AndNat(a: nat, b: nat): nat
    decreases a + b
  {
    if a == 0 || b == 0 then 0 else (a % 2) * (b % 2) + 2 * AndNat(a / 2, b / 2)
  }

  function OrNat(a: nat, b: nat): nat
    decreases a + b
  {
    if a == 0 then b else if b == 0 then a else Max(a % 2, b % 2) + 2 * OrNat(a / 2, b / 2)
  }

  /** Masking with 0xFF keeps the low byte. */
  lemma AndByte(x: nat)
    ensures AndNat(x, 0xFF) == AndNat(0xFF, x) == x % 256
  {
    AndMask(x, 8);
    assert Pow2(8) == 256 by { Pow2Sum(4, 4); }
  }

  lemma {:induction false} AndMask(x: nat, k: nat)
    ensures AndNat(x, Pow2(k) - 1) == AndNat(Pow2(k) - 1, x) == x % Pow2(k)
    decreases k
  {
    if k > 0 {
      AndMask(x / 2, k - 1);
      var p := Pow2(k - 1);
      assert (2 * p - 1) / 2 == p - 1 && (2 * p - 1) % 2 == 1;
      LowBits(x, p);
    }
  }

  lemma LowBits(x: nat, p: nat)
    requires p > 0
    ensures x % (2 * p) == x % 2 + 2 * ((x / 2) % p)
  {
    var h := x / 2;
    DivisionBounds(h, p);
    var q := h / p;
    assert q * (2 * p) == 2 * (q * p);
    assert h % p == h - q * p;
    QuotientUnique(x, 2 * p, q);
  }

  /** Exclusive or vanishes exactly on equal operands. */
  lemma {:induction false} XorZero(a: nat, b: nat)
    ensures XorNat(a, b) == 0 <==> a == b
    decreases a + b
  {
    if a + b > 0 { XorZero(a / 2, b / 2); }
  }

  lemma {:induction false} XorLower(a: nat, b: nat)
    ensures XorNat(a, b) + b >= a
    decreases a + b
  {
    hide XorNat;
    if a + b > 0 {
      XorLower(a / 2, b / 2);
      XorNatHalf(a, b);
      LowerByHalves(XorNat(a, b), a, b);
    }
  }

  lemma LowerByHalves(x: nat, a: nat, b: nat)
    requires x / 2 + b / 2 >= a / 2 && x % 2 == (a + b) % 2
    ensures x + b >= a
  {
    var i, j, k := x / 2, a / 2, b / 2;
    assert x == 2 * i + x % 2 && a == 2 * j + a % 2 && b == 2 * k + b % 2;
    SameParity(a, a % 2, b);
  }

  /** The three operators as values, for code whose meaning follows from a few laws about them. */
  datatype Operators = Operators(and: (nat, nat) -> nat, or: (nat, nat) -> nat, xor: (nat, nat) -> nat)
  {
    ghost predicate Lawful() {
      && (forall x: nat :: and(0xFF, x) == and(x, 0xFF) == x % 256)
      && (forall x: nat :: and(0, x) == 0)
      && (forall x: nat :: or(x, 0) == or(0, x) == x)
      && or(62, 63) == 63
      && xor(0, 0xFF) == 0xFF
      && (forall x: nat, y: nat :: xor(x, y) == 0 <==> x == y)
      && (forall x: nat, y: nat :: x < 256 && y < 256 ==> xor(x, y) < 256)
      && (forall x: nat, y: nat :: x < TWO_32 && y < TWO_32 ==> x - y <= xor(x, y) < TWO_32)
    }
  }

  function Unsigned(): Operators {
    Operators((a: nat, b: nat) => AndNat(a, b), (a: nat, b: nat) => OrNat(a, b), (a: nat, b: nat) => XorNat(a, b))
  }

  lemma Pow2Values()
    ensures Pow2(8) == 256 && Pow2(32) == TWO_32
  {
    Pow2Sum(4, 4);
    Pow2Sum(8, 8);
    Pow2Sum(16, 16);
  }

  lemma XorOfMask()
    ensures XorNat(0, 0xFF) == 0xFF
  {
    Pow2Values();
    XorNatBound(0, 0xFF, 8);
    XorNatCommutes(0, 0xFF);
    XorLower(0xFF, 0);
  }

  lemma {:induction false} OrSame(a: nat)
    ensures OrNat(a, a) == a
  {
    if a > 0 { OrSame(a / 2); }
  }

  lemma OrNext(a: nat, b: nat)
    requires a > 0 && b > 0
    ensures OrNat(a, b) == Max(a % 2, b % 2) + 2 * OrNat(a / 2, b / 2)
  {
  }

  lemma OrOfSixes()
    ensures OrNat(62, 63) == 63
  {
    hide OrNat;
    OrSame(31);
    OrNext(62, 63);
  }

  lemma UnsignedIsLawful()
    ensures Unsigned().Lawful()
  {
    Pow2Values();
    XorOfMask();
    OrOfSixes();
    forall x: nat ensures AndNat(0xFF, x) == AndNat(x, 0xFF) == x % 256 { AndByte(x); }
    forall x: nat, y: nat ensures XorNat(x, y) == 0 <==> x == y { XorZero(x, y); }
    forall x: nat, y: nat | x < 256 && y < 256 ensures XorNat(x, y) < 256 { XorNatBound(x, y, 8); }
    forall x: nat, y: nat | x < TWO_32 && y < TWO_32 ensures x - y <= XorNat(x, y) < TWO_32 {
      XorNatBound(x, y, 32);
      XorLower(x, y);
    }
  }
}
