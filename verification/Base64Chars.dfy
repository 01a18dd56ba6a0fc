// The branch-free character maps of Base64 (encoding.c, lines 70-101; alphabet of section 4 of RFC 4648).
module Base64Chars {
  import opened Bits
  import opened Common

  /** A C `char` after promotion to `int`: -128..127 where `char` is signed, 0..255 where it is not. */
  type Char = c: int | -128 <= c < 256

  /** Value of a six-bit group. */
  type Sextet = v: int | 0 <= v < 64

  const INVALID := 0xFF

  // ----- the constant-time macros -----

  function HighByte(o: Operators, u: nat): nat {
    o.and(u / 256, 0xFF)
  }

  function Eq(o: Operators, x: int, y: int): nat {
    o.xor(HighByte(o, Wrap32(0 - o.xor(Wrap32(x), Wrap32(y)))), 0xFF)
  }

  function Gt(o: Operators, x: int, y: int): nat {
    HighByte(o, Wrap32(Wrap32(y) - Wrap32(x)))
  }

  function Ge(o: Operators, x: int, y: int): nat {
    o.xor(Gt(o, y, x), 0xFF)
  }

  function Lt(o: Operators, x: int, y: int): nat {
    Gt(o, y, x)
  }

  function Le(o: Operators, x: int, y: int): nat {
    Ge(o, y, x)
  }

  function Mask(b: bool): nat {
    if b then 0xFF else 0
  }

  lemma WrapDifference(x: int, y: int)
    ensures Wrap32(Wrap32(y) - Wrap32(x)) == Wrap32(y - x)
  {
  }

  lemma DifferenceMask(x: int, y: int)
    requires -256 <= y - x < 256
    ensures (Wrap32(Wrap32(y) - Wrap32(x)) / 256) % 256 == Mask(x > y)
  {
    WrapDifference(x, y);
    HighByteOf(y - x);
  }

  lemma HighByteOf(d: int)
    requires -256 <= d < 256
    ensures (Wrap32(d) / 256) % 256 == Mask(d < 0)
  {
    assert Wrap32(d) == if d < 0 then 0x1_0000_0000 + d else d;
  }

  /** The ordering macros are right on differences below 256, so also when one operand is a negative `char`. */
  lemma GtIsMask(o: Operators, x: int, y: int)
    requires o.Lawful() && -256 <= y - x < 256
    ensures Gt(o, x, y) == Mask(x > y)
    ensures Ge(o, y, x) == Mask(x <= y)
  {
    DifferenceMask(x, y);
    assert o.xor(0xFF, 0xFF) == 0;
  }

  lemma NegationMask(z: nat)
    requires z < 0x1_0000_0000
    ensures z < 256 ==> (Wrap32(0 - z) / 256) % 256 == Mask(z != 0)
    ensures 0x1_0000_0000 - 256 < z ==> (Wrap32(0 - z) / 256) % 256 == 0
  {
    assert Wrap32(0 - z) == if z == 0 then 0 else 0x1_0000_0000 - z;
  }

  lemma EqIsMask(o: Operators, x: nat, y: nat)
    requires o.Lawful() && x < 256 && y < 256
    ensures Eq(o, x, y) == Mask(x == y)
  {
    NegationMask(o.xor(x, y));
    assert o.xor(0xFF, 0xFF) == 0;
  }

  /** A negative `char` is "equal" to every small constant: the difference is too small to reach the mask. */
  lemma EqOfNegative(o: Operators, x: int, y: nat)
    requires o.Lawful() && -128 <= x < 0 && y < 128
    ensures Eq(o, x, y) == 0xFF
  {
    assert Wrap32(x) == 0x1_0000_0000 + x;
    NegationMask(o.xor(Wrap32(x), y));
  }

  // ----- characters -----

  function Or5(o: Operators, a: nat, b: nat, c: nat, d: nat, e: nat): nat {
    o.or(o.or(o.or(o.or(a, b), c), d), e)
  }

  function ByteToChar(o: Operators, x: nat): nat {
    Or5(o, o.and(Lt(o, x, 26), Wrap32(x + 65)),
        o.and(o.and(Ge(o, x, 26), Lt(o, x, 52)), Wrap32(x + (97 - 26))),
        o.and(o.and(Ge(o, x, 52), Lt(o, x, 62)), Wrap32(x + (48 - 52))),
        o.and(Eq(o, x, 62), 43), o.and(Eq(o, x, 63), 47))
  }

  /** The value before the test for characters outside the alphabet, which also gives 0 for them. */
  function RawValue(o: Operators, c: int): nat {
    Or5(o, o.and(o.and(Ge(o, c, 65), Le(o, c, 90)), Wrap32(c - 65)),
        o.and(o.and(Ge(o, c, 97), Le(o, c, 122)), Wrap32(c - (97 - 26))),
        o.and(o.and(Ge(o, c, 48), Le(o, c, 57)), Wrap32(c - (48 - 52))),
        o.and(Eq(o, c, 43), 62), o.and(Eq(o, c, 47), 63))
  }

  function CharToByte(o: Operators, c: int): nat {
    var x := RawValue(o, c);
    o.or(x, o.and(Eq(o, x, 0), o.xor(Eq(o, c, 65), 0xFF)))
  }

  /** The alphabet of section 4 of RFC 4648. */
  function Alphabet(v: Sextet): (c: Char)
    ensures 43 <= c <= 122
  {
    if v < 26 then 65 + v
    else if v < 52 then 97 + (v - 26)
    else if v < 62 then 48 + (v - 52)
    else if v == 62 then 43 else 47
  }

  /** The value a character stands for; 63 is what the code makes of a negative `char`. */
  function CharValue(c: Char): nat {
    if 65 <= c <= 90 then c - 65
    else if 97 <= c <= 122 then c - 71
    else if 48 <= c <= 57 then c + 4
    else if c == 43 then 62
    else if c == 47 || c < 0 then 63
    else INVALID
  }

  /** One range of the maps: a mask over a value that fits in a byte inside the range. */
  lemma InRange(o: Operators, x: int, low: int, high: int, value: int)
    requires o.Lawful() && -256 < x - low < 256 && -256 < x - high < 256
    requires low <= x <= high ==> 0 <= value < 256
    ensures o.and(o.and(Ge(o, x, low), Lt(o, x, high)), Wrap32(value)) == if low <= x < high then value else 0
    ensures o.and(o.and(Ge(o, x, low), Le(o, x, high)), Wrap32(value)) == if low <= x <= high then value else 0
  {
    GtIsMask(o, low, x);
    GtIsMask(o, high, x);
    GtIsMask(o, x, high);
  }

  lemma Below(o: Operators, x: nat, high: nat, value: nat)
    requires o.Lawful() && x < 256 && high < 256 && value < 256
    ensures o.and(Lt(o, x, high), Wrap32(value)) == if x < high then value else 0
  {
    GtIsMask(o, high, x);
    MaskedValue(o, x < high, value);
  }

  lemma MaskedValue(o: Operators, b: bool, value: nat)
    requires o.Lawful()
    ensures o.and(Mask(b), value) == if b then value % 256 else 0
  {
  }

  lemma OnlyOne(o: Operators, a: nat, b: nat, c: nat, d: nat, e: nat)
    requires o.Lawful()
    requires (a == 0 || b == 0) && (a == 0 || c == 0) && (a == 0 || d == 0) && (a == 0 || e == 0)
    requires (b == 0 || c == 0) && (b == 0 || d == 0) && (b == 0 || e == 0)
    requires (c == 0 || d == 0) && (c == 0 || e == 0) && (d == 0 || e == 0)
    ensures Or5(o, a, b, c, d, e) == a + b + c + d + e
  {
  }

  /** The printed character is the one of the alphabet. */
  lemma ByteToCharIsAlphabet(o: Operators, v: Sextet)
    requires o.Lawful()
    ensures ByteToChar(o, v) == Alphabet(v)
  {
    Below(o, v, 26, v + 65);
    InRange(o, v, 26, 52, v + 71);
    InRange(o, v, 52, 62, v - 4);
    EqIsMask(o, v, 62);
    EqIsMask(o, v, 63);
    OnlyOne(o, if v < 26 then v + 65 else 0, if 26 <= v < 52 then v + 71 else 0, if 52 <= v < 62 then v - 4 else 0,
            if v == 62 then 43 else 0, if v == 63 then 47 else 0);
  }

  lemma RawOfCode(o: Operators, c: Char)
    requires o.Lawful() && c >= 0
    ensures RawValue(o, c) == if CharValue(c) == INVALID then 0 else CharValue(c)
  {
    InRange(o, c, 65, 90, c - 65);
    InRange(o, c, 97, 122, c - 71);
    InRange(o, c, 48, 57, c + 4);
    EqIsMask(o, c, 43);
    EqIsMask(o, c, 47);
    OnlyOne(o, if 65 <= c <= 90 then c - 65 else 0, if 97 <= c <= 122 then c - 71 else 0,
            if 48 <= c <= 57 then c + 4 else 0,
            if c == 43 then 62 else 0, if c == 47 then 63 else 0);
  }

  lemma RawOfNegative(o: Operators, c: Char)
    requires o.Lawful() && c < 0
    ensures RawValue(o, c) == 63
  {
    InRange(o, c, 65, 90, c - 65);
    InRange(o, c, 97, 122, c - 71);
    InRange(o, c, 48, 57, c + 4);
    EqOfNegative(o, c, 43);
    EqOfNegative(o, c, 47);
    assert Or5(o, 0, 0, 0, 62, 63) == 63;
  }

  /** The map back is the inverse alphabet on codes 0..255, and 63 on every negative `char`. */
  lemma CharToByteIsValue(o: Operators, c: Char)
    requires o.Lawful()
    ensures CharToByte(o, c) == CharValue(c)
  {
    if c < 0 {
      RawOfNegative(o, c);
      EqIsMask(o, 63, 0);
    } else {
      RawOfCode(o, c);
      EqIsMask(o, c, 65);
      EqIsMask(o, RawValue(o, c), 0);
      assert o.xor(0xFF, 0xFF) == 0;
    }
  }

  /** Decoding a character gives back the group it was printed for, and a character stands for the group it
      decodes to exactly when it is not a negative `char`. */
  lemma CharsInverse(v: Sextet, c: Char)
    ensures CharValue(Alphabet(v)) == v
    ensures CharValue(c) < 64 ==> (Alphabet(CharValue(c)) == c <==> c >= 0)
  {
  }
}
