// Base64 without padding (encoding.c, first section; sections 3.2, 3.5 and 4 of RFC 4648): two loops around an
// accumulator that is never masked, proved against the groups of six bits they stand for.
module Base64 {
  import opened Arith
  import opened Base64Chars
  import opened Bits
  import opened Common

  type Text = seq<Char>

  // ----- specification: which bits go where -----

  function ByteOrZero(s: seq<byte>, i: nat): byte {
    if i < |s| then s[i] else 0
  }

  /** The four groups of three bytes. */
  function Split(a: byte, b: byte, c: byte, r: nat): Sextet {
    if r == 0 then a as int / 4
    else if r == 1 then a as int % 4 * 16 + b as int / 16
    else if r == 2 then b as int % 16 * 4 + c as int / 64
    else c as int % 64
  }

  /** The three bytes of four groups. */
  function Join(a: Sextet, b: Sextet, c: Sextet, d: Sextet, r: nat): byte {
    if r == 0 then a as int * 4 + b as int / 16
    else if r == 1 then b as int % 16 * 16 + c as int / 4
    else c as int % 4 * 64 + d as int
  }

  /** Group `r` of the four that three bytes from index `3 * q` give, missing bits filled up with zeros. */
  function GroupAt(s: seq<byte>, q: nat, r: nat): Sextet {
    Split(ByteOrZero(s, 3 * q), ByteOrZero(s, 3 * q + 1), ByteOrZero(s, 3 * q + 2), r)
  }

  /** The `k`-th group of six bits of a byte string. */
  function Group(s: seq<byte>, k: nat): Sextet {
    GroupAt(s, k / 4, k % 4)
  }

  /** `b64len`, and `olen` of `to_base64`. */
  function B64Len(n: nat): nat {
    n / 3 * 4 + (if n % 3 == 2 then 3 else if n % 3 == 1 then 2 else 0)
  }

  function Groups(s: seq<byte>): (t: seq<Sextet>)
    ensures |t| == B64Len(|s|)
  {
    seq(B64Len(|s|), k requires 0 <= k < B64Len(|s|) => Group(s, k))
  }

  function Printed(t: seq<Sextet>): (r: Text)
    ensures |r| == |t|
  {
    seq(|t|, k requires 0 <= k < |t| => Alphabet(t[k]))
  }

  function Encode(s: seq<byte>): (r: Text)
    ensures |r| == B64Len(|s|)
  {
    Printed(Groups(s))
  }

  function SextetOrZero(t: seq<Sextet>, i: nat): Sextet {
    if i < |t| then t[i] else 0
  }

  /** Byte `r` of the three that four groups from index `4 * q` give. */
  function ByteAt(t: seq<Sextet>, q: nat, r: nat): byte {
    Join(SextetOrZero(t, 4 * q), SextetOrZero(t, 4 * q + 1), SextetOrZero(t, 4 * q + 2), SextetOrZero(t, 4 * q + 3), r)
  }

  /** The `j`-th whole byte of a string of groups. */
  function ByteOf(t: seq<Sextet>, j: nat): byte {
    ByteAt(t, j / 3, j % 3)
  }

  /** No group is left over on its own, and the bits that do not fill a byte are zero. */
  predicate NoLeftover(t: seq<Sextet>) {
    || |t| % 4 == 0
    || (|t| % 4 == 2 && t[|t| - 1] % 16 == 0)
    || (|t| % 4 == 3 && t[|t| - 1] % 4 == 0)
  }

  /** Whole bytes in `n` groups. */
  function ByteCount(n: nat): nat {
    n / 4 * 3 + (if n % 4 == 0 then 0 else n % 4 - 1)
  }

  function Bytes(t: seq<Sextet>): (s: seq<byte>)
    ensures |s| == ByteCount(|t|)
  {
    seq(ByteCount(|t|), j requires 0 <= j < ByteCount(|t|) => ByteOf(t, j))
  }

  // ----- the two directions are inverse -----

  lemma JoinSplit(a: byte, b: byte, c: byte, d: Sextet, e: Sextet)
    ensures Join(Split(a, b, c, 0), Split(a, b, c, 1), d, e, 0) == a
    ensures Join(d, Split(a, b, c, 1), Split(a, b, c, 2), e, 1) == b
    ensures Join(d, e, Split(a, b, c, 2), Split(a, b, c, 3), 2) == c
  {
  }

  lemma SplitJoin(a: Sextet, b: Sextet, c: Sextet, d: Sextet, x: byte, y: byte)
    ensures Split(Join(a, b, c, d, 0), x, y, 0) == a
    ensures Split(Join(a, b, c, d, 0), Join(a, b, c, d, 1), y, 1) == b
    ensures Split(x, Join(a, b, c, d, 1), Join(a, b, c, d, 2), 2) == c
    ensures Split(x, y, Join(a, b, c, d, 2), 3) == d
    ensures b % 16 == 0 ==> Split(Join(a, b, c, d, 0), 0, y, 1) == b
    ensures c % 4 == 0 ==> Split(x, Join(a, b, c, d, 1), 0, 2) == c
  {
  }

  lemma GroupsAt(s: seq<byte>, q: nat, r: nat)
    requires r < 4 && 4 * q + r < B64Len(|s|)
    ensures Groups(s)[4 * q + r] == GroupAt(s, q, r)
  {
    assert (4 * q + r) / 4 == q && (4 * q + r) % 4 == r;
  }

  lemma BytesAt(t: seq<Sextet>, q: nat, r: nat)
    requires r < 3 && 3 * q + r < ByteCount(|t|)
    ensures Bytes(t)[3 * q + r] == ByteAt(t, q, r)
  {
    assert (3 * q + r) / 3 == q && (3 * q + r) % 3 == r;
  }

  lemma LengthsInverse(n: nat)
    ensures ByteCount(B64Len(n)) == n
    ensures n % 4 != 1 ==> B64Len(ByteCount(n)) == n
    ensures B64Len(n) % 4 != 1
  {
    var q, r := n / 3, n % 3;
    assert B64Len(n) == 4 * q + (if r == 0 then 0 else r + 1);
    assert B64Len(n) / 4 == q && B64Len(n) % 4 == (if r == 0 then 0 else r + 1);
    var q', r' := n / 4, n % 4;
    if r' != 1 {
      assert ByteCount(n) == 3 * q' + (if r' == 0 then 0 else r' - 1);
      assert ByteCount(n) / 3 == q' && ByteCount(n) % 3 == (if r' == 0 then 0 else r' - 1);
    }
  }

  lemma GroupsCover(q: nat, r: nat, n: nat)
    requires r < 3 && 3 * q + r < n
    ensures 4 * q + r + 1 < B64Len(n)
  {
    var q', r' := n / 3, n % 3;
    assert n == 3 * q' + r';
  }

  lemma ByteOfGroups(s: seq<byte>, q: nat, r: nat)
    requires r < 3 && 3 * q + r < |s|
    ensures ByteAt(Groups(s), q, r) == s[3 * q + r]
  {
    hide Groups, Split, B64Len;
    var t := Groups(s);
    GroupsCover(q, r, |s|);
    GroupsAt(s, q, r);
    GroupsAt(s, q, r + 1);
    JoinOfSplit(ByteOrZero(s, 3 * q), ByteOrZero(s, 3 * q + 1), ByteOrZero(s, 3 * q + 2),
                SextetOrZero(t, 4 * q), SextetOrZero(t, 4 * q + 1), SextetOrZero(t, 4 * q + 2),
                SextetOrZero(t, 4 * q + 3), r);
  }

  lemma JoinOfSplit(a: byte, b: byte, c: byte, w: Sextet, x: Sextet, y: Sextet, z: Sextet, r: nat)
    requires r == 0 ==> w == Split(a, b, c, 0) && x == Split(a, b, c, 1)
    requires r == 1 ==> x == Split(a, b, c, 1) && y == Split(a, b, c, 2)
    requires r == 2 ==> y == Split(a, b, c, 2) && z == Split(a, b, c, 3)
    requires r < 3
    ensures Join(w, x, y, z, r) == if r == 0 then a else if r == 1 then b else c
  {
    if r == 0 { JoinSplit(a, b, c, y, z); }
    if r == 1 { JoinSplit(a, b, c, w, z); }
    if r == 2 { JoinSplit(a, b, c, w, x); }
  }

  lemma GroupsLeftover(s: seq<byte>)
    ensures NoLeftover(Groups(s))
  {
    var t, q := Groups(s), |s| / 3;
    LengthsInverse(|s|);
    if |s| % 3 == 1 {
      GroupsAt(s, q, 1);
      assert t[|t| - 1] == GroupAt(s, q, 1) && ByteOrZero(s, 3 * q + 1) == 0;
    } else if |s| % 3 == 2 {
      GroupsAt(s, q, 2);
      assert t[|t| - 1] == GroupAt(s, q, 2) && ByteOrZero(s, 3 * q + 2) == 0;
    }
  }

  /** Main result: the groups of any byte string decode to it. */
  lemma BytesOfGroups(s: seq<byte>)
    ensures NoLeftover(Groups(s)) && Bytes(Groups(s)) == s
  {
    hide Groups, ByteAt, NoLeftover;
    var t := Groups(s);
    LengthsInverse(|s|);
    GroupsLeftover(s);
    forall j | 0 <= j < |s| ensures Bytes(t)[j] == s[j] {
      ByteOfGroups(s, j / 3, j % 3);
    }
  }

  lemma GroupOfBytes(t: seq<Sextet>, q: nat, r: nat)
    requires NoLeftover(t) && r < 4 && 4 * q + r < |t|
    ensures GroupAt(Bytes(t), q, r) == t[4 * q + r]
  {
    hide Bytes, Split, ByteCount;
    var s := Bytes(t);
    var a, b, c, d := SextetOrZero(t, 4 * q), SextetOrZero(t, 4 * q + 1), SextetOrZero(t, 4 * q + 2),
        SextetOrZero(t, 4 * q + 3);
    var x, y, z := ByteOrZero(s, 3 * q), ByteOrZero(s, 3 * q + 1), ByteOrZero(s, 3 * q + 2);
    PresentBytes(t, q);
    SplitJoin(a, b, c, d, if r == 0 then y else x, if r == 3 then y else z);
  }

  lemma PresentBytes(t: seq<Sextet>, q: nat)
    requires NoLeftover(t) && 4 * q < |t|
    ensures ByteOrZero(Bytes(t), 3 * q) == ByteAt(t, q, 0)
    ensures if 4 * q + 2 < |t| then ByteOrZero(Bytes(t), 3 * q + 1) == ByteAt(t, q, 1)
            else ByteOrZero(Bytes(t), 3 * q + 1) == 0 && SextetOrZero(t, 4 * q + 1) % 16 == 0
    ensures if 4 * q + 3 < |t| then ByteOrZero(Bytes(t), 3 * q + 2) == ByteAt(t, q, 2)
            else ByteOrZero(Bytes(t), 3 * q + 2) == 0 && (4 * q + 2 < |t| ==> SextetOrZero(t, 4 * q + 2) % 4 == 0)
  {
    hide ByteAt;
    BytesAt(t, q, 0);
    if 4 * q + 2 < |t| { BytesAt(t, q, 1); }
    if 4 * q + 3 < |t| { BytesAt(t, q, 2); }
  }

  /** Main result: every accepted string of groups is the one its bytes encode to. */
  lemma GroupsOfBytes(t: seq<Sextet>)
    requires NoLeftover(t)
    ensures Groups(Bytes(t)) == t
  {
    LengthsInverse(|t|);
    forall k | 0 <= k < |t| ensures Groups(Bytes(t))[k] == t[k] {
      GroupOfBytes(t, k / 4, k % 4);
    }
  }

  // ----- the encoding loop -----

  /** `acc >> n`, `acc << n` and the low `n` bits, for the shift distances that occur. */
  function Shr(acc: nat, n: nat): nat {
    if n == 0 then acc else if n == 2 then acc / 4 else if n == 4 then acc / 16 else acc / 64
  }

  function Shl(acc: nat, n: nat): nat {
    if n == 2 then Wrap32(acc * 4) else Wrap32(acc * 16)
  }

  function Low(acc: nat, n: nat): nat {
    if n == 0 then 0 else if n == 2 then acc % 4 else if n == 4 then acc % 16 else acc % 64
  }

  /** Whole groups in `i` bytes. */
  function GroupCount(i: nat): nat {
    i / 3 * 4 + i % 3
  }

  /** Bits held back after `i` bytes. */
  function HeldBack(i: nat): nat {
    if i % 3 == 0 then 0 else if i % 3 == 1 then 2 else 4
  }

  /** The accumulator is never masked; only its low bits are meaningful, and they are the pending ones. */
  ghost predicate Pending(src: seq<byte>, i: nat, acc: nat, accLen: nat) {
    && i <= |src| && accLen == HeldBack(i)
    && (i % 3 == 1 ==> acc % 4 == src[i - 1] % 4)
    && (i % 3 == 2 ==> acc % 16 == src[i - 1] % 16)
  }

  /** `(acc << 8) + b` in an `unsigned`. */
  function PushByte(acc: nat, b: byte): nat {
    Wrap32(Wrap32(acc * 256) + b)
  }

  lemma PushKeepsLow(acc: nat, b: byte)
    ensures PushByte(acc, b) % 256 == b
    ensures PushByte(acc, b) % 1024 == acc % 4 * 256 + b
    ensures PushByte(acc, b) % 4096 == acc % 16 * 256 + b
  {
    ShiftIn(acc, 256, b, 1, 256, 0x100_0000);
    ShiftIn(acc, 256, b, 4, 1024, 0x40_0000);
    ShiftIn(acc, 256, b, 16, 4096, 0x10_0000);
  }

  /** Group `m` cut out of the accumulator after byte `i` has been pushed. */
  lemma CutGroup(src: seq<byte>, i: nat, acc: nat, acc': nat, m: nat)
    requires Pending(src, i, acc, HeldBack(i)) && i < |src| && acc' == PushByte(acc, src[i])
    requires m == 0 || (m == 1 && i % 3 == 2)
    ensures GroupCount(i) + m < B64Len(|src|)
    ensures Shr(acc', HeldBack(i) + 8 - 6 * (m + 1)) % 64 == Group(src, GroupCount(i) + m)
  {
    PushKeepsLow(acc, src[i]);
    var q := i / 3;
    assert (4 * q + i % 3 + m) / 4 == q && (4 * q + i % 3 + m) % 4 == i % 3 + m;
    CutBits(acc', src[i], if i > 0 then src[i - 1] else 0);
  }

  lemma CutBits(acc: nat, b: byte, a: byte)
    ensures acc % 256 == b ==> acc / 4 % 64 == b / 4
    ensures acc % 1024 == a % 4 * 256 + b ==> acc / 16 % 64 == a % 4 * 16 + b / 16
    ensures acc % 4096 == a % 16 * 256 + b ==> acc / 64 % 64 == a % 16 * 4 + b / 64 && acc % 64 == b % 64
  {
    Cut4(acc);
    Cut16(acc);
    Cut64(acc);
  }

  /** Six bits above a cut are not changed by dropping what is above them. */
  lemma Cut4(acc: nat)
    ensures acc / 4 % 64 == acc % 256 / 4
  {
    var h, w := acc / 256, acc % 256;
    AddMultiple(64 * h, 4, w);
    AddMultiple(h, 64, w / 4);
  }

  lemma Cut16(acc: nat)
    ensures acc / 16 % 64 == acc % 1024 / 16
  {
    var h, w := acc / 1024, acc % 1024;
    AddMultiple(64 * h, 16, w);
    AddMultiple(h, 64, w / 16);
  }

  lemma Cut64(acc: nat)
    ensures acc / 64 % 64 == acc % 4096 / 64
    ensures acc % 64 == acc % 4096 % 64
  {
    var h, w := acc / 4096, acc % 4096;
    AddMultiple(64 * h, 64, w);
    AddMultiple(h, 64, w / 64);
  }

  lemma PendingNext(src: seq<byte>, i: nat, acc: nat)
    requires Pending(src, i, acc, HeldBack(i)) && i < |src|
    ensures Pending(src, i + 1, PushByte(acc, src[i]), HeldBack(i + 1))
  {
    PushKeepsLow(acc, src[i]);
    var acc', r := PushByte(acc, src[i]), i % 3;
    assert (i + 1) % 3 == if r == 2 then 0 else r + 1;
    var h := acc' / 256;
    AddMultiple(64 * h, 4, acc' % 256);
    AddMultiple(16 * h, 16, acc' % 256);
  }

  lemma ShiftUp(acc: nat)
    ensures Wrap32(acc * 16) % 64 == acc % 4 * 16
    ensures Wrap32(acc * 4) % 64 == acc % 16 * 4
  {
    var h, h' := acc * 16 / 0x1_0000_0000, acc * 4 / 0x1_0000_0000;
    AddMultiple(acc / 4 - h * 0x400_0000, 64, acc % 4 * 16);
    AddMultiple(acc / 16 - h' * 0x400_0000, 64, acc % 16 * 4);
  }

  lemma LastGroup(src: seq<byte>, acc: nat)
    requires Pending(src, |src|, acc, HeldBack(|src|)) && |src| % 3 != 0
    ensures GroupCount(|src|) == B64Len(|src|) - 1
    ensures Shl(acc, 6 - HeldBack(|src|)) % 64 == Group(src, GroupCount(|src|))
  {
    var q, r := |src| / 3, |src| % 3;
    assert (4 * q + r) / 4 == q && (4 * q + r) % 4 == r;
    ShiftUp(acc);
  }

  /** A buffer in which the first `w` characters of a text have been written from `start` on. */
  function Partly(before: seq<Char>, start: nat, text: Text, w: nat): (r: seq<Char>)
    requires w <= |text| && start + |text| <= |before|
    ensures |r| == |before|
  {
    before[..start] + text[..w] + before[start + w..]
  }

  lemma PartlyNext(before: seq<Char>, start: nat, text: Text, w: nat)
    requires w < |text| && start + |text| <= |before|
    ensures Partly(before, start, text, w)[start + w := text[w]] == Partly(before, start, text, w + 1)
  {
  }

  /** `to_base64`, writing at `start` with room for `dstLen` characters. */
  method ToBase64(dst: array<Char>, start: nat, dstLen: nat, src: seq<byte>) returns (r: Option<nat>)
    requires start + dstLen <= dst.Length
    modifies dst
    ensures r == if dstLen <= |Encode(src)| then None else Some(|Encode(src)|)
    ensures r.Some? ==> dst[..] == Partly(old(dst[..]), start, Encode(src) + [0], |Encode(src)| + 1)
    ensures r.None? ==> dst[..] == old(dst[..])
  {
    hide Encode, PushByte, Group;
    var olen := B64Len(|src|);
    if dstLen <= olen {
      return None;
    }
    ghost var before, text := dst[..], Encode(src) + [0];
    var acc: nat, accLen: nat, w: nat, i: nat := 0, 0, 0, 0;
    while i < |src|
      invariant i <= |src| && Pending(src, i, acc, accLen) && w == GroupCount(i) <= olen
      invariant dst[..] == Partly(before, start, text, w)
    {
      var acc' := PushByte(acc, src[i]);
      accLen, w := EmitGroups(dst, start, src, before, i, acc, acc', accLen + 8, w);
      PendingNext(src, i, acc);
      i, acc := i + 1, acc';
    }
    Terminate(dst, start, src, before, acc, accLen, w);
    return Some(olen);
  }

  /** What follows the loops: the bits held back, filled up with zeros, and the terminating zero. */
  method Terminate(dst: array<Char>, start: nat, ghost src: seq<byte>, ghost before: seq<Char>, acc: nat,
                   accLen: nat, w0: nat)
    requires Pending(src, |src|, acc, accLen) && w0 == GroupCount(|src|) <= B64Len(|src|)
    requires |before| == dst.Length && start + B64Len(|src|) < dst.Length
    requires dst[..] == Partly(before, start, Encode(src) + [0], w0)
    modifies dst
    ensures dst[..] == Partly(before, start, Encode(src) + [0], |Encode(src)| + 1)
  {
    var w := w0;
    AllGroups(|src|);
    if accLen > 0 {
      LastGroup(src, acc);
      WriteGroup(dst, start, src, before, w, Shl(acc, 6 - accLen) % 64);
      w := w + 1;
    }
    PartlyNext(before, start, Encode(src) + [0], w);
    dst[start + w] := 0;
  }

  lemma AllGroups(n: nat)
    ensures GroupCount(n) + (if HeldBack(n) > 0 then 1 else 0) == B64Len(n)
  {
  }

  /** The inner loop: as many groups as the accumulator holds. */
  method EmitGroups(dst: array<Char>, start: nat, ghost src: seq<byte>, ghost before: seq<Char>, ghost i: nat,
                    ghost acc: nat, acc': nat, fullLen: nat, w0: nat) returns (accLen: nat, w: nat)
    requires i < |src| && Pending(src, i, acc, HeldBack(i)) && acc' == PushByte(acc, src[i])
    requires fullLen == HeldBack(i) + 8 && w0 == GroupCount(i)
    requires |before| == dst.Length && start + B64Len(|src|) < dst.Length
    requires dst[..] == Partly(before, start, Encode(src) + [0], w0)
    modifies dst
    ensures accLen == HeldBack(i + 1) && w == GroupCount(i + 1) <= B64Len(|src|)
    ensures dst[..] == Partly(before, start, Encode(src) + [0], w)
  {
    hide Encode, PushByte, Group, Pending;
    accLen, w := fullLen, w0;
    ghost var m := 0;
    while accLen >= 6
      invariant m <= (if i % 3 == 2 then 2 else 1) && accLen == fullLen - 6 * m && w == w0 + m <= B64Len(|src|)
      invariant dst[..] == Partly(before, start, Encode(src) + [0], w)
    {
      accLen := accLen - 6;
      CutGroup(src, i, acc, acc', m);
      WriteGroup(dst, start, src, before, w, Shr(acc', accLen) % 64);
      w, m := w + 1, m + 1;
    }
    GroupsAfter(i);
  }

  lemma GroupsAfter(i: nat)
    ensures GroupCount(i + 1) == GroupCount(i) + (if i % 3 == 2 then 2 else 1)
    ensures HeldBack(i + 1) == HeldBack(i) + 8 - (if i % 3 == 2 then 12 else 6)
  {
    var q, r := i / 3, i % 3;
    assert i + 1 == 3 * q + (r + 1);
    assert if r == 2 then (i + 1) / 3 == q + 1 && (i + 1) % 3 == 0 else (i + 1) / 3 == q && (i + 1) % 3 == r + 1;
  }

  /** `*dst++ = (char)b64_byte_to_char(...)` */
  method WriteGroup(dst: array<Char>, start: nat, ghost src: seq<byte>, ghost before: seq<Char>, w: nat, value: nat)
    requires value < 64 && w < B64Len(|src|) && value == Group(src, w)
    requires |before| == dst.Length && start + B64Len(|src|) < dst.Length
    requires dst[..] == Partly(before, start, Encode(src) + [0], w)
    modifies dst
    ensures dst[..] == Partly(before, start, Encode(src) + [0], w + 1)
  {
    UnsignedIsLawful();
    ByteToCharIsAlphabet(Unsigned(), value);
    PartlyNext(before, start, Encode(src) + [0], w);
    dst[start + w] := ByteToChar(Unsigned(), value);
  }

  // ----- the decoding loop -----

  /** The longest run of characters the map accepts, as groups. */
  function Run(s: Text, pos: nat): (t: seq<Sextet>)
    ensures pos + |t| <= Max(pos, |s|)
    ensures forall k | 0 <= k < |t| :: t[k] == CharValue(s[pos + k])
    ensures pos + |t| < |s| ==> CharValue(s[pos + |t|]) == INVALID
    decreases |s| - pos
  {
    if pos < |s| && CharValue(s[pos]) != INVALID then [CharValue(s[pos])] + Run(s, pos + 1) else []
  }

  /** What `from_base64` returns: the bytes, and the position after the run. */
  function Parse(s: Text, pos: nat, capacity: nat): Option<(seq<byte>, nat)> {
    var t := Run(s, pos);
    if NoLeftover(t) && ByteCount(|t|) <= capacity then Some((Bytes(t), pos + |t|)) else None
  }

  /** Bits not yet written after `n` groups. */
  function Unwritten(n: nat): (bits: nat)
    ensures bits <= 6
  {
    if n % 4 == 0 then 0 else if n % 4 == 1 then 6 else if n % 4 == 2 then 4 else 2
  }

  /** Again only the low bits of the accumulator count. */
  ghost predicate Buffered(t: seq<Sextet>, n: nat, acc: nat, accLen: nat) {
    && n <= |t| && accLen == Unwritten(n)
    && (n % 4 == 1 ==> acc % 64 == t[n - 1])
    && (n % 4 == 2 ==> acc % 16 == t[n - 1] % 16)
    && (n % 4 == 3 ==> acc % 4 == t[n - 1] % 4)
  }

  /** `(acc << 6) + d` in an `unsigned`. */
  function PushGroup(acc: nat, d: Sextet): nat {
    Wrap32(Wrap32(acc * 64) + d)
  }

  lemma PushGroupKeepsLow(acc: nat, v: Sextet)
    ensures PushGroup(acc, v) % 64 == v
    ensures PushGroup(acc, v) % 256 == acc % 4 * 64 + v
    ensures PushGroup(acc, v) % 1024 == acc % 16 * 64 + v
    ensures PushGroup(acc, v) % 4096 == acc % 64 * 64 + v
  {
    ShiftIn(acc, 64, v, 1, 64, 0x400_0000);
    ShiftIn(acc, 64, v, 4, 256, 0x100_0000);
    ShiftIn(acc, 64, v, 16, 1024, 0x40_0000);
    ShiftIn(acc, 64, v, 64, 4096, 0x10_0000);
  }

  lemma BufferedNext(t: seq<Sextet>, n: nat, acc: nat)
    requires Buffered(t, n, acc, Unwritten(n)) && n < |t|
    ensures Buffered(t, n + 1, PushGroup(acc, t[n]), Unwritten(n + 1))
  {
    var acc' := PushGroup(acc, t[n]);
    PushGroupKeepsLow(acc, t[n]);
    SmallerModulus(acc', 16);
    SmallerModulus(acc', 4);
  }

  lemma SmallerModulus(x: nat, d: nat)
    requires d == 4 || d == 16
    ensures x % d == x % 64 % d
  {
    var h := x / 64;
    if d == 4 { AddMultiple(16 * h, 4, x % 64); } else { AddMultiple(4 * h, 16, x % 64); }
  }

  lemma CutByteValue(acc: nat, a: Sextet, v: Sextet)
    ensures PushGroup(acc, v) / 16 % 256 == acc % 64 * 4 + v / 16
    ensures PushGroup(acc, v) / 4 % 256 == acc % 16 * 16 + v / 4
    ensures PushGroup(acc, v) % 256 == acc % 4 * 64 + v
  {
    PushGroupKeepsLow(acc, v);
    ByteCut(PushGroup(acc, v), 16);
    ByteCut(PushGroup(acc, v), 4);
    JoinCut(acc % 64, v);
    JoinCut(acc % 16, v);
  }

  lemma JoinCut(a: Sextet, b: Sextet)
    ensures (a * 64 + b) / 16 == a * 4 + b / 16
    ensures a < 16 ==> (a * 64 + b) / 4 == a * 16 + b / 4
  {
  }

  lemma ByteOfAt(t: seq<Sextet>, q: nat, r: nat)
    requires r < 3
    ensures ByteOf(t, 3 * q + r) == ByteAt(t, q, r)
  {
    assert (3 * q + r) / 3 == q && (3 * q + r) % 3 == r;
  }

  /** The byte cut out of the accumulator once a group has been pushed. */
  lemma CutByte(t: seq<Sextet>, n: nat, acc: nat)
    requires Buffered(t, n, acc, Unwritten(n)) && n < |t| && n % 4 != 0
    ensures Shr(PushGroup(acc, t[n]), Unwritten(n + 1)) % 256 == ByteOf(t, ByteCount(n))
    ensures ByteCount(n + 1) == ByteCount(n) + 1 <= ByteCount(|t|)
  {
    hide PushGroup, ByteOf;
    GroupsRead(n);
    var q, r := n / 4, n % 4;
    assert ByteCount(n) == 3 * q + (r - 1);
    CountMono(n + 1, |t|);
    ByteOfAt(t, q, r - 1);
    CutByteValue(acc, t[n - 1], t[n]);
    assert SextetOrZero(t, n) == t[n] && SextetOrZero(t, n - 1) == t[n - 1];
  }

  lemma ByteCut(acc: nat, d: nat)
    requires d == 4 || d == 16
    ensures acc / d % 256 == (if d == 4 then acc % 1024 else acc % 4096) / d
  {
    if d == 4 {
      CutBelow(acc, 256 * (acc / 1024), acc % 1024, 4);
      LowByte(acc / 1024, acc % 1024 / 4);
    } else {
      CutBelow(acc, 256 * (acc / 4096), acc % 4096, 16);
      LowByte(acc / 4096, acc % 4096 / 16);
    }
  }

  lemma CutBelow(acc: nat, k: nat, w: nat, d: nat)
    requires d > 0 && acc == k * d + w && w < 256 * d
    ensures acc / d == k + w / d && w / d < 256
  {
    AddMultiple(k, d, w);
    QuotientBelow(w, d, 256);
  }

  lemma LowByte(h: nat, v: nat)
    requires v < 256
    ensures (256 * h + v) % 256 == v
  {
  }

  /** The test after the loop rejects exactly the runs with a lone group or non-zero bits left over. */
  lemma LeftoverTest(t: seq<Sextet>, acc: nat)
    requires Buffered(t, |t|, acc, Unwritten(|t|))
    ensures !(Unwritten(|t|) > 4 || Low(acc, Unwritten(|t|)) != 0) <==> NoLeftover(t)
  {
  }

  /** The `char` at a position of a C string; the terminating zero is not part of the text. */
  function CharAt(s: Text, pos: nat): Char {
    if pos < |s| then s[pos] else 0
  }

  /** One round of the loop: the buffer moves on by six bits and, except after every fourth group, gives up a byte. */
  lemma ReadGroup(t: seq<Sextet>, n: nat, acc: nat)
    requires Buffered(t, n, acc, Unwritten(n)) && n < |t|
    ensures Buffered(t, n + 1, PushGroup(acc, t[n]), Unwritten(n + 1))
    ensures Unwritten(n) + 6 - (if n % 4 == 0 then 0 else 8) == Unwritten(n + 1)
    ensures ByteCount(n + 1) == ByteCount(n) + (if n % 4 == 0 then 0 else 1) <= ByteCount(|t|)
    ensures n % 4 != 0 ==> Shr(PushGroup(acc, t[n]), Unwritten(n + 1)) % 256 == ByteOf(t, ByteCount(n))
  {
    BufferedNext(t, n, acc);
    GroupsRead(n);
    CountMono(n + 1, |t|);
    if n % 4 != 0 { CutByte(t, n, acc); }
  }

  lemma {:induction false} RunStops(s: Text, pos: nat, n: nat)
    requires pos <= |s| && n <= |Run(s, pos)| && CharValue(CharAt(s, pos + n)) == INVALID
    ensures n == |Run(s, pos)|
    decreases n
  {
    if n > 0 { RunStops(s, pos + 1, n - 1); }
  }

  /** `b64_char_to_byte(*src)` */
  method ReadChar(c: Char) returns (d: nat)
    ensures d == CharValue(c)
  {
    UnsignedIsLawful();
    CharToByteIsValue(Unsigned(), c);
    d := CharToByte(Unsigned(), c);
  }

  lemma RunGoesOn(s: Text, pos: nat, n: nat)
    requires pos <= |s| && n <= |Run(s, pos)| && CharValue(CharAt(s, pos + n)) != INVALID
    ensures n < |Run(s, pos)| && Run(s, pos)[n] == CharValue(CharAt(s, pos + n))
  {
  }

  lemma NothingRead(t: seq<Sextet>)
    ensures Buffered(t, 0, 0, 0) && ByteCount(0) == 0 && Unwritten(0) == 0
  {
  }

  /** The loop of `from_base64`, over the whole run or until the buffer is full. */
  method DecodeRun(dst: array<byte>, capacity: nat, s: Text, pos: nat)
    returns (ok: bool, len: nat, p: nat, acc: nat, accLen: nat)
    requires capacity <= dst.Length && pos <= |s|
    modifies dst
    ensures ok <==> ByteCount(|Run(s, pos)|) <= capacity
    ensures ok ==> && p == pos + |Run(s, pos)| && Buffered(Run(s, pos), |Run(s, pos)|, acc, accLen)
                   && len == ByteCount(|Run(s, pos)|)
                   && forall j :: 0 <= j < len ==> dst[j] == ByteOf(Run(s, pos), j)
    ensures dst[capacity..] == old(dst[capacity..])
  {
    hide ByteOf, Run, PushGroup, Shr, ByteCount, Buffered, Unwritten, CharValue;
    ghost var t, n := Run(s, pos), 0;
    acc, accLen, len, p := 0, 0, 0, pos;
    NothingRead(t);
    while true
      invariant n <= |t| && p == pos + n && Buffered(t, n, acc, accLen) && accLen == Unwritten(n)
      invariant len == ByteCount(n) <= capacity
      invariant forall j :: 0 <= j < len ==> dst[j] == ByteOf(t, j)
      invariant dst[capacity..] == old(dst[capacity..])
      decreases |t| - n
    {
      var d := ReadChar(CharAt(s, p));
      if d == 0xFF {
        RunStops(s, pos, n);
        return true, len, p, acc, accLen;
      }
      RunGoesOn(s, pos, n);
      ReadGroup(t, n, acc);
      p := p + 1;
      acc, accLen, n := PushGroup(acc, d), accLen + 6, n + 1;
      if accLen >= 8 {
        accLen := accLen - 8;
        if len >= capacity {
          return false, len, p, acc, accLen;
        }
        dst[len] := Shr(acc, accLen) % 256;
        len := len + 1;
      }
    }
  }

  /** `from_base64`, into the first `capacity` bytes of `dst`. */
  method FromBase64(dst: array<byte>, capacity: nat, s: Text, pos: nat) returns (r: Option<(nat, nat)>)
    requires capacity <= dst.Length && pos <= |s|
    modifies dst
    ensures r.Some? == Parse(s, pos, capacity).Some?
    ensures r.Some? ==> var (bytes, end) := Parse(s, pos, capacity).value;
                        r.value == (|bytes|, end) && dst[..|bytes|] == bytes
    ensures dst[capacity..] == old(dst[capacity..])
  {
    var ok, len, p, acc, accLen := DecodeRun(dst, capacity, s, pos);
    if !ok {
      return None;
    }
    LeftoverTest(Run(s, pos), acc);
    if accLen > 4 || Low(acc, accLen) != 0 {
      return None;
    }
    return Some((len, p));
  }

  lemma GroupsRead(n: nat)
    ensures Unwritten(n) + 6 - (if n % 4 == 0 then 0 else 8) == Unwritten(n + 1)
    ensures ByteCount(n + 1) == ByteCount(n) + (if n % 4 == 0 then 0 else 1)
  {
    var q, r := n / 4, n % 4;
    assert n + 1 == 4 * q + (r + 1);
    assert if r == 3 then (n + 1) / 4 == q + 1 && (n + 1) % 4 == 0 else (n + 1) / 4 == q && (n + 1) % 4 == r + 1;
  }

  lemma {:induction false} CountMono(m: nat, n: nat)
    requires m <= n
    ensures ByteCount(m) <= ByteCount(n)
  {
    if m < n {
      CountMono(m, n - 1);
      GroupsRead(n - 1);
    }
  }

  // ----- texts -----

  /** Main result: printing and parsing back, whatever follows that is not a Base64 character. */
  lemma ParseOfEncode(before: Text, s: seq<byte>, after: Text, capacity: nat)
    requires after != [] ==> CharValue(after[0]) == INVALID
    ensures Parse(before + Encode(s) + after, |before|, capacity)
            == if |s| <= capacity then Some((s, |before| + |Encode(s)|)) else None
  {
    hide Groups, Bytes, Printed, NoLeftover, Run;
    var t := Groups(s);
    RunOfPrinted(before, t, after);
    BytesOfGroups(s);
    ParseOfRun(before + Printed(t) + after, |before|, t, capacity);
  }

  lemma ParseOfRun(text: Text, pos: nat, t: seq<Sextet>, capacity: nat)
    requires Run(text, pos) == t && NoLeftover(t)
    ensures Parse(text, pos, capacity) == if |Bytes(t)| <= capacity then Some((Bytes(t), pos + |t|)) else None
  {
  }

  lemma RunStep(s: Text, pos: nat, v: Sextet)
    requires pos < |s| && s[pos] == Alphabet(v)
    ensures Run(s, pos) == [v] + Run(s, pos + 1)
  {
    CharsInverse(v, s[pos]);
  }

  lemma {:induction false} RunOfPrinted(before: Text, t: seq<Sextet>, after: Text)
    requires after != [] ==> CharValue(after[0]) == INVALID
    ensures Run(before + Printed(t) + after, |before|) == t
    decreases |t|
  {
    var s := before + Printed(t) + after;
    if t == [] {
      assert s == before + after;
    } else {
      var before' := before + [Alphabet(t[0])];
      assert before' + Printed(t[1..]) + after == s;
      RunOfPrinted(before', t[1..], after);
      RunStep(s, |before|, t[0]);
    }
  }

  predicate NoNegative(s: Text) {
    forall k | 0 <= k < |s| :: s[k] >= 0
  }

  /** Main result: an accepted run is what its bytes print to exactly when it has no negative `char`. On hosts where
      `char` is signed, bytes above 127 are accepted as if they were '/'. */
  lemma EncodeOfParse(s: Text, pos: nat, capacity: nat, bytes: seq<byte>, end: nat)
    requires pos <= |s| && Parse(s, pos, capacity) == Some((bytes, end))
    ensures pos <= end <= |s|
    ensures Encode(bytes) == s[pos..end] <==> NoNegative(s[pos..end])
  {
    hide Encode, Printed, Groups, NoNegative;
    var t := Run(s, pos);
    var run := s[pos..pos + |t|];
    GroupsOfBytes(t);
    PrintedGroups(bytes, t);
    RunIsPrinted(s, pos, t, run);
    assert s[pos..end] == run;
  }

  lemma PrintedGroups(bytes: seq<byte>, t: seq<Sextet>)
    requires Groups(bytes) == t
    ensures Encode(bytes) == Printed(t)
  {
  }

  lemma RunIsPrinted(s: Text, pos: nat, t: seq<Sextet>, run: Text)
    requires pos <= |s| && t == Run(s, pos) && run == s[pos..pos + |t|]
    ensures Printed(t) == run <==> NoNegative(run)
  {
    var printed := Printed(t);
    forall k | 0 <= k < |t| ensures printed[k] == run[k] <==> run[k] >= 0 {
      CharsInverse(t[k], run[k]);
    }
  }

  /** An input on which the round trip fails: a negative character before "AAA" is accepted. */
  lemma NegativeCharAccepted()
    ensures var s: Text := [-1, 65, 65, 65];
            Parse(s, 0, 3).Some? && Parse(s, 0, 3).value.1 == 4 && Encode(Parse(s, 0, 3).value.0) != s
  {
    var s: Text := [-1, 65, 65, 65];
    assert |Run(s, 3)| == 1 && |Run(s, 2)| == 2 && |Run(s, 1)| == 3 && |Run(s, 0)| == 4;
    EncodeOfParse(s, 0, 3, Parse(s, 0, 3).value.0, 4);
    assert s[0..4] == s && s[0] < 0;
  }
}
