// Contexts, instances and positions (argon2.h, core.h), input validation (core.c) and memory sizing (argon2.c).
module Argon2Instance {
  import opened Common
  import opened Arith

  const SYNC_POINTS := 4
  const VERSION_10 := 0x10
  const VERSION_NUMBER := 0x13
  const MAX_LANES := 0xFF_FFFF

  datatype ArgonType = ArgonD | ArgonI | ArgonId

  /** A pointer and the bytes behind it. */
  datatype Buffer = Null | Data(bytes: seq<byte>)

  datatype Context = Context(
    out: Buffer, outlen: nat,
    pwd: Buffer, pwdlen: nat,
    salt: Buffer, saltlen: nat,
    secret: Buffer, secretlen: nat,
    ad: Buffer, adlen: nat,
    tCost: nat, mCost: nat, lanes: nat, threads: nat,
    version: nat,
    hasAllocate: bool, hasFree: bool)
  {
    /** Every numeric field is an `uint32_t`. */
    predicate Fits() {
      && outlen < TWO_32 && pwdlen < TWO_32 && saltlen < TWO_32 && secretlen < TWO_32 && adlen < TWO_32
      && tCost < TWO_32 && mCost < TWO_32 && lanes < TWO_32 && threads < TWO_32 && version < TWO_32
    }
  }

  datatype Status =
    | OK | OutputPtrNull | OutputTooShort | PwdPtrMismatch | SaltPtrMismatch | SaltTooShort
    | SecretPtrMismatch | AdPtrMismatch | MemoryTooLittle | TimeTooSmall | LanesTooFew | LanesTooMany
    | ThreadsTooFew | ThreadsTooMany | FreeMemoryCbkNull | AllocateMemoryCbkNull
    | EncodingFail | DecodingFail

  /** The checks in the order the source makes them. The upper bounds equal to UINT32_MAX cannot fail on
      an `uint32_t` (memory cost included, on a 64-bit host) and are not repeated. `8 * lanes` is
      an `uint32_t` product, taken before the lane count itself is checked. */
  function ValidateInputs(c: Context): Status {
    if c.out == Null then OutputPtrNull
    else if c.outlen < 4 then OutputTooShort
    else if c.pwd == Null && c.pwdlen != 0 then PwdPtrMismatch
    else if c.salt == Null && c.saltlen != 0 then SaltPtrMismatch
    else if c.saltlen < 8 then SaltTooShort
    else if c.secret == Null && c.secretlen != 0 then SecretPtrMismatch
    else if c.ad == Null && c.adlen != 0 then AdPtrMismatch
    else if c.mCost < 2 * 4 then MemoryTooLittle
    else if c.mCost < Wrap32(8 * c.lanes) then MemoryTooLittle
    else if c.tCost < 1 then TimeTooSmall
    else if c.lanes < 1 then LanesTooFew
    else if c.lanes > MAX_LANES then LanesTooMany
    else if c.threads < 1 then ThreadsTooFew
    else if c.threads > MAX_LANES then ThreadsTooMany
    else if c.hasAllocate && !c.hasFree then FreeMemoryCbkNull
    else if !c.hasAllocate && c.hasFree then AllocateMemoryCbkNull
    else OK
  }

  /** The contexts that pass, over the integers: no product wraps into acceptance. */
  lemma AcceptedExactly(c: Context)
    requires c.Fits()
    ensures ValidateInputs(c) == OK <==>
              && 4 <= c.outlen && 8 <= c.saltlen
              && 1 <= c.tCost && 1 <= c.lanes <= 0xFF_FFFF && 1 <= c.threads <= 0xFF_FFFF && 8 * c.lanes <= c.mCost
              && c.out.Data? && (c.pwd.Data? || c.pwdlen == 0) && c.salt.Data?
              && (c.secret.Data? || c.secretlen == 0) && (c.ad.Data? || c.adlen == 0)
              && (c.hasAllocate <==> c.hasFree)
  {
    if c.lanes <= MAX_LANES {
      Unwrapped(8 * c.lanes);
    }
  }

  /** A refusal names a condition that fails. */
  lemma RefusalMeans(c: Context)
    requires c.Fits()
    ensures match ValidateInputs(c)
            case OK => true
            case OutputPtrNull => c.out == Null
            case OutputTooShort => c.outlen < 4
            case PwdPtrMismatch => c.pwd == Null && c.pwdlen != 0
            case SaltPtrMismatch => c.salt == Null && c.saltlen != 0
            case SaltTooShort => c.saltlen < 8
            case SecretPtrMismatch => c.secret == Null && c.secretlen != 0
            case AdPtrMismatch => c.ad == Null && c.adlen != 0
            case MemoryTooLittle => c.mCost < 8 || c.mCost < 8 * c.lanes
            case TimeTooSmall => c.tCost == 0
            case LanesTooFew => c.lanes == 0
            case LanesTooMany => c.lanes > 0xFF_FFFF
            case ThreadsTooFew => c.threads == 0
            case ThreadsTooMany => c.threads > 0xFF_FFFF
            case FreeMemoryCbkNull => c.hasAllocate && !c.hasFree
            case AllocateMemoryCbkNull => !c.hasAllocate && c.hasFree
            case _ => false
  {
    assert Wrap32(8 * c.lanes) <= 8 * c.lanes;
  }

  datatype Instance = Instance(
    version: nat, passes: nat, memoryBlocks: nat, segmentLength: nat, laneLength: nat,
    lanes: nat, threads: nat, kind: ArgonType)
  {
    /** Four equal segments of at least two blocks in every lane, and lane offsets that fit in 32 bits. */
    predicate Shaped() {
      && 1 <= lanes <= MAX_LANES
      && 2 <= segmentLength
      && laneLength == 4 * segmentLength < TWO_32
      && 1 <= threads <= lanes
      && 1 <= passes < TWO_32
    }

    /** First column of a slice, or of the end for slice 4: multiplication, spelled out so that it stays linear. */
    function SliceStart(slice: nat): nat {
      if slice == 0 then 0
      else if slice == 1 then segmentLength
      else if slice == 2 then 2 * segmentLength
      else if slice == 3 then 3 * segmentLength
      else 4 * segmentLength
    }

    lemma SliceStartIsProduct(slice: nat)
      requires slice <= SYNC_POINTS
      ensures SliceStart(slice) == slice * segmentLength
    {
    }

    /** First block of a lane: multiplication by the lane length as repeated addition, so that it stays linear. */
    function LaneBase(lane: nat): nat {
      if lane == 0 then 0 else LaneBase(lane - 1) + laneLength
    }

    lemma {:induction false} LaneBaseIsProduct(lane: nat)
      ensures LaneBase(lane) == lane * laneLength
    {
      if lane > 0 {
        LaneBaseIsProduct(lane - 1);
        assert lane * laneLength == (lane - 1) * laneLength + laneLength;
      }
    }

    lemma {:induction false} LaneBaseMono(low: nat, high: nat)
      requires low <= high
      ensures LaneBase(low) <= LaneBase(high)
    {
      if low < high { LaneBaseMono(low, high - 1); }
    }

    /** Later passes combine with the old block, except in version 1.0 of the algorithm. */
    predicate WithXor(pass: nat) {
      version != VERSION_10 && pass != 0
    }

    /** What the memory layer relies on: the shape, and block offsets that fit in 32 bits. */
    predicate Valid() {
      Shaped() && memoryBlocks == LaneBase(lanes) < TWO_32
    }
  }

  /** Memory alignment of `argon2_ctx`, every product and quotient as an `uint32_t`. */
  function MakeInstance(c: Context, kind: ArgonType): Instance
    requires ValidateInputs(c) == OK
  {
    var minimum := Wrap32(2 * 4 * c.lanes);
    var wanted := if c.mCost < minimum then minimum else c.mCost;
    var segmentLength := wanted / Wrap32(c.lanes * 4);
    Instance(
      c.version, c.tCost, Wrap32(segmentLength * Wrap32(c.lanes * 4)), segmentLength,
      Wrap32(segmentLength * 4), c.lanes, Min(c.threads, c.lanes), kind)
  }

  /** Sizing never wraps: every validated context gives a valid instance that uses all requested memory
      but an incomplete row of segments, and never more workers than lanes. */
  lemma SizingIsValid(c: Context, kind: ArgonType)
    requires c.Fits() && ValidateInputs(c) == OK
    ensures MakeInstance(c, kind).Valid()
    ensures var inst := MakeInstance(c, kind);
            && inst.memoryBlocks <= c.mCost < inst.memoryBlocks + 4 * inst.lanes
            && inst.version == c.version && inst.passes == c.tCost && inst.lanes == c.lanes && inst.kind == kind
            && inst.threads == if c.threads < c.lanes then c.threads else c.lanes
  {
    hide MakeInstance;
    ValidSizes(c);
    SizingArithmetic(c.mCost, c.lanes);
    var q := c.mCost / (4 * c.lanes);
    Made(c, kind, q);
    SizedInstance(MakeInstance(c, kind), c.mCost, q, q * (4 * c.lanes));
  }

  lemma ValidSizes(c: Context)
    requires c.Fits() && ValidateInputs(c) == OK
    ensures 1 <= c.lanes <= MAX_LANES && 8 * c.lanes <= c.mCost < TWO_32 && 1 <= c.tCost < TWO_32 && 1 <= c.threads
  {
  }

  /** The products and quotients of `argon2_ctx` with the wraps that cannot happen taken away. */
  lemma Made(c: Context, kind: ArgonType, q: nat)
    requires c.Fits() && ValidateInputs(c) == OK && q == c.mCost / (4 * c.lanes)
    ensures var inst := MakeInstance(c, kind);
            && inst.segmentLength == q && inst.memoryBlocks == Wrap32(q * (4 * c.lanes))
            && inst.laneLength == Wrap32(q * 4)
            && inst.lanes == c.lanes && inst.passes == c.tCost && inst.threads == Min(c.threads, c.lanes)
            && inst.version == c.version && inst.kind == kind
  {
    hide ValidateInputs;
    ValidSizes(c);
    Unwrapped(2 * 4 * c.lanes);
    Unwrapped(c.lanes * 4);
    assert c.lanes * 4 == 4 * c.lanes;
  }

  lemma SizedInstance(inst: Instance, mCost: nat, q: nat, blocks: nat)
    requires 1 <= inst.lanes <= MAX_LANES && 2 <= q
    requires q * 4 <= blocks == inst.lanes * (4 * q) <= mCost < TWO_32
    requires mCost < blocks + 4 * inst.lanes
    requires inst.segmentLength == q && inst.memoryBlocks == Wrap32(blocks) && inst.laneLength == Wrap32(q * 4)
    requires 1 <= inst.threads <= inst.lanes && 1 <= inst.passes < TWO_32
    ensures inst.Valid() && inst.memoryBlocks <= mCost < inst.memoryBlocks + 4 * inst.lanes
  {
    Unwrapped(blocks);
    Unwrapped(q * 4);
    assert inst.laneLength == 4 * q;
    inst.LaneBaseIsProduct(inst.lanes);
  }

  lemma Unwrapped(x: nat)
    requires x < TWO_32
    ensures Wrap32(x) == x
  {
  }

  lemma SizingArithmetic(mCost: nat, lanes: nat)
    requires 1 <= lanes <= MAX_LANES && 8 * lanes <= mCost < TWO_32
    ensures var q := mCost / (4 * lanes);
      && 2 <= q
      && 0 <= q * 4 <= q * (4 * lanes) == lanes * (4 * q) <= mCost < q * (4 * lanes) + 4 * lanes
  {
    var row, q := 4 * lanes, mCost / (4 * lanes);
    DivisionBounds(mCost, row);
    QuotientAbove(mCost, row, 2);
    ProductOrder(q, lanes);
    MulMono(1, lanes, 4 * q);
  }

  lemma ProductOrder(q: int, lanes: int)
    ensures q * (4 * lanes) == lanes * (4 * q)
  {
  }

  /** Where a block is built. `index` counts inside the segment. */
  datatype Position = Position(pass: nat, lane: nat, slice: nat, index: nat)
  {
    /** A position the fill loops visit: the first two blocks of a lane are made by hashing alone. */
    predicate Valid(inst: Instance) {
      && pass < inst.passes && lane < inst.lanes && slice < SYNC_POINTS && index < inst.segmentLength
      && (pass == 0 && slice == 0 ==> 2 <= index)
    }

    /** The column of this block in its lane. */
    function Column(inst: Instance): nat {
      inst.SliceStart(slice) + index
    }

    /** The column built just before this one, cyclically. */
    function PrevColumn(inst: Instance): int {
      if Column(inst) == 0 then inst.laneLength - 1 else Column(inst) - 1
    }
  }
}
