// Choice of the reference column (core.c, `index_alpha`; section 3.4.2 of RFC 9106).
module ReferenceIndex {
  import opened Common
  import opened Arith
  import opened Argon2Instance

  /** Size of the reference area, as the C expression computes it in an `uint32_t`. */
  function AreaC(inst: Instance, pos: Position, sameLane: bool): nat {
    if pos.pass == 0 then
      if pos.slice == 0 then Wrap32(pos.index - 1)
      else if sameLane then Wrap32(inst.SliceStart(pos.slice) + pos.index - 1)
      else Wrap32(inst.SliceStart(pos.slice) + (if pos.index == 0 then -1 else 0))
    else if sameLane then Wrap32(inst.laneLength - inst.segmentLength + pos.index - 1)
    else Wrap32(inst.laneLength - inst.segmentLength + (if pos.index == 0 then -1 else 0))
  }

  function StartC(inst: Instance, pos: Position): nat {
    if pos.pass == 0 || pos.slice == SYNC_POINTS - 1 then 0 else Wrap32(inst.SliceStart(pos.slice + 1))
  }

  /** `pseudo_rand * pseudo_rand >> 32` in an `uint64_t`. */
  function SquareHigh(pseudoRand: nat): nat {
    Wrap64(pseudoRand * pseudoRand) / 0x1_0000_0000
  }

  /** `area * x >> 32` in an `uint64_t`. */
  function Scaled(area: nat, x: nat): nat {
    Wrap64(area * x) / 0x1_0000_0000
  }

  function RelativeC(area: nat, pseudoRand: nat): nat {
    Wrap64(Wrap32(area - 1) - Scaled(area, SquareHigh(pseudoRand)))
  }

  function Absolute(start: nat, relative: nat, laneLength: nat): nat
    requires laneLength > 0
  {
    Wrap32(Wrap64(start + relative) % laneLength)
  }

  function IndexAlpha(inst: Instance, pos: Position, pseudoRand: nat, sameLane: bool): nat
    requires inst.laneLength > 0
  {
    Absolute(StartC(inst, pos), RelativeC(AreaC(inst, pos, sameLane), pseudoRand), inst.laneLength)
  }

  /** The columns RFC 9106 allows a block to refer to, said without counting: in the first pass only
      columns to the left; never the block itself nor, in its own lane, the one just built; never a block
      of the running segment in another lane, nor the predecessor when a segment starts; and never the part of
      its own segment that is still to come. */
  predicate InWindow(inst: Instance, pos: Position, sameLane: bool, z: nat) {
    && z < inst.laneLength
    && (pos.pass == 0 ==> z < pos.Column(inst))
    && !(pos.Column(inst) <= z < inst.SliceStart(pos.slice + 1))
    && (sameLane || pos.index == 0 ==> z != pos.PrevColumn(inst))
    && (!sameLane ==> !(inst.SliceStart(pos.slice) <= z < inst.SliceStart(pos.slice + 1)))
  }

  /** Size of the window over the integers. */
  function Area(inst: Instance, pos: Position, sameLane: bool): int {
    (if pos.pass == 0 then inst.SliceStart(pos.slice) else inst.laneLength - inst.segmentLength)
    + (if sameLane then pos.index - 1 else if pos.index == 0 then -1 else 0)
  }

  function Start(inst: Instance, pos: Position): nat {
    if pos.pass == 0 || pos.slice == SYNC_POINTS - 1 then 0 else inst.SliceStart(pos.slice + 1)
  }

  /** In the very first segment only the own lane can be referred to; the callers see to it. */
  predicate ValidQuery(inst: Instance, pos: Position, sameLane: bool) {
    inst.Shaped() && pos.Valid(inst) && (pos.pass == 0 && pos.slice == 0 ==> sameLane)
  }

  lemma AreaDoesNotWrap(inst: Instance, pos: Position, sameLane: bool)
    requires ValidQuery(inst, pos, sameLane)
    ensures 1 <= Area(inst, pos, sameLane) == AreaC(inst, pos, sameLane) < inst.laneLength
    ensures Start(inst, pos) == StartC(inst, pos) < inst.laneLength
  {
    hide Area, AreaC, Start, StartC;
    AreaIsC(inst, pos, sameLane);
    StartIsC(inst, pos);
  }

  lemma AreaIsC(inst: Instance, pos: Position, sameLane: bool)
    requires ValidQuery(inst, pos, sameLane)
    ensures 1 <= Area(inst, pos, sameLane) == AreaC(inst, pos, sameLane) < inst.laneLength
  {
  }

  lemma StartIsC(inst: Instance, pos: Position)
    requires inst.Shaped() && pos.Valid(inst)
    ensures Start(inst, pos) == StartC(inst, pos) < inst.laneLength
  {
  }

  lemma SquareFits(r: nat)
    requires r < TWO_32
    ensures SquareHigh(r) == r * r / TWO_32 < TWO_32
  {
    MulMono(r, 0xFFFF_FFFF, r);
    var square := r * r;
    assert 0 <= square < 0x1_0000_0000_0000_0000;
    QuotientBelow(square, 0x1_0000_0000, 0x1_0000_0000);
  }

  lemma ScaledBelow(area: nat, x: nat)
    requires 1 <= area < TWO_32 && x < TWO_32
    ensures Scaled(area, x) == area * x / TWO_32 < area
  {
    MulMono(x, 0xFFFF_FFFF, area);
    MulMono(0, x, area);
    var y := area * x;
    assert 0 <= y <= area * 0xFFFF_FFFF;
    QuotientBelow(y, 0x1_0000_0000, area);
  }

  /** The skewed mapping stays inside the area for every 32-bit random value, and no step of it wraps. */
  lemma RelativeInArea(area: nat, pseudoRand: nat)
    requires 1 <= area < TWO_32 && pseudoRand < TWO_32
    ensures RelativeC(area, pseudoRand) == area - 1 - Scaled(area, SquareHigh(pseudoRand)) < area
  {
    SquareFits(pseudoRand);
    ScaledBelow(area, SquareHigh(pseudoRand));
  }

  /** For one column and its distance from the start, the window is a matter of counting. */
  lemma WindowCount(inst: Instance, pos: Position, sameLane: bool, z: nat, rel: nat)
    requires ValidQuery(inst, pos, sameLane) && z < inst.laneLength
    requires z == Start(inst, pos) + rel || z == Start(inst, pos) + rel - inst.laneLength
    requires rel < inst.laneLength
    ensures InWindow(inst, pos, sameLane, z) <==> rel < Area(inst, pos, sameLane)
  {
  }

  /** The columns counted cyclically from `start`. */
  function Cyclic(start: nat, rel: nat, n: nat): nat
    requires n > 0
  {
    (start + rel) % n
  }

  lemma CyclicSum(a: nat, b: nat, n: nat)
    requires a < n && b < n
    ensures Cyclic(a, b, n) == if a + b < n then a + b else a + b - n
  {
    if a + b >= n { QuotientUnique(a + b, n, 1); } else { QuotientUnique(a + b, n, 0); }
  }

  lemma CyclicInWindow(inst: Instance, pos: Position, sameLane: bool, rel: nat)
    requires ValidQuery(inst, pos, sameLane) && rel < Area(inst, pos, sameLane)
    ensures InWindow(inst, pos, sameLane, Cyclic(Start(inst, pos), rel, inst.laneLength))
  {
    AreaDoesNotWrap(inst, pos, sameLane);
    CyclicSum(Start(inst, pos), rel, inst.laneLength);
    WindowCount(inst, pos, sameLane, Cyclic(Start(inst, pos), rel, inst.laneLength), rel);
  }

  lemma WindowIsCyclic(inst: Instance, pos: Position, sameLane: bool, z: nat) returns (rel: nat)
    requires ValidQuery(inst, pos, sameLane) && InWindow(inst, pos, sameLane, z)
    ensures rel < Area(inst, pos, sameLane) && z == Cyclic(Start(inst, pos), rel, inst.laneLength)
  {
    AreaDoesNotWrap(inst, pos, sameLane);
    var start, n := Start(inst, pos), inst.laneLength;
    rel := if z >= start then z - start else z - start + n;
    CyclicSum(start, rel, n);
    WindowCount(inst, pos, sameLane, z, rel);
  }

  /** The window is exactly the image of the relative positions: nothing allowed is left out of the area. */
  lemma WindowIsArea(inst: Instance, pos: Position, sameLane: bool, z: nat)
    requires ValidQuery(inst, pos, sameLane)
    ensures InWindow(inst, pos, sameLane, z) <==>
            exists rel: nat :: rel < Area(inst, pos, sameLane) && z == Cyclic(Start(inst, pos), rel, inst.laneLength)
  {
    if InWindow(inst, pos, sameLane, z) {
      var rel := WindowIsCyclic(inst, pos, sameLane, z);
    }
    forall rel: nat | rel < Area(inst, pos, sameLane) && z == Cyclic(Start(inst, pos), rel, inst.laneLength)
      ensures InWindow(inst, pos, sameLane, z)
    {
      CyclicInWindow(inst, pos, sameLane, rel);
    }
  }

  lemma AbsoluteIsCyclic(start: nat, rel: nat, n: nat)
    requires start < n && rel < n < TWO_32
    ensures Absolute(start, rel, n) == Cyclic(start, rel, n)
  {
    CyclicSum(start, rel, n);
  }

  /** Main result: for every valid position and 32-bit random value no operation of the C code wraps, and
      the column is the one section 3.4.2 of RFC 9106 gives over the integers... */
  lemma IndexAlphaIsRfc(inst: Instance, pos: Position, j1: nat, sameLane: bool)
    requires ValidQuery(inst, pos, sameLane) && j1 < TWO_32
    ensures var area := Area(inst, pos, sameLane);
            var zz := area - 1 - Scaled(area, SquareHigh(j1));
            && SquareHigh(j1) == j1 * j1 / TWO_32
            && Scaled(area, SquareHigh(j1)) == area * SquareHigh(j1) / TWO_32
            && 0 <= zz < area
            && IndexAlpha(inst, pos, j1, sameLane) == Cyclic(Start(inst, pos), zz, inst.laneLength)
  {
    AreaDoesNotWrap(inst, pos, sameLane);
    var area := Area(inst, pos, sameLane);
    SquareFits(j1);
    ScaledBelow(area, SquareHigh(j1));
    RelativeInArea(area, j1);
    AbsoluteIsCyclic(Start(inst, pos), RelativeC(area, j1), inst.laneLength);
  }

  /** ... which is a column of the window. */
  lemma IndexAlphaInWindow(inst: Instance, pos: Position, j1: nat, sameLane: bool)
    requires ValidQuery(inst, pos, sameLane) && j1 < TWO_32
    ensures InWindow(inst, pos, sameLane, IndexAlpha(inst, pos, j1, sameLane))
  {
    IndexAlphaIsRfc(inst, pos, j1, sameLane);
    CyclicInWindow(inst, pos, sameLane,
                   Area(inst, pos, sameLane) - 1 - Scaled(Area(inst, pos, sameLane), SquareHigh(j1)));
  }
}
