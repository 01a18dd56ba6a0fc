// The block memory seen as lanes and columns, and what it means to fill a segment, for any block function.
module Lanes {
  import opened Common
  import opened Arith
  import opened Argon2Instance
  import opened Blocks

  type Memory = seq<Block>

  /** The block in column `col` of a lane. */
  function Off(inst: Instance, lane: nat, col: nat): nat {
    inst.LaneBase(lane) + col
  }

  lemma OffInRange(inst: Instance, lane: nat, col: nat)
    requires inst.Valid() && lane < inst.lanes && col < inst.laneLength
    ensures Off(inst, lane, col) < inst.memoryBlocks
    ensures inst.LaneBase(lane) + inst.laneLength <= inst.memoryBlocks
  {
    inst.LaneBaseMono(lane + 1, inst.lanes);
  }

  /** Dividing an offset by the lane length gives back lane and column. */
  lemma OffDivides(inst: Instance, lane: nat, col: nat)
    requires inst.laneLength > 0 && col < inst.laneLength
    ensures Off(inst, lane, col) % inst.laneLength == col && Off(inst, lane, col) / inst.laneLength == lane
  {
    inst.LaneBaseIsProduct(lane);
    QuotientUnique(Off(inst, lane, col), inst.laneLength, lane);
  }

  function StartIndex(pass: nat, slice: nat): nat {
    if pass == 0 && slice == 0 then 2 else 0
  }

  /** An instance together with the function that computes the next block from a position and the memory. */
  datatype BlockEngine = BlockEngine(inst: Instance, build: (Position, Memory) -> Block)

  type Engine = e: BlockEngine | e.inst.Valid()
    witness BlockEngine(Instance(VERSION_NUMBER, 1, 8, 2, 8, 1, 1, ArgonD), (p: Position, m: Memory) => ZERO_BLOCK)

  /** Building one block. (Inside the memory always; the test only makes the function total.) */
  function Step(e: Engine, pos: Position, mem: Memory): (r: Memory)
    ensures |r| == |mem|
  {
    var j := Off(e.inst, pos.lane, pos.Column(e.inst));
    if j < |mem| then mem[j := e.build(pos, mem)] else mem
  }

  /** A position the loop can be at, its end included. */
  predicate Running(inst: Instance, pos: Position) {
    && pos.pass < inst.passes && pos.lane < inst.lanes && pos.slice < SYNC_POINTS
    && StartIndex(pos.pass, pos.slice) <= pos.index <= inst.segmentLength
  }

  /** The segment of `pos` filled up to, not including, `pos.index`. */
  function FillTo(e: Engine, pos: Position, mem: Memory): (r: Memory)
    ensures |r| == |mem|
    decreases pos.index
  {
    if pos.index <= StartIndex(pos.pass, pos.slice) then mem
    else
      var prior := pos.(index := pos.index - 1);
      Step(e, prior, FillTo(e, prior, mem))
  }

  /** The whole segment of `pos`. */
  function Segment(e: Engine, pos: Position, mem: Memory): (r: Memory)
    ensures |r| == |mem|
  {
    FillTo(e, pos.(index := e.inst.segmentLength), mem)
  }

  lemma FillToNext(e: Engine, pos: Position, mem: Memory)
    requires Running(e.inst, pos) && pos.index < e.inst.segmentLength
    ensures FillTo(e, pos.(index := pos.index + 1), mem) == Step(e, pos, FillTo(e, pos, mem))
  {
    assert pos.(index := pos.index + 1).(index := pos.index) == pos;
  }

  // ----- memory as a matrix of lanes and columns -----

  predicate Cell(e: Engine, lane: nat, col: nat) {
    lane < e.inst.lanes && col < e.inst.laneLength
  }

  function At(e: Engine, mem: Memory, lane: nat, col: nat): Block
    requires |mem| == e.inst.memoryBlocks && Cell(e, lane, col)
  {
    OffInRange(e.inst, lane, col);
    mem[Off(e.inst, lane, col)]
  }

  lemma OffInjective(e: Engine, lane: nat, col: nat, lane': nat, col': nat)
    requires Cell(e, lane, col) && Cell(e, lane', col')
    requires Off(e.inst, lane, col) == Off(e.inst, lane', col')
    ensures lane == lane' && col == col'
  {
    OffDivides(e.inst, lane, col);
    OffDivides(e.inst, lane', col');
  }

  lemma {:induction false} CellOf(e: Engine, j: nat, lanes: nat) returns (lane: nat, col: nat)
    requires lanes <= e.inst.lanes && j < e.inst.LaneBase(lanes)
    ensures Cell(e, lane, col) && Off(e.inst, lane, col) == j
  {
    if j >= e.inst.LaneBase(lanes - 1) {
      lane, col := lanes - 1, j - e.inst.LaneBase(lanes - 1);
    } else {
      lane, col := CellOf(e, j, lanes - 1);
    }
  }

  /** Memories with the same cells are equal. */
  lemma SameCells(e: Engine, m: Memory, m': Memory)
    requires |m| == |m'| == e.inst.memoryBlocks
    requires forall lane: nat, col: nat | Cell(e, lane, col) :: At(e, m, lane, col) == At(e, m', lane, col)
    ensures m == m'
  {
    forall j: nat | j < |m| ensures m[j] == m'[j] {
      var lane, col := CellOf(e, j, e.inst.lanes);
      assert At(e, m, lane, col) == At(e, m', lane, col);
    }
  }

  lemma StepAt(e: Engine, pos: Position, mem: Memory, lane: nat, col: nat)
    requires pos.Valid(e.inst) && |mem| == e.inst.memoryBlocks && Cell(e, lane, col)
    ensures At(e, Step(e, pos, mem), lane, col) ==
            if lane == pos.lane && col == pos.Column(e.inst) then e.build(pos, mem) else At(e, mem, lane, col)
  {
    OffInRange(e.inst, lane, col);
    OffInRange(e.inst, pos.lane, pos.Column(e.inst));
    if Off(e.inst, lane, col) == Off(e.inst, pos.lane, pos.Column(e.inst)) {
      OffInjective(e, lane, col, pos.lane, pos.Column(e.inst));
    }
  }
}
