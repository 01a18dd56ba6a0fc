// Lanes of one slice filled in any order (core.c; section 3.4 of RFC 9106): no step of one lane touches what a step
// of another lane reads or writes, so every schedule leaves the memory of the lane-by-lane fill.
module Schedules {
  import opened Argon2Instance
  import opened ReferenceIndex
  import opened Lanes

  // ----- what one step reads -----

  predicate InSlice(e: Engine, slice: nat, col: nat)
  {
    e.inst.SliceStart(slice) <= col < e.inst.SliceStart(slice + 1)
  }

  /** The cells the step at `pos` can depend on, whatever the pseudo-random values are. */
  predicate MayRead(e: Engine, pos: Position, lane: nat, col: nat)
  {
    || (lane == pos.lane && col == pos.PrevColumn(e.inst))
    || (lane == pos.lane && col == pos.Column(e.inst) && e.inst.WithXor(pos.pass))
    || InWindow(e.inst, pos, lane == pos.lane, col)
  }

  ghost predicate SameOnReads(e: Engine, pos: Position, m: Memory, m': Memory) {
    && |m| == |m'| == e.inst.memoryBlocks
    && forall lane: nat, col: nat | Cell(e, lane, col) && MayRead(e, pos, lane, col) ::
         At(e, m, lane, col) == At(e, m', lane, col)
  }

  /** The block function looks at no other cells. */
  ghost predicate Respects(e: Engine) {
    forall pos: Position, m: Memory, m': Memory | pos.Valid(e.inst) && SameOnReads(e, pos, m, m') ::
      e.build(pos, m) == e.build(pos, m')
  }

  /** Main result: within a slice, the block one lane writes is never one that another lane's step reads or writes. */
  lemma NoRace(e: Engine, p: Position, q: Position)
    requires p.Valid(e.inst) && q.Valid(e.inst)
    requires p.pass == q.pass && p.slice == q.slice && p.lane != q.lane
    ensures !MayRead(e, q, p.lane, p.Column(e.inst))
    ensures Off(e.inst, p.lane, p.Column(e.inst)) != Off(e.inst, q.lane, q.Column(e.inst))
  {
    if Off(e.inst, p.lane, p.Column(e.inst)) == Off(e.inst, q.lane, q.Column(e.inst)) {
      OffInjective(e, p.lane, p.Column(e.inst), q.lane, q.Column(e.inst));
    }
  }

  lemma {:induction false} FillToFrame(e: Engine, pos: Position, base: Memory, lane: nat, col: nat)
    requires Running(e.inst, pos) && |base| == e.inst.memoryBlocks && Cell(e, lane, col)
    requires lane != pos.lane || !InSlice(e, pos.slice, col)
    ensures At(e, FillTo(e, pos, base), lane, col) == At(e, base, lane, col)
    decreases pos.index
  {
    if pos.index > StartIndex(pos.pass, pos.slice) {
      var prior := pos.(index := pos.index - 1);
      FillToFrame(e, prior, base, lane, col);
      FillToNext(e, prior, base);
      StepAt(e, prior, FillTo(e, prior, base), lane, col);
      assert prior.(index := pos.index) == pos;
      assert InSlice(e, pos.slice, prior.Column(e.inst));
    }
  }

  // ----- schedules -----

  /** A slice being filled: which memory it started from and how far each lane has got. */
  datatype Slice = Slice(pass: nat, number: nat, base: Memory)
  {
    predicate Valid(e: Engine) {
      pass < e.inst.passes && number < SYNC_POINTS && |base| == e.inst.memoryBlocks
    }

    function Pos(lane: nat, index: nat): Position {
      Position(pass, lane, number, index)
    }
  }

  /** No lane has begun. */
  function AtStart(e: Engine, sl: Slice): (p: seq<nat>)
    ensures |p| == e.inst.lanes && forall l | 0 <= l < e.inst.lanes :: p[l] == StartIndex(sl.pass, sl.number)
  {
    seq(e.inst.lanes, _ => StartIndex(sl.pass, sl.number))
  }

  predicate Progress(e: Engine, sl: Slice, progress: seq<nat>)
    requires sl.Valid(e)
  {
    |progress| == e.inst.lanes && forall l | 0 <= l < e.inst.lanes :: Running(e.inst, sl.Pos(l, progress[l]))
  }

  /** Every lane reads as if it had run alone from the start of the slice. */
  ghost predicate Consistent(e: Engine, sl: Slice, mem: Memory, progress: seq<nat>)
    requires sl.Valid(e)
  {
    && Progress(e, sl, progress)
    && |mem| == e.inst.memoryBlocks
    && forall lane: nat, col: nat | Cell(e, lane, col) ::
         At(e, mem, lane, col) == At(e, FillTo(e, sl.Pos(lane, progress[lane]), sl.base), lane, col)
  }

  lemma ConsistentInitially(e: Engine, sl: Slice)
    requires sl.Valid(e)
    ensures Consistent(e, sl, sl.base, AtStart(e, sl))
  {
  }

  lemma SoloBlock(e: Engine, sl: Slice, mem: Memory, progress: seq<nat>, l: nat)
    requires Respects(e) && sl.Valid(e) && Consistent(e, sl, mem, progress)
    requires l < e.inst.lanes && progress[l] < e.inst.segmentLength
    ensures e.build(sl.Pos(l, progress[l]), mem)
            == e.build(sl.Pos(l, progress[l]), FillTo(e, sl.Pos(l, progress[l]), sl.base))
  {
    var pos := sl.Pos(l, progress[l]);
    var solo := FillTo(e, pos, sl.base);
    forall lane: nat, col: nat | Cell(e, lane, col) && MayRead(e, pos, lane, col)
      ensures At(e, mem, lane, col) == At(e, solo, lane, col)
    {
      if lane != l {
        FillToFrame(e, sl.Pos(lane, progress[lane]), sl.base, lane, col);
        FillToFrame(e, pos, sl.base, lane, col);
      }
    }
    assert SameOnReads(e, pos, mem, solo);
  }

  lemma StepCell(e: Engine, sl: Slice, mem: Memory, progress: seq<nat>, l: nat, lane: nat, col: nat)
    requires Respects(e) && sl.Valid(e) && Consistent(e, sl, mem, progress)
    requires l < e.inst.lanes && progress[l] < e.inst.segmentLength && Cell(e, lane, col)
    ensures var k := if lane == l then progress[l] + 1 else progress[lane];
      At(e, Step(e, sl.Pos(l, progress[l]), mem), lane, col)
      == At(e, FillTo(e, sl.Pos(lane, k), sl.base), lane, col)
  {
    var pos := sl.Pos(l, progress[l]);
    StepAt(e, pos, mem, lane, col);
    if lane == l {
      SoloBlock(e, sl, mem, progress, l);
      FillToNext(e, pos, sl.base);
      assert pos.(index := pos.index + 1) == sl.Pos(l, progress[l] + 1);
      StepAt(e, pos, FillTo(e, pos, sl.base), lane, col);
    }
  }

  /** One block built by any lane keeps the slice consistent. */
  lemma StepConsistent(e: Engine, sl: Slice, mem: Memory, progress: seq<nat>, l: nat)
    requires Respects(e) && sl.Valid(e) && Consistent(e, sl, mem, progress)
    requires l < e.inst.lanes && progress[l] < e.inst.segmentLength
    ensures Consistent(e, sl, Step(e, sl.Pos(l, progress[l]), mem), progress[l := progress[l] + 1])
  {
    var mem', progress' := Step(e, sl.Pos(l, progress[l]), mem), progress[l := progress[l] + 1];
    assert Progress(e, sl, progress');
    forall lane: nat, col: nat | Cell(e, lane, col)
      ensures At(e, mem', lane, col)
              == At(e, FillTo(e, sl.Pos(lane, progress'[lane]), sl.base), lane, col)
    {
      StepCell(e, sl, mem, progress, l, lane, col);
    }
  }

  /** How far the lanes have got determines the memory. */
  lemma ConsistentUnique(e: Engine, sl: Slice, m: Memory, m': Memory, progress: seq<nat>)
    requires sl.Valid(e) && Consistent(e, sl, m, progress) && Consistent(e, sl, m', progress)
    ensures m == m'
  {
    SameCells(e, m, m');
  }

  /** Any order of block steps, each lane's own in sequence. `schedule` names the lane of each step. */
  predicate Allowed(e: Engine, schedule: seq<nat>, progress: seq<nat>) {
    schedule == [] ||
    (schedule[0] < |progress| && progress[schedule[0]] < e.inst.segmentLength
     && Allowed(e, schedule[1..], progress[schedule[0] := progress[schedule[0]] + 1]))
  }

  function RunSchedule(e: Engine, sl: Slice, schedule: seq<nat>, mem: Memory, progress: seq<nat>): (r: (Memory,
                                                                                                    seq<nat>))
    requires Allowed(e, schedule, progress)
    ensures |r.0| == |mem| && |r.1| == |progress|
  {
    if schedule == [] then (mem, progress)
    else
      var l := schedule[0];
      RunSchedule(e, sl, schedule[1..], Step(e, sl.Pos(l, progress[l]), mem), progress[l := progress[l] + 1])
  }

  predicate Complete(e: Engine, progress: seq<nat>) {
    |progress| == e.inst.lanes && forall l | 0 <= l < |progress| :: progress[l] == e.inst.segmentLength
  }

  lemma {:induction false} ScheduleConsistent(e: Engine, sl: Slice, schedule: seq<nat>,
                                              mem: Memory, progress: seq<nat>)
    requires Respects(e) && sl.Valid(e) && Consistent(e, sl, mem, progress) && Allowed(e, schedule, progress)
    ensures var r := RunSchedule(e, sl, schedule, mem, progress); Consistent(e, sl, r.0, r.1)
  {
    if schedule != [] {
      var l := schedule[0];
      var mem', progress' := Step(e, sl.Pos(l, progress[l]), mem), progress[l := progress[l] + 1];
      StepConsistent(e, sl, mem, progress, l);
      ScheduleConsistent(e, sl, schedule[1..], mem', progress');
    }
  }

  // ----- the lane-by-lane fill is one of the schedules -----

  /** The first `n` lanes of a slice, one after the other. */
  function FillLanes(e: Engine, sl: Slice, n: nat): (r: Memory)
    ensures |r| == |sl.base|
  {
    if n == 0 then sl.base
    else Segment(e, sl.Pos(n - 1, 0), FillLanes(e, sl, n - 1))
  }

  lemma {:induction false} LaneConsistent(e: Engine, sl: Slice, mem: Memory, progress: seq<nat>, l: nat, k: nat)
    requires Respects(e) && sl.Valid(e) && Consistent(e, sl, mem, progress) && l < e.inst.lanes
    requires progress[l] == StartIndex(sl.pass, sl.number) <= k <= e.inst.segmentLength
    ensures Consistent(e, sl, FillTo(e, sl.Pos(l, k), mem), progress[l := k])
    decreases k
  {
    if k > progress[l] {
      LaneConsistent(e, sl, mem, progress, l, k - 1);
      StepConsistent(e, sl, FillTo(e, sl.Pos(l, k - 1), mem), progress[l := k - 1], l);
      assert progress[l := k - 1][l := k] == progress[l := k];
    } else {
      assert progress[l := k] == progress;
    }
  }

  function DoneUpTo(e: Engine, sl: Slice, n: nat): (p: seq<nat>)
    requires n <= e.inst.lanes
    ensures |p| == e.inst.lanes
  {
    seq(n, _ => e.inst.segmentLength) + seq(e.inst.lanes - n, _ => StartIndex(sl.pass, sl.number))
  }

  lemma {:induction false} LanesConsistent(e: Engine, sl: Slice, n: nat)
    requires Respects(e) && sl.Valid(e) && n <= e.inst.lanes
    ensures Consistent(e, sl, FillLanes(e, sl, n), DoneUpTo(e, sl, n))
  {
    hide Consistent, FillTo, Respects;
    if n == 0 {
      ConsistentInitially(e, sl);
      assert DoneUpTo(e, sl, 0) == AtStart(e, sl);
    } else {
      LanesConsistent(e, sl, n - 1);
      LaneConsistent(e, sl, FillLanes(e, sl, n - 1), DoneUpTo(e, sl, n - 1), n - 1, e.inst.segmentLength);
      assert DoneUpTo(e, sl, n - 1)[n - 1 := e.inst.segmentLength] == DoneUpTo(e, sl, n);
    }
  }

  /** Once every lane is done, the memory is the one of the lane-by-lane fill. */
  lemma FinishedSlice(e: Engine, sl: Slice, mem: Memory, progress: seq<nat>)
    requires Respects(e) && sl.Valid(e) && Consistent(e, sl, mem, progress)
    requires Complete(e, progress)
    ensures mem == FillLanes(e, sl, e.inst.lanes)
  {
    LanesConsistent(e, sl, e.inst.lanes);
    assert progress == DoneUpTo(e, sl, e.inst.lanes);
    ConsistentUnique(e, sl, mem, FillLanes(e, sl, e.inst.lanes), progress);
  }

  /** Main result: every complete schedule of a slice leaves the memory of the lane-by-lane fill. */
  lemma ScheduleIndependence(e: Engine, sl: Slice, schedule: seq<nat>)
    requires Respects(e) && sl.Valid(e) && Allowed(e, schedule, AtStart(e, sl))
    requires Complete(e, RunSchedule(e, sl, schedule, sl.base, AtStart(e, sl)).1)
    ensures RunSchedule(e, sl, schedule, sl.base, AtStart(e, sl)).0 == FillLanes(e, sl, e.inst.lanes)
  {
    var r := RunSchedule(e, sl, schedule, sl.base, AtStart(e, sl));
    ConsistentInitially(e, sl);
    ScheduleConsistent(e, sl, schedule, sl.base, AtStart(e, sl));
    FinishedSlice(e, sl, r.0, r.1);
  }

  lemma LanesNext(e: Engine, sl: Slice, n: nat)
    ensures FillLanes(e, sl, n + 1) == Segment(e, sl.Pos(n, 0), FillLanes(e, sl, n))
  {
  }
}
