// The threads of a program built with opt.c: each carries the block it built last in `state` and does not read it back
// from memory. Under any interleaving that block is the one memory holds, so these threads do what those of ref.c do.
module CarriedState {
  import opened Argon2Instance
  import opened Blocks
  import opened Common
  import opened FillMemory
  import opened FillSegment
  import opened Lanes
  import opened Schedules

  /** What all threads share, and what the thread of each lane carries once it has made its copy. */
  datatype Carrying = Carrying(s: State, carried: seq<Option<Block>>)

  datatype Move = Load(lane: nat) | Do(action: Action)

  function PosOf(s: State, l: nat): Position
    requires l < |s.progress|
  {
    Position(s.pass, l, s.slice, s.progress[l])
  }

  function Unloaded(inst: Instance): seq<Option<Block>> {
    seq(inst.lanes, _ => None)
  }

  /** A thread loads before it builds its first block. */
  predicate CanMove(e: Engine, c: Carrying, m: Move) {
    match m
    case Load(l) =>
      && c.s.pass < e.inst.passes && c.s.slice < SYNC_POINTS && l < c.s.control.Created(e.inst)
      && l < |c.carried| && l < |c.s.progress| && c.carried[l].None?
    case Do(a) => Enabled(e, c.s, a) && (a.Work? ==> a.lane < |c.carried| && c.carried[a.lane].Some?)
  }

  /** The copy made at the start of a segment. (Inside the memory always; the test only makes the function total.) */
  function Copied(inst: Instance, pos: Position, mem: Memory): Block
    requires pos.slice < SYNC_POINTS
  {
    if 0 <= pos.PrevColumn(inst) && Off(inst, pos.lane, pos.PrevColumn(inst)) < |mem|
    then mem[Off(inst, pos.lane, pos.PrevColumn(inst))] else ZERO_BLOCK
  }

  function Built(permute: Permutation, inst: Instance, pos: Position, carried: Block, mem: Memory): Block
    requires inst.Valid()
  {
    if pos.Valid(inst) && |mem| == inst.memoryBlocks then BlockFrom(permute, inst, pos, carried, mem) else ZERO_BLOCK
  }

  function Written(inst: Instance, pos: Position, block: Block, mem: Memory): Memory {
    var j := Off(inst, pos.lane, pos.Column(inst));
    if j < |mem| then mem[j := block] else mem
  }

  function Moved(permute: Permutation, inst: Instance, c: Carrying, m: Move): Carrying
    requires inst.Valid() && CanMove(Argon2(permute, inst), c, m)
  {
    match m
    case Load(l) => c.(carried := c.carried[l := Some(Copied(inst, PosOf(c.s, l), c.s.mem))])
    case Do(Work(l)) =>
      var pos := PosOf(c.s, l);
      var block := Built(permute, inst, pos, c.carried[l].value, c.s.mem);
      Carrying(c.s.(progress := c.s.progress[l := c.s.progress[l] + 1], mem := Written(inst, pos, block, c.s.mem)),
               c.carried[l := Some(block)])
    case Do(NextSlice) => Carrying(Next(Argon2(permute, inst), c.s, NextSlice), Unloaded(inst))
    case Do(a) => c.(s := Next(Argon2(permute, inst), c.s, a))
  }

  /** Any interleaving. */
  ghost predicate CarryRun(permute: Permutation, inst: Instance, mem: Memory, moves: seq<Move>, c: Carrying)
    requires inst.Valid()
  {
    if moves == [] then c == Carrying(SliceState(Argon2(permute, inst), 0, 0, mem), Unloaded(inst))
    else
      var last := |moves| - 1;
      exists before ::
        CarryRun(permute, inst, mem, moves[..last], before) && Follows(permute, inst, before, moves[last], c)
  }

  ghost predicate Follows(permute: Permutation, inst: Instance, before: Carrying, m: Move, c: Carrying)
    requires inst.Valid()
  {
    CanMove(Argon2(permute, inst), before, m) && c == Moved(permute, inst, before, m)
  }

  /** What a thread carries is the predecessor of the block it builds next. */
  ghost predicate Carries(inst: Instance, c: Carrying) {
    c.s.pass < inst.passes ==>
      && c.s.slice < SYNC_POINTS && |c.carried| == |c.s.progress| == inst.lanes
      && forall l | 0 <= l < inst.lanes && c.carried[l].Some? ::
           StateIsPrev(inst, PosOf(c.s, l), c.carried[l].value, c.s.mem)
  }

  lemma PrevIsCell(e: Engine, pos: Position)
    requires Running(e.inst, pos)
    ensures 0 <= pos.PrevColumn(e.inst) && Cell(e, pos.lane, pos.PrevColumn(e.inst))
    ensures pos.index < e.inst.segmentLength ==> pos.Valid(e.inst) && Cell(e, pos.lane, pos.Column(e.inst))
  {
  }

  /** Another thread's block is not the carried one. */
  lemma OthersKeep(e: Engine, pos: Position, other: Position, state: Block, block: Block, mem: Memory)
    requires Running(e.inst, pos) && pos.index < e.inst.segmentLength && Running(e.inst, other)
             && pos.lane != other.lane
    requires |mem| == e.inst.memoryBlocks && StateIsPrev(e.inst, other, state, mem)
    ensures StateIsPrev(e.inst, other, state, Written(e.inst, pos, block, mem))
  {
    PrevIsCell(e, pos);
    PrevIsCell(e, other);
    if Off(e.inst, pos.lane, pos.Column(e.inst)) == Off(e.inst, other.lane, other.PrevColumn(e.inst)) {
      OffInjective(e, pos.lane, pos.Column(e.inst), other.lane, other.PrevColumn(e.inst));
    }
  }

  lemma IsRunning(e: Engine, mem: Memory, s: State, l: nat)
    requires Inv(e, mem, s) && s.pass < e.inst.passes && l < e.inst.lanes
    ensures |s.progress| == e.inst.lanes && |s.mem| == e.inst.memoryBlocks && Running(e.inst, PosOf(s, l))
  {
    hide Fill, ControlInv, At;
    assert PosOf(s, l) == SliceOf(e, s.pass, s.slice, mem).Pos(l, s.progress[l]);
  }

  /** The thread that builds a block: its effect on the shared state is that of any build. */
  lemma WorkRefines(permute: Permutation, inst: Instance, mem: Memory, c: Carrying, l: nat)
    requires inst.Valid() && Inv(Argon2(permute, inst), mem, c.s) && Carries(inst, c)
    requires CanMove(Argon2(permute, inst), c, Do(Work(l)))
    ensures var c' := Moved(permute, inst, c, Do(Work(l)));
            c'.s == Next(Argon2(permute, inst), c.s, Work(l)) && Carries(inst, c')
  {
    hide Inv, BlockFrom, StateIsPrev, Running;
    var e := Argon2(permute, inst);
    var pos, state, c' := PosOf(c.s, l), c.carried[l].value, Moved(permute, inst, c, Do(Work(l)));
    IsRunning(e, mem, c.s, l);
    PrevIsCell(e, pos);
    CarriedIsPrev(permute, inst, pos, state, c.s.mem);
    forall k | 0 <= k < inst.lanes && c'.carried[k].Some?
      ensures StateIsPrev(inst, PosOf(c'.s, k), c'.carried[k].value, c'.s.mem)
    {
      if k != l {
        IsRunning(e, mem, c.s, k);
        OthersKeep(e, pos, PosOf(c.s, k), c.carried[k].value, c'.carried[l].value, c.s.mem);
      } else {
        assert PosOf(c'.s, l) == pos.(index := pos.index + 1);
      }
    }
  }

  lemma LoadRefines(permute: Permutation, inst: Instance, mem: Memory, c: Carrying, l: nat)
    requires inst.Valid() && Inv(Argon2(permute, inst), mem, c.s) && Carries(inst, c)
    requires CanMove(Argon2(permute, inst), c, Load(l))
    ensures Carries(inst, Moved(permute, inst, c, Load(l)))
  {
    hide Inv, Running;
    var e := Argon2(permute, inst);
    IsRunning(e, mem, c.s, l);
    PrevIsCell(e, PosOf(c.s, l));
    OffInRange(inst, l, PosOf(c.s, l).PrevColumn(inst));
  }

  lemma MoveRefines(permute: Permutation, inst: Instance, mem: Memory, c: Carrying, m: Move)
    requires inst.Valid() && Inv(Argon2(permute, inst), mem, c.s) && Carries(inst, c)
    requires CanMove(Argon2(permute, inst), c, m)
    ensures m.Do? ==> Enabled(Argon2(permute, inst), c.s, m.action)
    ensures var c' := Moved(permute, inst, c, m);
            c'.s == (if m.Load? then c.s else Next(Argon2(permute, inst), c.s, m.action)) && Carries(inst, c')
  {
    match m
    case Load(l) => LoadRefines(permute, inst, mem, c, l);
    case Do(a) =>
      if a.Work? {
        WorkRefines(permute, inst, mem, c, a.lane);
      } else {
        hide Inv, StateIsPrev;
      }
  }

  /** The run of the shared state alone. */
  function Actions(moves: seq<Move>): seq<Action> {
    if moves == [] then []
    else
      var last := |moves| - 1;
      Actions(moves[..last]) + if moves[last].Load? then [] else [moves[last].action]
  }

  lemma {:induction false} CarryingIsRun(permute: Permutation, inst: Instance, mem: Memory, moves: seq<Move>,
                                         c: Carrying)
    requires inst.Valid() && |mem| == inst.memoryBlocks && CarryRun(permute, inst, mem, moves, c)
    ensures Run(Argon2(permute, inst), mem, Actions(moves), c.s) && Carries(inst, c)
  {
    hide Inv, Moved, CanMove, Enabled, Next, StateIsPrev;
    var e := Argon2(permute, inst);
    if moves != [] {
      var last := |moves| - 1;
      var before :|
        CarryRun(permute, inst, mem, moves[..last], before) && Follows(permute, inst, before, moves[last], c);
      CarryingIsRun(permute, inst, mem, moves[..last], before);
      Argon2Respects(permute, inst);
      RunInv(e, mem, Actions(moves[..last]), before.s);
      MoveRefines(permute, inst, mem, before, moves[last]);
      if moves[last].Do? {
        RunOn(e, mem, Actions(moves[..last]), before.s, moves[last].action);
      } else {
        assert Actions(moves) == Actions(moves[..last]);
      }
    }
  }

  lemma RunOn(e: Engine, mem: Memory, actions: seq<Action>, s: State, a: Action)
    requires Run(e, mem, actions, s) && Enabled(e, s, a)
    ensures Run(e, mem, actions + [a], Next(e, s, a))
  {
    assert (actions + [a])[..|actions|] == actions;
  }

  /** Main result: whatever the interleaving of threads that carry their blocks, a finished fill leaves the memory the
      single-threaded one computes. */
  lemma CarryingIsSequential(permute: Permutation, inst: Instance, mem: Memory, moves: seq<Move>, c: Carrying)
    requires inst.Valid() && |mem| == inst.memoryBlocks
    requires CarryRun(permute, inst, mem, moves, c) && c.s.pass >= inst.passes
    ensures c.s.mem == FillAll(Argon2(permute, inst), mem)
  {
    CarryingIsRun(permute, inst, mem, moves, c);
    MultiThreadedIsSequential(permute, inst, mem, Actions(moves), c.s);
  }

  /** No interleaving gets stuck here either: a thread that could build a block can load first. */
  lemma CarryingGoesOn(permute: Permutation, inst: Instance, mem: Memory, moves: seq<Move>, c: Carrying)
    returns (m: Move)
    requires inst.Valid() && |mem| == inst.memoryBlocks
    requires CarryRun(permute, inst, mem, moves, c) && c.s.pass < inst.passes
    ensures CanMove(Argon2(permute, inst), c, m)
  {
    CarryingIsRun(permute, inst, mem, moves, c);
    var a := NoDeadlock(permute, inst, mem, Actions(moves), c.s);
    m := if a.Work? && c.carried[a.lane].None? then Load(a.lane) else Do(a);
  }
}
