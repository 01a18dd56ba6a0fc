// Filling the whole memory (core.c): the single-threaded loops, and the multi-threaded ones as a state machine in which
// the creating thread and the lane threads take turns in any order.
module FillMemory {
  import opened Common
  import opened Argon2Instance
  import opened ReferenceIndex
  import opened Blocks
  import opened Lanes
  import opened Schedules
  import opened FillSegment

  // ----- specification: passes, slices and lanes in order -----

  /** The memory when slice `slice` of pass `pass` begins: every earlier slice filled lane by lane. */
  function Fill(e: Engine, pass: nat, slice: nat, mem: Memory): (r: Memory)
    ensures |r| == |mem|
    decreases pass, slice
  {
    if slice > 0 then FillLanes(e, Slice(pass, slice - 1, Fill(e, pass, slice - 1, mem)), e.inst.lanes)
    else if pass > 0 then Fill(e, pass - 1, SYNC_POINTS, mem)
    else mem
  }

  /** The whole computation. */
  function FillAll(e: Engine, mem: Memory): (r: Memory)
    ensures |r| == |mem|
  {
    Fill(e, e.inst.passes, 0, mem)
  }

  /** A slice together with the memory it starts from. */
  function SliceOf(e: Engine, pass: nat, slice: nat, mem: Memory): Slice {
    Slice(pass, slice, Fill(e, pass, slice, mem))
  }

  lemma FillNext(e: Engine, pass: nat, slice: nat, mem: Memory)
    ensures Fill(e, pass, slice + 1, mem) == FillLanes(e, SliceOf(e, pass, slice, mem), e.inst.lanes)
    ensures Fill(e, pass + 1, 0, mem) == Fill(e, pass, SYNC_POINTS, mem)
  {
  }

  lemma FillNothing(e: Engine, mem: Memory)
    ensures Fill(e, 0, 0, mem) == mem
  {
  }

  lemma InstanceOf(permute: Permutation, inst: Instance)
    requires inst.Valid()
    ensures Argon2(permute, inst).inst == inst
  {
  }

  // ----- one thread -----

  /** The innermost loop of `fill_memory_blocks_st`, with either build of `fill_segment`. */
  method FillSliceSt(build: Build, permute: Permutation, inst: Instance, r: nat, s: nat, memory: array<Block>)
    requires inst.Valid() && memory.Length == inst.memoryBlocks && r < inst.passes && s < SYNC_POINTS
    modifies memory
    ensures memory[..] == FillLanes(Argon2(permute, inst), Slice(r, s, old(memory[..])), inst.lanes)
  {
    ghost var e := Argon2(permute, inst);
    ghost var sl := Slice(r, s, memory[..]);
    for l := 0 to inst.lanes
      invariant memory[..] == FillLanes(e, sl, l)
    {
      LanesNext(e, sl, l);
      assert sl.Pos(l, 0) == Position(r, l, s, 0);
      match build
      case Reference => FillSegmentRef(permute, inst, Position(r, l, s, 0), memory);
      case Optimised => FillSegmentOpt(permute, inst, Position(r, l, s, 0), memory);
    }
  }

  /** `fill_memory_blocks_st`. */
  method FillMemorySt(build: Build, permute: Permutation, inst: Instance, memory: array<Block>)
    requires inst.Valid() && memory.Length == inst.memoryBlocks
    modifies memory
    ensures memory[..] == FillAll(Argon2(permute, inst), old(memory[..]))
  {
    hide FillLanes, Fill, Argon2;
    ghost var e := Argon2(permute, inst);
    InstanceOf(permute, inst);
    FillNothing(e, memory[..]);
    for r := 0 to inst.passes
      invariant memory[..] == Fill(e, r, 0, old(memory[..]))
    {
      for s := 0 to SYNC_POINTS
        invariant memory[..] == Fill(e, r, s, old(memory[..]))
      {
        FillNext(e, r, s, old(memory[..]));
        FillSliceSt(build, permute, inst, r, s, memory);
      }
      FillNext(e, r, 0, old(memory[..]));
    }
  }

  // ----- many threads -----

  /** Where the creating thread is in one slice: about to create thread `l` (having waited for an older one or not
      yet), or about to join thread `l` at the end of the slice. */
  datatype Control = Creating(l: nat, waited: bool) | Joining(l: nat)
  {
    /** How many lane threads exist. */
    function Created(inst: Instance): nat {
      match this
      case Creating(l, _) => l
      case Joining(_) => inst.lanes
    }
  }

  /** `joined` lists the threads joined in this slice, in order; `progress` is the index each lane is at. */
  datatype State = State(pass: nat, slice: nat, control: Control, joined: seq<nat>, progress: seq<nat>, mem: Memory)

  function SliceState(e: Engine, pass: nat, slice: nat, mem: Memory): State {
    State(pass, slice, Creating(0, false), [], seq(e.inst.lanes, _ => StartIndex(pass, slice)), mem)
  }

  datatype Action = JoinOldest | Create | EndCreate | Join | NextSlice | Work(lane: nat)

  /** Joining a thread returns once its segment is complete. */
  predicate Joinable(e: Engine, s: State, l: nat) {
    l < s.control.Created(e.inst) && l < |s.progress| && s.progress[l] == e.inst.segmentLength
  }

  predicate Enabled(e: Engine, s: State, a: Action) {
    s.pass < e.inst.passes && s.slice < SYNC_POINTS &&
    match a
    case JoinOldest =>
      && s.control.Creating? && s.control.l < e.inst.lanes && !s.control.waited
      && s.control.l >= e.inst.threads && Joinable(e, s, s.control.l - e.inst.threads)
    case Create =>
      s.control.Creating? && s.control.l < e.inst.lanes && (s.control.l < e.inst.threads || s.control.waited)
    case EndCreate => s.control.Creating? && s.control.l >= e.inst.lanes
    case Join => s.control.Joining? && s.control.l < e.inst.lanes && Joinable(e, s, s.control.l)
    case NextSlice => s.control.Joining? && s.control.l >= e.inst.lanes
    case Work(l) => l < s.control.Created(e.inst) && l < |s.progress| && s.progress[l] < e.inst.segmentLength
  }

  function Next(e: Engine, s: State, a: Action): State
    requires Enabled(e, s, a)
  {
    match a
    case JoinOldest =>
      s.(control := Creating(s.control.l, true), joined := s.joined + [s.control.l - e.inst.threads])
    case Create => s.(control := Creating(s.control.l + 1, false))
    case EndCreate => s.(control := Joining(Wrap32(e.inst.lanes - e.inst.threads)))
    case Join => s.(control := Joining(s.control.l + 1), joined := s.joined + [s.control.l])
    case NextSlice =>
      if s.slice + 1 < SYNC_POINTS then SliceState(e, s.pass, s.slice + 1, s.mem)
      else SliceState(e, s.pass + 1, 0, s.mem)
    case Work(l) =>
      s.(progress := s.progress[l := s.progress[l] + 1],
         mem := Step(e, Position(s.pass, l, s.slice, s.progress[l]), s.mem))
  }

  /** Any interleaving of the creating thread and the lane threads, from the first slice on. */
  ghost predicate Run(e: Engine, mem: Memory, actions: seq<Action>, s: State) {
    if actions == [] then s == SliceState(e, 0, 0, mem)
    else
      var last := |actions| - 1;
      exists before ::
        Run(e, mem, actions[..last], before) && Enabled(e, before, actions[last]) && s == Next(e, before, actions[last])
  }

  function UpTo(n: nat): (r: seq<nat>)
    ensures |r| == n && forall i | 0 <= i < n :: r[i] == i
  {
    seq(n, i requires i >= 0 => i)
  }

  /** Every thread is joined at most once and in lane order, only finished threads have been joined, at most `threads`
      threads are unjoined, and the memory is consistent with the start of the slice. */
  ghost predicate Inv(e: Engine, mem: Memory, s: State) {
    && |mem| == e.inst.memoryBlocks
    && s.pass <= e.inst.passes
    && (s.pass == e.inst.passes ==> s.mem == FillAll(e, mem))
    && (s.pass < e.inst.passes ==>
          && s.slice < SYNC_POINTS
          && Consistent(e, SliceOf(e, s.pass, s.slice, mem), s.mem, s.progress)
          && ControlInv(e, s))
  }

  ghost predicate ControlInv(e: Engine, s: State) {
    && |s.progress| == e.inst.lanes
    && (match s.control
        case Creating(l, waited) =>
          && l <= e.inst.lanes
          && (waited ==> e.inst.threads <= l < e.inst.lanes)
          && s.joined == UpTo(Max(0, l - e.inst.threads) + (if waited then 1 else 0))
          && (forall i | l <= i < e.inst.lanes :: s.progress[i] == StartIndex(s.pass, s.slice))
        case Joining(l) => e.inst.lanes - e.inst.threads <= l <= e.inst.lanes && s.joined == UpTo(l))
    && (forall i | 0 <= i < |s.joined| :: s.joined[i] < e.inst.lanes && s.progress[i] == e.inst.segmentLength)
  }

  lemma InvInitially(e: Engine, mem: Memory)
    requires |mem| == e.inst.memoryBlocks
    ensures Inv(e, mem, SliceState(e, 0, 0, mem))
  {
    NewSliceInv(e, mem, 0, 0);
  }

  lemma NewSliceInv(e: Engine, mem: Memory, pass: nat, slice: nat)
    requires |mem| == e.inst.memoryBlocks && slice < SYNC_POINTS
    requires pass < e.inst.passes || (pass == e.inst.passes && slice == 0)
    ensures Inv(e, mem, SliceState(e, pass, slice, Fill(e, pass, slice, mem)))
  {
    if pass < e.inst.passes {
      var sl := SliceOf(e, pass, slice, mem);
      ConsistentInitially(e, sl);
      assert AtStart(e, sl) == seq(e.inst.lanes, _ => StartIndex(pass, slice));
    }
  }

  /** The barrier: when the creating thread leaves a slice, every segment of the slice is complete. */
  lemma Barrier(e: Engine, mem: Memory, s: State)
    requires Respects(e) && Inv(e, mem, s) && Enabled(e, s, NextSlice)
    ensures Complete(e, s.progress)
    ensures s.mem == Fill(e, s.pass, s.slice + 1, mem)
    ensures s.pass < e.inst.passes && s.slice < SYNC_POINTS && |mem| == e.inst.memoryBlocks
  {
    var sl := SliceOf(e, s.pass, s.slice, mem);
    FinishedSlice(e, sl, s.mem, s.progress);
    FillNext(e, s.pass, s.slice, mem);
  }

  lemma WorkInv(e: Engine, mem: Memory, s: State, l: nat)
    requires Respects(e) && Inv(e, mem, s) && Enabled(e, s, Work(l))
    ensures Inv(e, mem, Next(e, s, Work(l)))
  {
    hide Respects, ControlInv, Fill;
    var sl := SliceOf(e, s.pass, s.slice, mem);
    StepConsistent(e, sl, s.mem, s.progress, l);
    WorkControl(e, s, l);
    assert sl.Pos(l, s.progress[l]) == Position(s.pass, l, s.slice, s.progress[l]);
  }

  lemma WorkControl(e: Engine, s: State, l: nat)
    requires ControlInv(e, s) && Enabled(e, s, Work(l))
    ensures ControlInv(e, Next(e, s, Work(l)))
  {
  }

  /** The creating thread's own steps leave memory and progress alone. */
  lemma ControlNext(e: Engine, s: State, a: Action)
    requires ControlInv(e, s) && Enabled(e, s, a) && (a.JoinOldest? || a.Create? || a.EndCreate? || a.Join?)
    ensures ControlInv(e, Next(e, s, a))
  {
    var s' := Next(e, s, a);
    if a.JoinOldest? || a.Join? {
      assert s'.joined == UpTo(|s.joined| + 1);
    }
  }

  lemma NextSliceInv(e: Engine, mem: Memory, s: State)
    requires Respects(e) && Inv(e, mem, s) && Enabled(e, s, NextSlice)
    ensures Inv(e, mem, Next(e, s, NextSlice))
  {
    hide Inv, Respects, Fill, Enabled, Complete;
    Barrier(e, mem, s);
    if s.slice + 1 < SYNC_POINTS {
      NewSliceInv(e, mem, s.pass, s.slice + 1);
    } else {
      FillNext(e, s.pass, s.slice, mem);
      NewSliceInv(e, mem, s.pass + 1, 0);
    }
  }

  lemma InvNext(e: Engine, mem: Memory, s: State, a: Action)
    requires Respects(e) && Inv(e, mem, s) && Enabled(e, s, a)
    ensures Inv(e, mem, Next(e, s, a))
  {
    match a
    case Work(l) => WorkInv(e, mem, s, l);
    case NextSlice => NextSliceInv(e, mem, s);
    case _ => ControlNext(e, s, a);
  }

  lemma {:induction false} RunInv(e: Engine, mem: Memory, actions: seq<Action>, s: State)
    requires Respects(e) && |mem| == e.inst.memoryBlocks && Run(e, mem, actions, s)
    ensures Inv(e, mem, s)
  {
    if actions == [] {
      InvInitially(e, mem);
    } else {
      var last := |actions| - 1;
      var before :|
        Run(e, mem, actions[..last], before) && Enabled(e, before, actions[last])
        && s == Next(e, before, actions[last]);
      RunInv(e, mem, actions[..last], before);
      InvNext(e, mem, before, actions[last]);
    }
  }

  // ----- Argon2 is such an engine -----

  lemma Argon2Respects(permute: Permutation, inst: Instance)
    requires inst.Valid()
    ensures Respects(Argon2(permute, inst))
  {
    var e := Argon2(permute, inst);
    forall pos: Position, m: Memory, m': Memory | pos.Valid(inst) && SameOnReads(e, pos, m, m')
      ensures e.build(pos, m) == e.build(pos, m')
    {
      NewBlockReads(permute, inst, pos, m, m');
    }
  }

  lemma NewBlockReads(permute: Permutation, inst: Instance, pos: Position, m: Memory, m': Memory)
    requires inst.Valid() && pos.Valid(inst) && SameOnReads(Argon2(permute, inst), pos, m, m')
    ensures NewBlock(permute, inst, pos, m) == NewBlock(permute, inst, pos, m')
  {
    var e := Argon2(permute, inst);
    assert At(e, m, pos.lane, pos.PrevColumn(inst)) == At(e, m', pos.lane, pos.PrevColumn(inst));
    var rand := PseudoRand(permute, inst, pos, m);
    assert rand == PseudoRand(permute, inst, pos, m');
    var lane, col := RefLane(inst, pos, rand), RefColumn(inst, pos, rand);
    assert At(e, m, lane, col) == At(e, m', lane, col);
    if inst.WithXor(pos.pass) {
      assert At(e, m, pos.lane, pos.Column(inst)) == At(e, m', pos.lane, pos.Column(inst));
    }
  }

  /** Main result: whatever the interleaving, a finished multi-threaded fill leaves the memory the single-threaded
      one computes. */
  lemma MultiThreadedIsSequential(permute: Permutation, inst: Instance, mem: Memory, actions: seq<Action>, s: State)
    requires inst.Valid() && |mem| == inst.memoryBlocks
    requires Run(Argon2(permute, inst), mem, actions, s) && s.pass >= inst.passes
    ensures s.mem == FillAll(Argon2(permute, inst), mem)
  {
    Argon2Respects(permute, inst);
    RunInv(Argon2(permute, inst), mem, actions, s);
  }

  /** At no time are more than `threads` lane threads unjoined, and no thread is joined twice. */
  lemma ThreadBound(permute: Permutation, inst: Instance, mem: Memory, actions: seq<Action>, s: State)
    requires inst.Valid() && |mem| == inst.memoryBlocks
    requires Run(Argon2(permute, inst), mem, actions, s) && s.pass < inst.passes
    ensures |s.joined| <= s.control.Created(inst) <= |s.joined| + inst.threads
    ensures forall i, j | 0 <= i < j < |s.joined| :: s.joined[i] != s.joined[j]
  {
    Argon2Respects(permute, inst);
    RunInv(Argon2(permute, inst), mem, actions, s);
  }

  /** No interleaving gets stuck: until the last pass is over, some thread can move. */
  lemma NoDeadlock(permute: Permutation, inst: Instance, mem: Memory, actions: seq<Action>, s: State)
    returns (a: Action)
    requires inst.Valid() && |mem| == inst.memoryBlocks
    requires Run(Argon2(permute, inst), mem, actions, s) && s.pass < inst.passes
    ensures Enabled(Argon2(permute, inst), s, a)
  {
    var e := Argon2(permute, inst);
    Argon2Respects(permute, inst);
    RunInv(e, mem, actions, s);
    forall l | 0 <= l < |s.progress| ensures s.progress[l] <= inst.segmentLength {
      assert Running(inst, SliceOf(e, s.pass, s.slice, mem).Pos(l, s.progress[l]));
    }
    a := Movable(e, s);
  }

  lemma Movable(e: Engine, s: State) returns (a: Action)
    requires s.pass < e.inst.passes && s.slice < SYNC_POINTS && ControlInv(e, s)
    requires forall l | 0 <= l < |s.progress| :: s.progress[l] <= e.inst.segmentLength
    ensures Enabled(e, s, a)
  {
    var inst := e.inst;
    match s.control
    case Creating(l, waited) =>
      if l >= inst.lanes { a := EndCreate; }
      else if l < inst.threads || waited { a := Create; }
      else if s.progress[l - inst.threads] == inst.segmentLength { a := JoinOldest; }
      else { a := Work(l - inst.threads); }
    case Joining(l) =>
      if l >= inst.lanes { a := NextSlice; }
      else if s.progress[l] == inst.segmentLength { a := Join; }
      else { a := Work(l); }
  }

  // ----- termination -----

  function Remaining(e: Engine, progress: seq<nat>): nat {
    if progress == [] then 0
    else Max(0, e.inst.segmentLength - progress[0]) + Remaining(e, progress[1..])
  }

  lemma {:induction false} RemainingDrops(e: Engine, progress: seq<nat>, l: nat)
    requires l < |progress| && progress[l] < e.inst.segmentLength
    ensures Remaining(e, progress[l := progress[l] + 1]) == Remaining(e, progress) - 1
  {
    var progress' := progress[l := progress[l] + 1];
    if l == 0 {
      assert progress'[1..] == progress[1..];
    } else {
      RemainingDrops(e, progress[1..], l - 1);
      assert progress'[1..] == progress[1..][l - 1 := progress[l] + 1];
    }
  }

  /** Steps the creating thread still has in this slice, at most. */
  function ControlRank(e: Engine, c: Control): int {
    match c
    case Creating(l, waited) => 3 * e.inst.lanes + 3 - 2 * l - (if waited then 1 else 0)
    case Joining(l) => e.inst.lanes + 1 - l
  }

  /** Every action uses up something, so no interleaving goes on for ever: passes first, then slices, then the blocks
      and thread operations left in the slice. */
  lemma EveryActionCounts(e: Engine, mem: Memory, s: State, a: Action)
    requires Inv(e, mem, s) && Enabled(e, s, a)
    ensures var s' := Next(e, s, a);
      || s'.pass == s.pass + 1 <= e.inst.passes
      || (s'.pass == s.pass && s'.slice == s.slice + 1 < SYNC_POINTS)
      || (s'.pass == s.pass && s'.slice == s.slice
          && 0 <= Remaining(e, s'.progress) + ControlRank(e, s'.control)
             < Remaining(e, s.progress) + ControlRank(e, s.control))
  {
    if a.Work? { RemainingDrops(e, s.progress, a.lane); }
  }

  /** More than one slice can use up. */
  function SliceCost(inst: Instance): nat {
    inst.lanes * (inst.segmentLength + 3) + 4
  }

  /** Slices still to be begun. */
  function SlicesLeft(e: Engine, s: State): int {
    (e.inst.passes - s.pass) * SYNC_POINTS - s.slice
  }

  function Rank(e: Engine, s: State): int {
    if s.pass >= e.inst.passes then 0
    else
      SlicesLeft(e, s) * SliceCost(e.inst) - SliceCost(e.inst)
      + Remaining(e, s.progress) + ControlRank(e, s.control) + 1
  }

  lemma {:induction false} RemainingBound(e: Engine, progress: seq<nat>)
    ensures Remaining(e, progress) <= |progress| * e.inst.segmentLength
  {
    if progress != [] {
      RemainingBound(e, progress[1..]);
      MulSucc(|progress| - 1, e.inst.segmentLength);
    }
  }

  lemma MulSucc(n: nat, m: nat)
    ensures (n + 1) * m == n * m + m
  {
  }

  /** A slice begins with less than its cost. */
  lemma SliceBegins(e: Engine, pass: nat, slice: nat, mem: Memory)
    ensures var s := SliceState(e, pass, slice, mem);
            0 <= Remaining(e, s.progress) + ControlRank(e, s.control) < SliceCost(e.inst)
  {
    var s := SliceState(e, pass, slice, mem);
    RemainingBound(e, s.progress);
    assert SliceCost(e.inst) == e.inst.lanes * e.inst.segmentLength + 3 * e.inst.lanes + 4;
  }

  lemma LeftInSlice(e: Engine, s: State)
    requires ControlInv(e, s)
    ensures Remaining(e, s.progress) + ControlRank(e, s.control) >= 0
  {
  }

  lemma InitialRank(e: Engine, mem: Memory)
    ensures 0 <= Rank(e, SliceState(e, 0, 0, mem)) <= e.inst.passes * SYNC_POINTS * SliceCost(e.inst)
  {
    hide Remaining, ControlRank, SliceCost;
    SliceBegins(e, 0, 0, mem);
    MulSucc(SlicesLeft(e, SliceState(e, 0, 0, mem)) - 1, SliceCost(e.inst));
    MulNonneg(SlicesLeft(e, SliceState(e, 0, 0, mem)) - 1, SliceCost(e.inst));
  }

  lemma MulNonneg(n: nat, m: nat)
    ensures n * m >= 0
  {
  }

  /** A new slice begins below what the old one still had, however little that was. */
  lemma NextSliceRank(e: Engine, mem: Memory, s: State)
    requires Inv(e, mem, s) && Enabled(e, s, NextSlice)
    ensures 0 <= Rank(e, Next(e, s, NextSlice)) < Rank(e, s)
  {
    hide Fill, Remaining, ControlRank, SliceCost, Consistent;
    var s' := Next(e, s, NextSlice);
    LeftInSlice(e, s);
    SliceBegins(e, s'.pass, s'.slice, s.mem);
    var n := SlicesLeft(e, s) - 1;
    MulNonneg(n, SliceCost(e.inst));
    MulSucc(n, SliceCost(e.inst));
    if n > 0 {
      MulNonneg(n - 1, SliceCost(e.inst));
      MulSucc(n - 1, SliceCost(e.inst));
    }
  }

  lemma RankDrops(e: Engine, mem: Memory, s: State, a: Action)
    requires Inv(e, mem, s) && Enabled(e, s, a)
    ensures 0 <= Rank(e, Next(e, s, a)) < Rank(e, s)
  {
    hide Inv, Fill, Remaining, ControlRank, SliceCost;
    if a.NextSlice? {
      NextSliceRank(e, mem, s);
    } else {
      EveryActionCounts(e, mem, s, a);
      MulSucc(SlicesLeft(e, s) - 1, SliceCost(e.inst));
      MulNonneg(SlicesLeft(e, s) - 1, SliceCost(e.inst));
    }
  }

  /** No run is longer than what all its slices can use up. */
  lemma {:induction false} RunIsBounded(e: Engine, mem: Memory, actions: seq<Action>, s: State)
    requires Respects(e) && |mem| == e.inst.memoryBlocks && Run(e, mem, actions, s)
    ensures |actions| + Rank(e, s) <= e.inst.passes * SYNC_POINTS * SliceCost(e.inst)
    ensures Rank(e, s) >= 0
  {
    hide Inv, Rank, Enabled, Next, SliceCost;
    if actions == [] {
      InitialRank(e, mem);
    } else {
      var last := |actions| - 1;
      var before :|
        Run(e, mem, actions[..last], before) && Enabled(e, before, actions[last])
        && s == Next(e, before, actions[last]);
      RunIsBounded(e, mem, actions[..last], before);
      RunInv(e, mem, actions[..last], before);
      RankDrops(e, mem, before, actions[last]);
    }
  }

  /** Every multi-threaded run is finite: there is a bound on its actions, whatever the interleaving. */
  lemma EveryRunIsFinite(permute: Permutation, inst: Instance, mem: Memory, actions: seq<Action>, s: State)
    requires inst.Valid() && |mem| == inst.memoryBlocks && Run(Argon2(permute, inst), mem, actions, s)
    ensures |actions| <= inst.passes * SYNC_POINTS * (inst.lanes * (inst.segmentLength + 3) + 4)
  {
    hide Run, Inv, Respects, Rank, Argon2, Fill;
    InstanceOf(permute, inst);
    Argon2Respects(permute, inst);
    RunIsBounded(Argon2(permute, inst), mem, actions, s);
  }

  // ----- what was in memory before does not matter -----

  /** The cells of one lane to the left of `bound` agree. */
  ghost predicate Agree(e: Engine, m: Memory, m': Memory, lane: nat, bound: nat)
    requires |m| == |m'| == e.inst.memoryBlocks
  {
    forall col: nat | col < bound && Cell(e, lane, col) :: At(e, m, lane, col) == At(e, m', lane, col)
  }

  function FirstColumn(e: Engine, slice: nat): nat {
    e.inst.SliceStart(slice) + StartIndex(0, slice)
  }

  ghost predicate AgreeAll(e: Engine, m: Memory, m': Memory, bound: nat)
    requires |m| == |m'| == e.inst.memoryBlocks
  {
    forall lane: nat | lane < e.inst.lanes :: Agree(e, m, m', lane, bound)
  }

  lemma {:induction false} SegmentAgrees(e: Engine, pos: Position, m: Memory, m': Memory)
    requires Respects(e) && Running(e.inst, pos) && pos.pass == 0 && |m| == |m'| == e.inst.memoryBlocks
    requires Agree(e, m, m', pos.lane, FirstColumn(e, pos.slice))
    requires forall lane: nat | lane < e.inst.lanes :: Agree(e, m, m', lane, e.inst.SliceStart(pos.slice))
    ensures Agree(e, FillTo(e, pos, m), FillTo(e, pos, m'), pos.lane, pos.Column(e.inst))
    decreases pos.index
  {
    if pos.index > StartIndex(0, pos.slice) {
      var prior := pos.(index := pos.index - 1);
      var f, f' := FillTo(e, prior, m), FillTo(e, prior, m');
      SegmentAgrees(e, prior, m, m');
      forall lane: nat, col: nat | Cell(e, lane, col) && MayRead(e, prior, lane, col)
        ensures At(e, f, lane, col) == At(e, f', lane, col)
      {
        if lane != pos.lane {
          FillToFrame(e, prior, m, lane, col);
          FillToFrame(e, prior, m', lane, col);
          assert Agree(e, m, m', lane, e.inst.SliceStart(pos.slice));
        }
      }
      assert SameOnReads(e, prior, f, f');
      forall col: nat | col < pos.Column(e.inst) && Cell(e, pos.lane, col)
        ensures At(e, FillTo(e, pos, m), pos.lane, col) == At(e, FillTo(e, pos, m'), pos.lane, col)
      {
        StepAt(e, prior, f, pos.lane, col);
        StepAt(e, prior, f', pos.lane, col);
      }
    }
  }

  /** While slice `slice` is filled and the first `n` lanes are done. */
  ghost predicate AgreeDone(e: Engine, m: Memory, m': Memory, slice: nat, n: nat, lane: nat)
    requires |m| == |m'| == e.inst.memoryBlocks
  {
    Agree(e, m, m', lane, if lane < n then e.inst.SliceStart(slice + 1) else FirstColumn(e, slice))
  }

  ghost predicate AgreeSlice(e: Engine, m: Memory, m': Memory, slice: nat, n: nat)
    requires |m| == |m'| == e.inst.memoryBlocks
  {
    forall lane: nat | lane < e.inst.lanes :: AgreeDone(e, m, m', slice, n, lane)
  }

  lemma AgreeFrame(e: Engine, end: Position, f: Memory, f': Memory, n: nat, lane: nat)
    requires Running(e.inst, end) && |f| == |f'| == e.inst.memoryBlocks && lane != end.lane
    requires AgreeDone(e, f, f', end.slice, n, lane)
    ensures AgreeDone(e, FillTo(e, end, f), FillTo(e, end, f'), end.slice, n, lane)
  {
    forall col: nat | col < (if lane < n then e.inst.SliceStart(end.slice + 1) else FirstColumn(e, end.slice))
           && Cell(e, lane, col)
      ensures At(e, FillTo(e, end, f), lane, col) == At(e, FillTo(e, end, f'), lane, col)
    {
      FillToFrame(e, end, f, lane, col);
      FillToFrame(e, end, f', lane, col);
    }
  }

  lemma LaneAgrees(e: Engine, slice: nat, l: nat, f: Memory, f': Memory)
    requires Respects(e) && slice < SYNC_POINTS && |f| == |f'| == e.inst.memoryBlocks && l < e.inst.lanes
    requires AgreeSlice(e, f, f', slice, l)
    ensures AgreeSlice(e, Segment(e, Position(0, l, slice, 0), f), Segment(e, Position(0, l, slice, 0), f'), slice,
                       l + 1)
  {
    var end, n := Position(0, l, slice, e.inst.segmentLength), l + 1;
    assert Position(0, l, slice, 0).(index := e.inst.segmentLength) == end;
    var g, g' := FillTo(e, end, f), FillTo(e, end, f');
    forall lane: nat | lane < e.inst.lanes ensures AgreeDone(e, g, g', slice, n, lane) {
      assert AgreeDone(e, f, f', slice, l, lane);
      if lane != l {
        AgreeFrame(e, end, f, f', n, lane);
      } else {
        forall other: nat | other < e.inst.lanes ensures Agree(e, f, f', other, e.inst.SliceStart(slice)) {
          assert AgreeDone(e, f, f', slice, l, other);
        }
        SegmentAgrees(e, end, f, f');
      }
    }
  }

  lemma {:induction false} LanesAgree(e: Engine, slice: nat, m: Memory, m': Memory, n: nat)
    requires Respects(e) && slice < SYNC_POINTS && |m| == |m'| == e.inst.memoryBlocks && n <= e.inst.lanes
    requires AgreeAll(e, m, m', FirstColumn(e, slice))
    ensures AgreeSlice(e, FillLanes(e, Slice(0, slice, m), n), FillLanes(e, Slice(0, slice, m'), n), slice, n)
  {
    if n == 0 {
      forall lane: nat | lane < e.inst.lanes ensures AgreeDone(e, m, m', slice, 0, lane) {
        assert Agree(e, m, m', lane, FirstColumn(e, slice));
      }
    } else {
      var l, sl, sl' := n - 1, Slice(0, slice, m), Slice(0, slice, m');
      var f, f' := FillLanes(e, sl, l), FillLanes(e, sl', l);
      LanesAgree(e, slice, m, m', l);
      LaneAgrees(e, slice, l, f, f');
      LanesNext(e, sl, l);
      LanesNext(e, sl', l);
      assert FillLanes(e, sl, n) == Segment(e, Position(0, l, slice, 0), f);
      assert FillLanes(e, sl', n) == Segment(e, Position(0, l, slice, 0), f');
    }
  }

  lemma SliceAgrees(e: Engine, slice: nat, f: Memory, f': Memory)
    requires Respects(e) && slice < SYNC_POINTS && |f| == |f'| == e.inst.memoryBlocks
    requires AgreeAll(e, f, f', FirstColumn(e, slice))
    ensures AgreeAll(e, FillLanes(e, Slice(0, slice, f), e.inst.lanes), FillLanes(e, Slice(0, slice, f'), e.inst.lanes),
                     FirstColumn(e, slice + 1))
  {
    LanesAgree(e, slice, f, f', e.inst.lanes);
    var g, g' := FillLanes(e, Slice(0, slice, f), e.inst.lanes), FillLanes(e, Slice(0, slice, f'), e.inst.lanes);
    var bound := FirstColumn(e, slice + 1);
    forall lane: nat | lane < e.inst.lanes ensures Agree(e, g, g', lane, bound) {
      assert AgreeDone(e, g, g', slice, e.inst.lanes, lane);
    }
  }

  lemma {:induction false} FirstPassAgrees(e: Engine, slice: nat, m: Memory, m': Memory)
    requires Respects(e) && slice <= SYNC_POINTS && |m| == |m'| == e.inst.memoryBlocks && AgreeAll(e, m, m', 2)
    ensures AgreeAll(e, Fill(e, 0, slice, m), Fill(e, 0, slice, m'), FirstColumn(e, slice))
  {
    if slice > 0 {
      var s := slice - 1;
      var f, f' := Fill(e, 0, s, m), Fill(e, 0, s, m');
      FirstPassAgrees(e, s, m, m');
      SliceAgrees(e, s, f, f');
      FillNext(e, 0, s, m);
      FillNext(e, 0, s, m');
      assert Fill(e, 0, slice, m) == FillLanes(e, Slice(0, s, f), e.inst.lanes);
      assert Fill(e, 0, slice, m') == FillLanes(e, Slice(0, s, f'), e.inst.lanes);
    }
  }

  lemma {:induction false} LaterPassesAgree(e: Engine, pass: nat, slice: nat, m: Memory, m': Memory)
    requires Fill(e, 0, SYNC_POINTS, m) == Fill(e, 0, SYNC_POINTS, m') && pass > 0 && slice <= SYNC_POINTS
    ensures Fill(e, pass, slice, m) == Fill(e, pass, slice, m')
    decreases pass, slice
  {
    if slice > 0 {
      LaterPassesAgree(e, pass, slice - 1, m, m');
    } else if pass > 1 {
      LaterPassesAgree(e, pass - 1, SYNC_POINTS, m, m');
    }
  }

  /** Main result: the first two blocks of every lane decide the result; whatever else the allocated memory held is
      never looked at. */
  lemma OldContentIsIrrelevant(permute: Permutation, inst: Instance, m: Memory, m': Memory)
    requires inst.Valid() && |m| == |m'| == inst.memoryBlocks
    requires AgreeAll(Argon2(permute, inst), m, m', 2)
    ensures FillAll(Argon2(permute, inst), m) == FillAll(Argon2(permute, inst), m')
  {
    var e := Argon2(permute, inst);
    Argon2Respects(permute, inst);
    FirstPassAgrees(e, SYNC_POINTS, m, m');
    var f, f' := Fill(e, 0, SYNC_POINTS, m), Fill(e, 0, SYNC_POINTS, m');
    forall lane: nat, col: nat | Cell(e, lane, col) ensures At(e, f, lane, col) == At(e, f', lane, col) {
      assert Agree(e, f, f', lane, FirstColumn(e, SYNC_POINTS));
    }
    SameCells(e, f, f');
    LaterPassesAgree(e, inst.passes, 0, m, m');
  }
}
