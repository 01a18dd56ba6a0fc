// Filling one segment (ref.c and opt.c): the specification, and both loops proved against it.
module FillSegment {
  import opened Common
  import opened Arith
  import opened Argon2Instance
  import opened ReferenceIndex
  import opened Blocks
  import opened Lanes

  predicate DataIndependent(inst: Instance, pass: nat, slice: nat) {
    inst.kind == ArgonI || (inst.kind == ArgonId && pass == 0 && slice < 2)
  }

  // ----- the address stream of the data-independent mode (section 3.4.1.2 of RFC 9106) -----

  function KindNumber(kind: ArgonType): Word {
    match kind
    case ArgonD => 0
    case ArgonI => 1
    case ArgonId => 2
  }

  /** The block the addresses are generated from. A 32-bit value put into a 64-bit word does not change. */
  function InputBlock(inst: Instance, pos: Position, counter: nat): Block {
    ZERO_BLOCK[0 := Wrap64(pos.pass)][1 := Wrap64(pos.lane)][2 := Wrap64(pos.slice)][3 := Wrap64(inst.memoryBlocks)]
    [4 := Wrap64(inst.passes)][5 := KindNumber(inst.kind)][6 := Wrap64(counter)]
  }

  /** The `n`-th block of addresses of the segment of `pos`. */
  function AddressBlock(permute: Permutation, inst: Instance, pos: Position, n: nat): Block {
    G(permute, ZERO_BLOCK, G(permute, ZERO_BLOCK, InputBlock(inst, pos, n)))
  }

  // ----- one block -----

  function PseudoRand(permute: Permutation, inst: Instance, pos: Position, mem: Memory): Word
    requires inst.Valid() && pos.Valid(inst) && |mem| == inst.memoryBlocks
  {
    if DataIndependent(inst, pos.pass, pos.slice) then
      AddressBlock(permute, inst, pos, pos.index / 128 + 1)[pos.index % 128]
    else
      OffInRange(inst, pos.lane, pos.PrevColumn(inst));
      mem[Off(inst, pos.lane, pos.PrevColumn(inst))][0]
  }

  function RefLane(inst: Instance, pos: Position, rand: Word): (lane: nat)
    requires inst.Valid() && pos.Valid(inst)
    ensures lane < inst.lanes
  {
    if pos.pass == 0 && pos.slice == 0 then pos.lane else (rand / 0x1_0000_0000) % inst.lanes
  }

  function RefColumn(inst: Instance, pos: Position, rand: Word): (z: nat)
    requires inst.Valid() && pos.Valid(inst)
    ensures InWindow(inst, pos, RefLane(inst, pos, rand) == pos.lane, z)
  {
    var same := RefLane(inst, pos, rand) == pos.lane;
    IndexAlphaInWindow(inst, pos, rand % 0x1_0000_0000, same);
    IndexAlpha(inst, pos, rand % 0x1_0000_0000, same)
  }

  /** Main result: which variants take their addresses from where. Argon2i, and Argon2id in the first half of its first
      pass, take word `i % 128` of the address block `i / 128 + 1`, so that neither lane nor column of the reference
      depend on what is in memory; Argon2d, and Argon2id from then on, take the first word of the previous block. */
  lemma AddressesByKind(permute: Permutation, inst: Instance, pos: Position, mem: Memory, mem': Memory)
    requires inst.Valid() && pos.Valid(inst) && |mem| == |mem'| == inst.memoryBlocks
    ensures var rand, rand' := PseudoRand(permute, inst, pos, mem), PseudoRand(permute, inst, pos, mem');
            inst.kind == ArgonI || (inst.kind == ArgonId && pos.pass == 0 && pos.slice in {0, 1}) ==>
              && rand == rand' == AddressBlock(permute, inst, pos, pos.index / 128 + 1)[pos.index % 128]
              && RefLane(inst, pos, rand) == RefLane(inst, pos, rand')
              && RefColumn(inst, pos, rand) == RefColumn(inst, pos, rand')
    ensures inst.kind == ArgonD || (inst.kind == ArgonId && (pos.pass > 0 || pos.slice in {2, 3})) ==>
              && Off(inst, pos.lane, pos.PrevColumn(inst)) < |mem|
              && PseudoRand(permute, inst, pos, mem) == mem[Off(inst, pos.lane, pos.PrevColumn(inst))][0]
  {
    hide AddressBlock, IndexAlpha, InWindow;
    OffInRange(inst, pos.lane, pos.PrevColumn(inst));
  }

  /** The words of the block addresses are generated from: position, sizes, kind and counter, and nothing else. */
  lemma InputWords(inst: Instance, pos: Position, counter: nat)
    requires inst.Valid() && pos.Valid(inst) && counter < TWO_64
    ensures var block := InputBlock(inst, pos, counter);
            && block[..5] == [pos.pass, pos.lane, pos.slice, inst.memoryBlocks, inst.passes]
            && block[5] == (if inst.kind == ArgonD then 0 else if inst.kind == ArgonI then 1 else 2)
            && block[6] == counter && forall i | 7 <= i < QWORDS :: block[i] == 0
  {
  }

  /** The block made from `prev`, which opt.c carries along, and a reference block. */
  function BlockFrom(permute: Permutation, inst: Instance, pos: Position, prev: Block, mem: Memory): Block
    requires inst.Valid() && pos.Valid(inst) && |mem| == inst.memoryBlocks
  {
    var rand := PseudoRand(permute, inst, pos, mem);
    var lane, col := RefLane(inst, pos, rand), RefColumn(inst, pos, rand);
    OffInRange(inst, pos.lane, pos.Column(inst));
    OffInRange(inst, lane, col);
    Compress(permute, prev, mem[Off(inst, lane, col)], mem[Off(inst, pos.lane, pos.Column(inst))],
             inst.WithXor(pos.pass))
  }

  /** The block of a position: the previous block is the one before it in the lane. */
  function NewBlock(permute: Permutation, inst: Instance, pos: Position, mem: Memory): Block
    requires inst.Valid() && pos.Valid(inst) && |mem| == inst.memoryBlocks
  {
    OffInRange(inst, pos.lane, pos.PrevColumn(inst));
    BlockFrom(permute, inst, pos, mem[Off(inst, pos.lane, pos.PrevColumn(inst))], mem)
  }

  /** The engine that runs Argon2 blocks. */
  function Argon2(permute: Permutation, inst: Instance): Engine
    requires inst.Valid()
  {
    BlockEngine(inst, (pos: Position, mem: Memory) =>
      if pos.Valid(inst) && |mem| == inst.memoryBlocks then NewBlock(permute, inst, pos, mem) else ZERO_BLOCK)
  }

  // ----- the loops -----

  /** How many address blocks have been generated when index `i` is reached. */
  function Calls(i: nat): nat {
    (i + 127) / 128
  }

  /** `prev_offset` at the head of the loop body, before it is rotated. */
  function PrevAtHead(inst: Instance, lane: nat, col: nat): int {
    if col <= 1 then Off(inst, lane, col) + inst.laneLength - 1 else Off(inst, lane, col) - 1
  }

  method NextAddressesRef(permute: Permutation, inputBlock: array<Word>, zeroBlock: Block) returns (addressBlock: Block)
    requires inputBlock.Length == QWORDS && zeroBlock == ZERO_BLOCK
    modifies inputBlock
    ensures inputBlock[..] == old(inputBlock[..])[6 := Increment(old(inputBlock[6]))]
    ensures addressBlock == G(permute, ZERO_BLOCK, G(permute, ZERO_BLOCK, inputBlock[..]))
  {
    inputBlock[6] := Increment(inputBlock[6]);
    addressBlock := FillBlockRef(permute, zeroBlock, inputBlock[..], zeroBlock, false);
    addressBlock := FillBlockRef(permute, zeroBlock, addressBlock, addressBlock, false);
  }

  method NextAddressesOpt(permute: Permutation, inputBlock: array<Word>) returns (addressBlock: Block)
    requires inputBlock.Length == QWORDS
    modifies inputBlock
    ensures inputBlock[..] == old(inputBlock[..])[6 := Increment(old(inputBlock[6]))]
    ensures addressBlock == G(permute, ZERO_BLOCK, G(permute, ZERO_BLOCK, inputBlock[..]))
  {
    var zeroBlock := CopyOf(ZERO_BLOCK);
    var zero2Block := CopyOf(ZERO_BLOCK);
    inputBlock[6] := Increment(inputBlock[6]);
    addressBlock := FillBlockOpt(permute, zeroBlock, inputBlock[..], ZERO_BLOCK, false);
    addressBlock := FillBlockOpt(permute, zero2Block, addressBlock, addressBlock, false);
  }

  /** The offsets of the loop stay in memory and the remainder test recognises the columns. */
  lemma LoopOffsets(inst: Instance, pos: Position)
    requires inst.Valid() && pos.Valid(inst)
    ensures pos.Column(inst) < inst.laneLength
    ensures var curr := Off(inst, pos.lane, pos.Column(inst));
      && curr < inst.memoryBlocks
      && curr % inst.laneLength == pos.Column(inst)
      && PrevAtHead(inst, pos.lane, pos.Column(inst)) <= inst.memoryBlocks
      && (if curr % inst.laneLength == 1 then curr - 1 else PrevAtHead(inst, pos.lane, pos.Column(inst)))
         == Off(inst, pos.lane, pos.PrevColumn(inst)) < inst.memoryBlocks
  {
    OffInRange(inst, pos.lane, pos.Column(inst));
    OffInRange(inst, pos.lane, pos.PrevColumn(inst));
    OffDivides(inst, pos.lane, pos.Column(inst));
  }

  lemma OffsetIsProduct(inst: Instance, pos: Position)
    requires pos.slice < SYNC_POINTS
    ensures pos.lane * inst.laneLength + pos.slice * inst.segmentLength + pos.index
            == Off(inst, pos.lane, pos.Column(inst))
  {
    inst.LaneBaseIsProduct(pos.lane);
    inst.SliceStartIsProduct(pos.slice);
  }

  lemma InitialOffset(inst: Instance, pos: Position)
    requires inst.Valid() && pos.pass < inst.passes && pos.lane < inst.lanes && pos.slice < SYNC_POINTS
             && pos.index <= 2
    requires pos.slice == 0 || pos.index == 0
    ensures var curr := Off(inst, pos.lane, pos.Column(inst));
      && curr < inst.memoryBlocks
      && curr % inst.laneLength == pos.Column(inst)
      && curr + inst.laneLength - pos.Column(inst) <= inst.memoryBlocks
  {
    OffInRange(inst, pos.lane, pos.Column(inst));
    OffDivides(inst, pos.lane, pos.Column(inst));
  }

  lemma ReferenceIsInRange(inst: Instance, pos: Position, rand: Word)
    requires inst.Valid() && pos.Valid(inst)
    ensures Off(inst, RefLane(inst, pos, rand), RefColumn(inst, pos, rand)) < inst.memoryBlocks
  {
    hide IndexAlpha;
    OffInRange(inst, RefLane(inst, pos, rand), RefColumn(inst, pos, rand));
  }

  /** Steps 1.2.2 and 1.2.3: the offset of the reference block. */
  method SelectReference(inst: Instance, pos: Position, pseudoRand: Word) returns (offset: nat)
    requires inst.Valid() && pos.Valid(inst)
    ensures offset == Off(inst, RefLane(inst, pos, pseudoRand), RefColumn(inst, pos, pseudoRand)) < inst.memoryBlocks
  {
    hide IndexAlpha, InWindow;
    ReferenceIsInRange(inst, pos, pseudoRand);
    var refLane := (pseudoRand / 0x1_0000_0000) % inst.lanes;
    if pos.pass == 0 && pos.slice == 0 {
      refLane := pos.lane;
    }
    var refIndex := IndexAlpha(inst, pos, pseudoRand % 0x1_0000_0000, refLane == pos.lane);
    assert refLane == RefLane(inst, pos, pseudoRand) && refIndex == RefColumn(inst, pos, pseudoRand);
    inst.LaneBaseIsProduct(refLane);
    offset := inst.laneLength * refLane + refIndex;
  }

  lemma StepIs(permute: Permutation, inst: Instance, pos: Position, mem: Memory, block: Block)
    requires inst.Valid() && pos.Valid(inst) && |mem| == inst.memoryBlocks
    requires block == NewBlock(permute, inst, pos, mem)
    ensures Off(inst, pos.lane, pos.Column(inst)) < |mem|
    ensures Off(inst, pos.lane, pos.PrevColumn(inst)) < |mem|
    ensures Step(Argon2(permute, inst), pos, mem) == mem[Off(inst, pos.lane, pos.Column(inst)) := block]
  {
    OffInRange(inst, pos.lane, pos.PrevColumn(inst));
    OffInRange(inst, pos.lane, pos.Column(inst));
  }

  /** Step 2 of the loop in ref.c. */
  method BuildBlockRef(permute: Permutation, inst: Instance, pos: Position, pseudoRand: Word,
                       prevOffset: nat, currOffset: nat, memory: array<Block>)
    requires inst.Valid() && pos.Valid(inst) && memory.Length == inst.memoryBlocks
    requires prevOffset == Off(inst, pos.lane, pos.PrevColumn(inst))
             && currOffset == Off(inst, pos.lane, pos.Column(inst))
    requires pseudoRand == PseudoRand(permute, inst, pos, memory[..])
    modifies memory
    ensures memory[..] == Step(Argon2(permute, inst), pos, old(memory[..]))
  {
    var refOffset := SelectReference(inst, pos, pseudoRand);
    StepIs(permute, inst, pos, memory[..], NewBlock(permute, inst, pos, memory[..]));
    if inst.version == VERSION_10 {
      memory[currOffset] := FillBlockRef(permute, memory[prevOffset], memory[refOffset], memory[currOffset], false);
    } else if pos.pass == 0 {
      memory[currOffset] := FillBlockRef(permute, memory[prevOffset], memory[refOffset], memory[currOffset], false);
    } else {
      memory[currOffset] := FillBlockRef(permute, memory[prevOffset], memory[refOffset], memory[currOffset], true);
    }
  }

  /** The same in opt.c: the previous block is not read from memory but carried in `state`, which then carries
      the new one. */
  method BuildBlockOpt(permute: Permutation, inst: Instance, pos: Position, pseudoRand: Word,
                       state: array<Word>, currOffset: nat, memory: array<Block>)
    requires inst.Valid() && pos.Valid(inst) && memory.Length == inst.memoryBlocks && state.Length == QWORDS
    requires currOffset == Off(inst, pos.lane, pos.Column(inst)) < memory.Length
    requires pseudoRand == PseudoRand(permute, inst, pos, memory[..])
    modifies memory, state
    ensures state[..] == BlockFrom(permute, inst, pos, old(state[..]), old(memory[..]))
    ensures memory[..] == old(memory[..])[currOffset := state[..]]
  {
    var refOffset := SelectReference(inst, pos, pseudoRand);
    if inst.version == VERSION_10 {
      memory[currOffset] := FillBlockOpt(permute, state, memory[refOffset], memory[currOffset], false);
    } else if pos.pass == 0 {
      memory[currOffset] := FillBlockOpt(permute, state, memory[refOffset], memory[currOffset], false);
    } else {
      memory[currOffset] := FillBlockOpt(permute, state, memory[refOffset], memory[currOffset], true);
    }
  }

  /** The invariant of the optimised loop: `state` is the cyclic predecessor of the block being built. */
  ghost predicate StateIsPrev(inst: Instance, pos: Position, state: seq<Word>, mem: Memory)
    requires pos.slice < SYNC_POINTS
  {
    && 0 <= pos.PrevColumn(inst) && Off(inst, pos.lane, pos.PrevColumn(inst)) < |mem|
    && state == mem[Off(inst, pos.lane, pos.PrevColumn(inst))]
  }

  /** So the block made from `state` is the block of the position, and `state` then is the predecessor of the next. */
  lemma CarriedIsPrev(permute: Permutation, inst: Instance, pos: Position, state: Block, mem: Memory)
    requires inst.Valid() && pos.Valid(inst) && |mem| == inst.memoryBlocks && StateIsPrev(inst, pos, state, mem)
    ensures Off(inst, pos.lane, pos.Column(inst)) < |mem|
    ensures var block := BlockFrom(permute, inst, pos, state, mem);
            var mem' := mem[Off(inst, pos.lane, pos.Column(inst)) := block];
            && mem' == Step(Argon2(permute, inst), pos, mem)
            && StateIsPrev(inst, pos.(index := pos.index + 1), block, mem')
  {
    hide BlockFrom;
    StepIs(permute, inst, pos, mem, BlockFrom(permute, inst, pos, state, mem));
  }

  /** State of the address generator when index `i` is reached. */
  ghost predicate Stream(permute: Permutation, inst: Instance, pos: Position, input: seq<Word>, address: Block)
  {
    DataIndependent(inst, pos.pass, pos.slice) ==>
      && input == InputBlock(inst, pos, Calls(pos.index))
      && (1 <= pos.index ==>
            address == AddressBlock(permute, inst, pos, Calls(pos.index)))
  }

  /** `init_block_value` and the six assignments before the loop. */
  method InitInput(inst: Instance, pos: Position) returns (inputBlock: array<Word>)
    ensures fresh(inputBlock) && inputBlock[..] == InputBlock(inst, pos, 0)
  {
    inputBlock := CopyOf(ZERO_BLOCK);
    inputBlock[0], inputBlock[1], inputBlock[2] := Wrap64(pos.pass), Wrap64(pos.lane), Wrap64(pos.slice);
    inputBlock[3], inputBlock[4] := Wrap64(inst.memoryBlocks), Wrap64(inst.passes);
    match inst.kind
    case ArgonD => inputBlock[5] := 0;
    case ArgonI => inputBlock[5] := 1;
    case ArgonId => inputBlock[5] := 2;
    assert 0 == ZERO_BLOCK[6];
  }

  /** One more call of `next_addresses` moves on to the next block of the stream. */
  lemma NextInStream(inst: Instance, pos: Position, before: seq<Word>, n: nat)
    requires before == InputBlock(inst, pos, n)
    ensures before[6 := Increment(before[6])] == InputBlock(inst, pos, n + 1)
  {
    assert before[6] == Wrap64(n);
    assert Increment(Wrap64(n)) == Wrap64(n + 1);
    assert before[6 := Wrap64(n + 1)] == InputBlock(inst, pos, n + 1);
  }

  lemma CallsStep(i: nat)
    ensures Calls(i + 1) == i / 128 + 1 == if i % 128 == 0 then Calls(i) + 1 else Calls(i)
  {
  }

  /** Which of the two files the program is built with. */
  datatype Build = Reference | Optimised

  /** `next_addresses` of either file, seen as moving along the stream. */
  method Advance(build: Build, permute: Permutation, inst: Instance, ghost pos: Position, ghost n: nat,
                 inputBlock: array<Word>)
    returns (addressBlock: Block)
    requires inputBlock.Length == QWORDS
    requires inputBlock[..] == InputBlock(inst, pos, n)
    modifies inputBlock
    ensures inputBlock[..] == InputBlock(inst, pos, n + 1)
    ensures addressBlock == AddressBlock(permute, inst, pos, n + 1)
  {
    NextInStream(inst, pos, inputBlock[..], n);
    match build
    case Reference => addressBlock := NextAddressesRef(permute, inputBlock, ZERO_BLOCK);
    case Optimised => addressBlock := NextAddressesOpt(permute, inputBlock);
  }

  /** The data-independent half of step 1.2.1: the word used at index `i` is word `i % 128` of block `i / 128 + 1`. */
  method TakeAddress(build: Build, permute: Permutation, inst: Instance, pos: Position, inputBlock: array<Word>,
                     address: Block)
    returns (addressBlock: Block, pseudoRand: Word)
    requires inst.Valid() && pos.Valid(inst) && inputBlock.Length == QWORDS
    requires DataIndependent(inst, pos.pass, pos.slice) && Stream(permute, inst, pos, inputBlock[..], address)
    modifies inputBlock
    ensures pseudoRand == AddressBlock(permute, inst, pos, pos.index / 128 + 1)[pos.index % 128]
    ensures Stream(permute, inst, pos.(index := pos.index + 1), inputBlock[..], addressBlock)
  {
    hide AddressBlock, InputBlock;
    ghost var n := pos.index / 128 + 1;
    CallsStep(pos.index);
    addressBlock := address;
    if pos.index % 128 == 0 {
      addressBlock := Advance(build, permute, inst, pos, n - 1, inputBlock);
    }
    assert addressBlock == AddressBlock(permute, inst, pos, n);
    pseudoRand := addressBlock[pos.index % 128];
    SameStream(permute, inst, pos, pos.(index := pos.index + 1), n);
  }

  /** The stream does not depend on the index. */
  lemma SameStream(permute: Permutation, inst: Instance, pos: Position, pos': Position, n: nat)
    requires pos' == pos.(index := pos'.index)
    ensures InputBlock(inst, pos', n) == InputBlock(inst, pos, n)
    ensures AddressBlock(permute, inst, pos', n) == AddressBlock(permute, inst, pos, n)
  {
  }

  /** Step 1.2.1 of the loop, the same in both files. */
  method TakePseudoRand(build: Build, permute: Permutation, inst: Instance, pos: Position, inputBlock: array<Word>,
                        address: Block, prevOffset: nat, memory: array<Block>)
    returns (addressBlock: Block, pseudoRand: Word)
    requires inst.Valid() && pos.Valid(inst) && memory.Length == inst.memoryBlocks && inputBlock.Length == QWORDS
    requires prevOffset == Off(inst, pos.lane, pos.PrevColumn(inst))
    requires Stream(permute, inst, pos, inputBlock[..], address)
    modifies inputBlock
    ensures pseudoRand == PseudoRand(permute, inst, pos, memory[..])
    ensures Stream(permute, inst, pos.(index := pos.index + 1), inputBlock[..], addressBlock)
  {
    hide AddressBlock, InputBlock;
    addressBlock := address;
    if DataIndependent(inst, pos.pass, pos.slice) {
      addressBlock, pseudoRand := TakeAddress(build, permute, inst, pos, inputBlock, address);
    } else {
      OffInRange(inst, pos.lane, pos.PrevColumn(inst));
      pseudoRand := memory[prevOffset][0];
    }
  }

  /** What both files do before the loop: the index to start from, and the first addresses if it is not 0. */
  method Begin(build: Build, permute: Permutation, inst: Instance, position: Position)
    returns (pos: Position, inputBlock: array<Word>, addressBlock: Block)
    ensures pos == position.(index := StartIndex(position.pass, position.slice))
    ensures fresh(inputBlock) && inputBlock.Length == QWORDS
    ensures Stream(permute, inst, pos, inputBlock[..], addressBlock)
  {
    hide AddressBlock;
    addressBlock := ZERO_BLOCK;
    inputBlock := InitInput(inst, position);
    var startingIndex := 0;
    if position.pass == 0 && position.slice == 0 {
      startingIndex := 2;
      if DataIndependent(inst, position.pass, position.slice) {
        addressBlock := Advance(build, permute, inst, position, 0, inputBlock);
      }
    }
    pos := position.(index := startingIndex);
    SameStream(permute, inst, position, pos, Calls(startingIndex));
  }

  /** `fill_segment` of ref.c. Offsets are `uint32_t`; `position.index` on entry is not used. */
  method FillSegmentRef(permute: Permutation, inst: Instance, position: Position, memory: array<Block>)
    requires inst.Valid() && memory.Length == inst.memoryBlocks
    requires position.pass < inst.passes && position.lane < inst.lanes && position.slice < SYNC_POINTS
    modifies memory
    ensures memory[..] == Segment(Argon2(permute, inst), position, old(memory[..]))
  {
    hide Stream, PseudoRand, AtHead;
    var pos, inputBlock, addressBlock := Begin(Reference, permute, inst, position);
    var currOffset, prevOffset := InitialOffsets(inst, pos);
    while pos.index < inst.segmentLength
      invariant pos.(index := 0) == position.(index := 0) && Running(inst, pos)
      invariant AtHead(inst, pos, currOffset, prevOffset)
      invariant Stream(permute, inst, pos, inputBlock[..], addressBlock)
      invariant memory[..] == FillTo(Argon2(permute, inst), pos, old(memory[..]))
      decreases inst.segmentLength - pos.index
    {
      prevOffset := RotatePrev(inst, pos, currOffset, prevOffset);
      var pseudoRand: Word;
      addressBlock, pseudoRand :=
        TakePseudoRand(Reference, permute, inst, pos, inputBlock, addressBlock, prevOffset, memory);
      BuildBlockRef(permute, inst, pos, pseudoRand, prevOffset, currOffset, memory);
      FillToNext(Argon2(permute, inst), pos, old(memory[..]));
      currOffset, prevOffset := NextOffsets(inst, pos, currOffset, prevOffset);
      pos := pos.(index := pos.index + 1);
    }
    assert pos == position.(index := inst.segmentLength);
  }

  /** `fill_segment` of opt.c leaves the same memory. */
  method FillSegmentOpt(permute: Permutation, inst: Instance, position: Position, memory: array<Block>)
    requires inst.Valid() && memory.Length == inst.memoryBlocks
    requires position.pass < inst.passes && position.lane < inst.lanes && position.slice < SYNC_POINTS
    modifies memory
    ensures memory[..] == Segment(Argon2(permute, inst), position, old(memory[..]))
  {
    hide Stream, PseudoRand, AtHead, BlockFrom, NewBlock, StateIsPrev;
    var pos, inputBlock, addressBlock := Begin(Optimised, permute, inst, position);
    var currOffset, prevOffset := InitialOffsets(inst, pos);
    InitialPrev(inst, pos, currOffset, prevOffset, memory[..]);
    var state := CopyOf(memory[prevOffset]);
    while pos.index < inst.segmentLength
      invariant pos.(index := 0) == position.(index := 0) && Running(inst, pos)
      invariant AtHead(inst, pos, currOffset, prevOffset)
      invariant Stream(permute, inst, pos, inputBlock[..], addressBlock)
      invariant StateIsPrev(inst, pos, state[..], memory[..])
      invariant memory[..] == FillTo(Argon2(permute, inst), pos, old(memory[..]))
      decreases inst.segmentLength - pos.index
    {
      prevOffset := RotatePrev(inst, pos, currOffset, prevOffset);
      var pseudoRand: Word;
      addressBlock, pseudoRand :=
        TakePseudoRand(Optimised, permute, inst, pos, inputBlock, addressBlock, prevOffset, memory);
      CarriedIsPrev(permute, inst, pos, state[..], memory[..]);
      BuildBlockOpt(permute, inst, pos, pseudoRand, state, currOffset, memory);
      FillToNext(Argon2(permute, inst), pos, old(memory[..]));
      currOffset, prevOffset := NextOffsets(inst, pos, currOffset, prevOffset);
      pos := pos.(index := pos.index + 1);
    }
    assert pos == position.(index := inst.segmentLength);
  }

  /** `state` is copied from the cyclic predecessor of the first block. */
  lemma InitialPrev(inst: Instance, pos: Position, currOffset: nat, prevOffset: nat, mem: Memory)
    requires inst.Valid() && pos.pass < inst.passes && pos.lane < inst.lanes && pos.slice < SYNC_POINTS
    requires pos.index == StartIndex(pos.pass, pos.slice) && AtHead(inst, pos, currOffset, prevOffset)
    requires |mem| == inst.memoryBlocks
    ensures prevOffset < |mem| && StateIsPrev(inst, pos, mem[prevOffset], mem)
  {
    OffInRange(inst, pos.lane, pos.PrevColumn(inst));
  }

  predicate AtHead(inst: Instance, pos: Position, currOffset: nat, prevOffset: nat)
    requires pos.slice < SYNC_POINTS
  {
    && currOffset == Off(inst, pos.lane, pos.Column(inst))
    && prevOffset == PrevAtHead(inst, pos.lane, pos.Column(inst))
  }

  lemma InitialPrevOffset(inst: Instance, pos: Position, curr: nat)
    requires inst.Valid() && pos.slice < SYNC_POINTS && pos.pass < inst.passes && pos.lane < inst.lanes
    requires pos.index == StartIndex(pos.pass, pos.slice)
    requires curr == Off(inst, pos.lane, pos.Column(inst)) && curr % inst.laneLength == pos.Column(inst)
    requires curr + inst.laneLength - pos.Column(inst) <= inst.memoryBlocks
    ensures (if curr % inst.laneLength == 0 then Wrap32(curr + inst.laneLength - 1) else Wrap32(curr - 1))
            == PrevAtHead(inst, pos.lane, pos.Column(inst))
  {
    var col := pos.Column(inst);
    assert curr == inst.LaneBase(pos.lane) + col;
    assert inst.memoryBlocks < TWO_32;
    if col == 0 {
      assert 0 <= curr + inst.laneLength - 1 < TWO_32;
    } else {
      assert 0 <= curr - 1 < TWO_32;
    }
  }

  method PrevOffset(inst: Instance, ghost pos: Position, currOffset: nat) returns (prevOffset: nat)
    requires inst.Valid() && pos.pass < inst.passes && pos.lane < inst.lanes && pos.slice < SYNC_POINTS
    requires pos.index == StartIndex(pos.pass, pos.slice) && currOffset == Off(inst, pos.lane, pos.Column(inst))
    ensures AtHead(inst, pos, currOffset, prevOffset)
  {
    hide Off;
    InitialOffset(inst, pos);
    InitialPrevOffset(inst, pos, currOffset);
    if currOffset % inst.laneLength == 0 {
      prevOffset := Wrap32(currOffset + inst.laneLength - 1);
    } else {
      prevOffset := Wrap32(currOffset - 1);
    }
  }

  /** The offsets before the loop, in `uint32_t` arithmetic. */
  method InitialOffsets(inst: Instance, pos: Position) returns (currOffset: nat, prevOffset: nat)
    requires inst.Valid() && pos.pass < inst.passes && pos.lane < inst.lanes && pos.slice < SYNC_POINTS
    requires pos.index == StartIndex(pos.pass, pos.slice)
    ensures AtHead(inst, pos, currOffset, prevOffset)
  {
    hide Off;
    OffsetIsProduct(inst, pos);
    OffInRange(inst, pos.lane, pos.Column(inst));
    currOffset := Wrap32(pos.lane * inst.laneLength + pos.slice * inst.segmentLength + pos.index);
    prevOffset := PrevOffset(inst, pos, currOffset);
  }

  /** Step 1.1: after it, `prev_offset` is the cyclic predecessor in the lane. */
  method RotatePrev(inst: Instance, ghost pos: Position, currOffset: nat, prev: nat) returns (prevOffset: nat)
    requires inst.Valid() && pos.Valid(inst) && AtHead(inst, pos, currOffset, prev)
    ensures prevOffset == Off(inst, pos.lane, pos.PrevColumn(inst))
    ensures currOffset == Off(inst, pos.lane, pos.Column(inst)) < inst.memoryBlocks
  {
    LoopOffsets(inst, pos);
    prevOffset := prev;
    if currOffset % inst.laneLength == 1 {
      prevOffset := Wrap32(currOffset - 1);
    }
  }

  /** `++curr_offset, ++prev_offset`. */
  method NextOffsets(inst: Instance, ghost pos: Position, curr: nat, prev: nat)
    returns (currOffset: nat, prevOffset: nat)
    requires inst.Valid() && pos.Valid(inst)
    requires curr == Off(inst, pos.lane, pos.Column(inst)) && prev == Off(inst, pos.lane, pos.PrevColumn(inst))
    ensures AtHead(inst, pos.(index := pos.index + 1), currOffset, prevOffset)
  {
    OffInRange(inst, pos.lane, pos.Column(inst));
    OffInRange(inst, pos.lane, pos.PrevColumn(inst));
    currOffset, prevOffset := Wrap32(curr + 1), Wrap32(prev + 1);
  }
}
