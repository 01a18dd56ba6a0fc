// Memory blocks and the compression function, in the reference order (ref.c) and in the optimised order (opt.c).
module Blocks {
  import opened Bits
  import opened Common

  const QWORDS := 128

  /** An `uint64_t`. */
  type Word = x: int | 0 <= x < 0x1_0000_0000_0000_0000

  type Block = b: seq<Word> | |b| == QWORDS witness seq(QWORDS, _ => 0)

  /** The Blake2 round permutation on a whole block: columns, then rows. Both builds apply the same one. */
  type Permutation = Block -> Block

  function XorWord(a: Word, b: Word): Word {
    Pow2Of64();
    XorNatBound(a, b, 64);
    XorNat(a, b)
  }

  function Xor(a: Block, b: Block): Block {
    seq(QWORDS, i requires 0 <= i < QWORDS => XorWord(a[i], b[i]))
  }

  /** Every word set to the same value, as `init_block_value` does. */
  function Filled(w: Word): Block {
    seq(QWORDS, i requires 0 <= i < QWORDS => w)
  }

  /** `++` on an `uint64_t`. */
  function Increment(w: Word): Word {
    if w == 0xFFFF_FFFF_FFFF_FFFF then 0 else w + 1
  }

  const ZERO_BLOCK: Block := Filled(0)

  /** The compression function G of section 3.5 of RFC 9106, with the whole-block permutation as a parameter. */
  function G(permute: Permutation, x: Block, y: Block): Block {
    Xor(Xor(x, y), permute(Xor(x, y)))
  }

  /** What a fill step stores: G over the previous and the reference block, over or into the old content. */
  function Compress(permute: Permutation, prev: Block, reference: Block, next: Block, withXor: bool): Block {
    if withXor then Xor(next, G(permute, prev, reference)) else G(permute, prev, reference)
  }

  lemma XorCommutes(a: Block, b: Block)
    ensures Xor(a, b) == Xor(b, a)
  {
    forall i | 0 <= i < QWORDS ensures Xor(a, b)[i] == Xor(b, a)[i] {
      XorNatCommutes(a[i], b[i]);
    }
  }

  lemma XorRotates(a: Block, b: Block, c: Block)
    ensures Xor(Xor(a, c), b) == Xor(c, Xor(a, b))
  {
    forall i | 0 <= i < QWORDS ensures Xor(Xor(a, c), b)[i] == Xor(c, Xor(a, b))[i] {
      XorNatRotates(a[i], b[i], c[i]);
    }
  }

  /** `xor_block`: in place, word by word. */
  method XorInto(dst: array<Word>, src: Block)
    requires dst.Length == QWORDS
    modifies dst
    ensures dst[..] == Xor(old(dst[..]), src)
  {
    for i := 0 to QWORDS
      invariant forall j :: 0 <= j < i ==> dst[j] == XorWord(old(dst[j]), src[j])
      invariant forall j :: i <= j < QWORDS ==> dst[j] == old(dst[j])
    {
      dst[i] := XorWord(dst[i], src[i]);
    }
  }

  method CopyOf(src: Block) returns (dst: array<Word>)
    ensures fresh(dst) && dst[..] == src
  {
    dst := new Word[QWORDS](i requires 0 <= i < QWORDS => src[i]);
  }

  /** `fill_block` of ref.c: two scratch blocks, and the old content is XORed in before the permutation. */
  method FillBlockRef(permute: Permutation, prev: Block, reference: Block, next: Block, withXor: bool)
    returns (result: Block)
    ensures result == Compress(permute, prev, reference, next, withXor)
  {
    var blockR := CopyOf(reference);
    XorInto(blockR, prev);
    var blockTmp := CopyOf(blockR[..]);
    if withXor {
      XorInto(blockTmp, next);
    }
    ghost var mixed := blockR[..];
    var permuted := permute(blockR[..]);
    XorInto(blockTmp, permuted);
    result := blockTmp[..];
    XorCommutes(reference, prev);
    if withXor { XorRotates(mixed, permuted, next); }
  }

  /** `fill_block` of opt.c: `state` comes in as the previous block and leaves as the block just built. */
  method FillBlockOpt(permute: Permutation, state: array<Word>, reference: Block, next: Block, withXor: bool)
    returns (result: Block)
    requires state.Length == QWORDS
    modifies state
    ensures result == Compress(permute, old(state[..]), reference, next, withXor)
    ensures state[..] == result
  {
    ghost var prev: Block := state[..];
    XorInto(state, reference);
    ghost var mixed: Block := state[..];
    var blockXY := CopyOf(state[..]);
    if withXor {
      XorInto(blockXY, next);
    }
    ghost var xy: Block := blockXY[..];
    var permuted := permute(state[..]);
    for i := 0 to QWORDS
      invariant forall j :: 0 <= j < i ==> state[j] == permuted[j]
      invariant blockXY[..] == xy
    {
      state[i] := permuted[i];
    }
    assert state[..] == permuted;
    XorInto(state, blockXY[..]);
    result := state[..];
    XorCommutes(permuted, xy);
    if withXor { XorRotates(mixed, permuted, next); }
  }
}
