/** Blocks, inodes and bits as the kernel and the image builder share them. */
module FsFormat {

  const BSIZE := 1024
  const BPB := 8192
  const NDIRECT := 12
  const NSLOTS := 13              // the length of addrs: NDIRECT and the indirect one
  const NINDIRECT := 256
  const MAXFILE := 268
  const W32 := 0x1_0000_0000

  type Block = seq<bv8>

  /** addrs: twelve direct blocks and the indirect one; 0 stands for no block. */
  datatype Inode = Inode(addrs: seq<nat>, size: nat)

  function Mask(k: nat): bv8
    requires k < 8
  {
    if k == 0 then 1 else if k == 1 then 2 else if k == 2 then 4 else if k == 3 then 8
    else if k == 4 then 16 else if k == 5 then 32 else if k == 6 then 64 else 128
  }

  /** Bit k of a byte of the bitmap is the one of weight 2^k. */
  lemma MaskIsBit(k: nat)
    requires k < 8
    ensures Mask(k) == (1 as bv8) << k
  {}

  predicate IsSet(x: bv8, k: nat)
    requires k < 8
  {
    x & Mask(k) != 0
  }

  function SetBit(x: bv8, k: nat): bv8
    requires k < 8
  {
    x | Mask(k)
  }

  function ClearBit(x: bv8, k: nat): bv8
    requires k < 8
  {
    x & !Mask(k)
  }

  lemma ClearBitClears(x: bv8, k: nat, j: nat)
    requires k < 8 && j < 8
    ensures IsSet(ClearBit(x, k), j) <==> j != k && IsSet(x, j)
  {}

  lemma SetBitSets(x: bv8, k: nat, j: nat)
    requires k < 8 && j < 8
    ensures IsSet(SetBit(x, k), j) <==> j == k || IsSet(x, j)
  {}

  function ZeroBlock(): (z: Block)
    ensures |z| == BSIZE
  {
    seq(BSIZE, i => 0)
  }

  function Patch(x: Block, off: nat, bytes: seq<bv8>): (y: Block)
    requires off + |bytes| <= |x|
    ensures |y| == |x|
    ensures forall k {:trigger y[k]} :: 0 <= k < |y| ==>
            y[k] == if off <= k < off + |bytes| then bytes[k - off] else x[k]
  {
    x[..off] + bytes + x[off + |bytes|..]
  }

  lemma SamePlace(at: nat, k: nat, n: nat)
    requires at / BSIZE == k / BSIZE && at % BSIZE + n <= BSIZE
    ensures at <= k < at + n <==> at % BSIZE <= k % BSIZE < at % BSIZE + n
    ensures k - at == k % BSIZE - at % BSIZE
  {}

  lemma OtherPlace(at: nat, k: nat, n: nat)
    requires at / BSIZE != k / BSIZE && at % BSIZE + n <= BSIZE
    ensures !(at <= k < at + n)
  {}

  lemma SameBlock(at: nat, k: nat, m: nat)
    requires at % BSIZE + m <= BSIZE && at <= k < at + m
    ensures k / BSIZE == at / BSIZE
  {}

  /** How bmap answers, by the number of the block alone: it takes the pointer at that number when the number is below
      NINDIRECT, whether or not there is such a pointer, and gives up on the others. */
  datatype Lookup = Slot(bn: nat) | PastArray | ThroughIndirect | OutOfRange

  function LookupOf(bn: nat): Lookup {
    if bn < NINDIRECT then (if bn < NSLOTS then Slot(bn) else PastArray)
    else if bn - NDIRECT < NDIRECT then ThroughIndirect
    else OutOfRange
  }

  /** The branch for indirect blocks is never taken; there is an answer exactly for the thirteen pointers. */
  lemma LookupExactly(bn: nat)
    ensures LookupOf(bn) == Slot(bn) <==> bn < NSLOTS
    ensures LookupOf(bn) == PastArray <==> NSLOTS <= bn < NINDIRECT
    ensures LookupOf(bn) == OutOfRange <==> bn >= NINDIRECT
  {}

  lemma ZeroBit(k: nat)
    requires k < 8
    ensures !IsSet(0, k)
  {}
}
