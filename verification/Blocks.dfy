/** Disk blocks, single-block writes, and the on-disk log header. */
module Blocks {

  const BLOCK_WORDS := 256   // BSIZE / sizeof(int)
  const LOGSIZE := 30
  const MAXOPBLOCKS := 10
  const NBUF := 30

  /** A disk block, seen as the 32-bit words that the log header code reads and writes. */
  datatype Block = Block(words: seq<int>)

  /** One atomic single-block write, as issued by `bwrite`. */
  datatype Write = Write(at: nat, data: Block)

  function Put(d: seq<Block>, w: Write): (r: seq<Block>)
    ensures |r| == |d|
  {
    if w.at < |d| then d[w.at := w.data] else d
  }

  /** The disk after the first k writes of `ws` reached it in order. */
  function After(d: seq<Block>, ws: seq<Write>, k: nat): (r: seq<Block>)
    requires k <= |ws|
    ensures |r| == |d|
  {
    if k == 0 then d else Put(After(d, ws, k - 1), ws[k - 1])
  }

  // ---- the log header block: word 0 is n, words 1..n are home block numbers ----

  /** The block is a readable header. */
  predicate HeaderOk(h: Block) {
    && |h.words| == BLOCK_WORDS && 0 <= h.words[0] <= LOGSIZE
    && forall i :: 1 <= i <= h.words[0] ==> h.words[i] >= 0
  }

  /** The block is a header that lists exactly `bs`. */
  predicate HeaderIs(h: Block, bs: seq<nat>) {
    && |h.words| == BLOCK_WORDS && |bs| <= LOGSIZE
    && h.words[0] == |bs| && forall i {:trigger h.words[i]} :: 1 <= i <= |bs| ==> h.words[i] == bs[i - 1]
  }

  /** What `whead` leaves in the header buffer: words past the n-th entry keep their old value. */
  function PutHeader(h: Block, bs: seq<nat>): (r: Block)
    requires |bs| <= LOGSIZE
    ensures HeaderIs(r, bs)
  {
    Block(seq(BLOCK_WORDS, i requires 0 <= i < BLOCK_WORDS =>
      if i == 0 then |bs| else if i <= |bs| then bs[i - 1] else if i < |h.words| then h.words[i] else 0))
  }
}
