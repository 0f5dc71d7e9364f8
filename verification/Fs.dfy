/** Block allocation and file contents, on top of a cache that behaves as a plain block map. */
module Fs {

  import opened FsFormat

  /** The layout fields of the superblock, with the number of the first data block. */
  datatype Layout = Layout(size: nat, bmapstart: nat, data: nat)

  datatype Spot = Spot(i: nat, bn: nat)

  /** own: which block of which file each data block in use is. */
  datatype F = F(sb: Layout, blocks: seq<Block>, inodes: seq<Inode>, own: map<nat, Spot>)

  // ---- the bitmap ----

  predicate Shaped(f: F) {
    && |f.blocks| == f.sb.size
    && f.sb.data == f.sb.bmapstart + f.sb.size / BPB + 1 && f.sb.data <= f.sb.size && f.sb.bmapstart > 0
    && forall b {:trigger f.blocks[b]} :: 0 <= b < |f.blocks| ==> |f.blocks[b]| == BSIZE
  }

  /** Where the bit of block b is: the block, the byte and the bit. */
  function MapBlock(sb: Layout, b: nat): nat { sb.bmapstart + b / BPB }
  function MapByte(b: nat): nat { b % BPB / 8 }
  function MapBit(b: nat): nat { b % BPB % 8 }

  /** The bit of block b is set. */
  predicate Used(f: F, b: nat)
    requires Shaped(f) && b < f.sb.size
  {
    MapPlace(f.sb, b);
    IsSet(f.blocks[MapBlock(f.sb, b)][MapByte(b)], MapBit(b))
  }

  lemma MapPlace(sb: Layout, b: nat)
    requires b < sb.size
    ensures sb.bmapstart <= MapBlock(sb, b) < sb.bmapstart + sb.size / BPB + 1 && MapByte(b) < BSIZE && MapBit(b) < 8
  {}

  /** Two blocks with the same bit are the same block. */
  lemma MapInjective(sb: Layout, b: nat, c: nat)
    requires MapBlock(sb, b) == MapBlock(sb, c) && MapByte(b) == MapByte(c) && MapBit(b) == MapBit(c)
    ensures b == c
  {
    assert b == b / BPB * BPB + MapByte(b) * 8 + MapBit(b) && c == c / BPB * BPB + MapByte(c) * 8 + MapBit(c);
  }

  /** Blocks below the data are never free; a data block of a file is marked, and is that file's alone. */
  predicate MetaOk(f: F, b: nat)
    requires Shaped(f)
  {
    b < f.sb.data ==> Used(f, b)
  }

  predicate OwnOk(f: F, a: nat)
    requires Shaped(f)
  {
    a in f.own ==>
      && f.sb.data <= a < f.sb.size && Used(f, a)
      && var s := f.own[a];
         s.i < |f.inodes| && s.bn < NSLOTS && s.bn < |f.inodes[s.i].addrs| && f.inodes[s.i].addrs[s.bn] == a
  }

  predicate AddrOk(f: F, i: nat, bn: nat) {
    i < |f.inodes| && bn < NSLOTS && bn < |f.inodes[i].addrs| && f.inodes[i].addrs[bn] != 0 ==>
      f.inodes[i].addrs[bn] in f.own && f.own[f.inodes[i].addrs[bn]] == Spot(i, bn)
  }

  /** A file has all its blocks, and only direct ones. */
  predicate InodeOk(f: F, i: nat) {
    i < |f.inodes| ==>
      && |f.inodes[i].addrs| == NSLOTS && f.inodes[i].size <= NSLOTS * BSIZE
      && forall bn {:trigger f.inodes[i].addrs[bn]} :: 0 <= bn < NSLOTS && bn * BSIZE < f.inodes[i].size ==>
         f.inodes[i].addrs[bn] != 0
  }

  ghost predicate Ok(f: F) {
    && Shaped(f)
    && (forall b {:trigger MetaOk(f, b)} :: MetaOk(f, b))
    && (forall a {:trigger OwnOk(f, a)} :: OwnOk(f, a))
    && (forall i, bn {:trigger AddrOk(f, i, bn)} :: AddrOk(f, i, bn))
    && (forall i {:trigger InodeOk(f, i)} :: InodeOk(f, i))
  }

  // ---- balloc ----

  function Marked(f: F, b: nat): F
    requires Shaped(f) && b < f.sb.size
  {
    MapPlace(f.sb, b);
    var m := MapBlock(f.sb, b);
    f.(blocks := f.blocks[m := f.blocks[m][MapByte(b) := SetBit(f.blocks[m][MapByte(b)], MapBit(b))]])
  }

  /** Marking sets the one bit. */
  lemma MarkedUsed(f: F, b: nat, c: nat)
    requires Shaped(f) && b < f.sb.size && c < f.sb.size
    ensures Shaped(Marked(f, b)) && (Used(Marked(f, b), c) <==> c == b || Used(f, c))
  {
    hide MapByte, MapBit, MapBlock, IsSet, SetBit;
    MapPlace(f.sb, b);
    MapPlace(f.sb, c);
    if MapBlock(f.sb, b) == MapBlock(f.sb, c) && MapByte(b) == MapByte(c) {
      SetBitSets(f.blocks[MapBlock(f.sb, b)][MapByte(b)], MapBit(b), MapBit(c));
      if MapBit(b) == MapBit(c) { MapInjective(f.sb, b, c); }
    }
  }

  /** balloc's change: block b is marked and zeroed. */
  function Allocated(f: F, b: nat): F
    requires Shaped(f) && b < f.sb.size
  {
    var g := Marked(f, b);
    g.(blocks := g.blocks[b := ZeroBlock()])
  }

  lemma AllocatedUsed(f: F, b: nat, c: nat)
    requires Shaped(f) && f.sb.data <= b < f.sb.size && c < f.sb.size
    ensures Shaped(Allocated(f, b)) && (Used(Allocated(f, b), c) <==> c == b || Used(f, c))
  {
    hide MapByte, MapBit, MapBlock, IsSet, SetBit;
    MapPlace(f.sb, b);
    MapPlace(f.sb, c);
    MarkedUsed(f, b, c);
  }

  /** What balloc leaves alone: every block but the new one and the bitmap. */
  lemma AllocatedOthers(f: F, b: nat, c: nat)
    requires Shaped(f) && f.sb.data <= b < f.sb.size && f.sb.data <= c < f.sb.size && c != b
    ensures Allocated(f, b).blocks[c] == f.blocks[c]
  {
    MapPlace(f.sb, b);
  }

  lemma AllocatedOk(f: F, b: nat)
    requires Ok(f) && b < f.sb.size && !Used(f, b)
    ensures f.sb.data <= b && Ok(Allocated(f, b)) && b !in f.own
  {
    hide MapByte, MapBit, MapBlock, IsSet, SetBit, Used, Allocated;
    assert MetaOk(f, b) && OwnOk(f, b);
    AllocatedUsed(f, b, b);
    var g := Allocated(f, b);
    AllocatedFields(f, b);
    forall c: nat ensures MetaOk(g, c) {
      assert MetaOk(f, c);
      if c < f.sb.data { AllocatedUsed(f, b, c); }
    }
    forall a: nat ensures OwnOk(g, a) {
      assert OwnOk(f, a);
      if a in f.own { AllocatedUsed(f, b, a); }
    }
    forall i: nat, bn: nat ensures AddrOk(g, i, bn) { assert AddrOk(f, i, bn); }
    forall i: nat ensures InodeOk(g, i) { assert InodeOk(f, i); }
  }

  lemma AllocatedFields(f: F, b: nat)
    requires Shaped(f) && b < f.sb.size
    ensures var g := Allocated(f, b); g.sb == f.sb && g.inodes == f.inodes && g.own == f.own
  {}

  lemma UsedSame(f: F, g: F, c: nat)
    requires Shaped(f) && g.sb == f.sb && g.blocks == f.blocks && c < f.sb.size
    ensures Shaped(g) && Used(g, c) == Used(f, c)
  {}

  // ---- bmap ----

  /** The new block b becomes block bn of file i. */
  function Linked(f: F, i: nat, bn: nat, b: nat): F
    requires i < |f.inodes| && bn < |f.inodes[i].addrs|
  {
    f.(inodes := f.inodes[i := f.inodes[i].(addrs := f.inodes[i].addrs[bn := b])], own := f.own[b := Spot(i, bn)])
  }

  lemma LinkedOk(f: F, i: nat, bn: nat, b: nat)
    requires Ok(f) && i < |f.inodes| && bn < NSLOTS && bn < |f.inodes[i].addrs| && f.inodes[i].addrs[bn] == 0
    requires f.sb.data <= b < f.sb.size && Used(f, b) && b !in f.own
    ensures Ok(Linked(f, i, bn, b))
  {
    hide Used;
    var g := Linked(f, i, bn, b);
    forall c: nat | c < f.sb.size ensures Used(g, c) == Used(f, c) { UsedSame(f, g, c); }
    assert InodeOk(f, i);
    forall c: nat ensures MetaOk(g, c) { assert MetaOk(f, c); }
    forall a: nat ensures OwnOk(g, a) { assert OwnOk(f, a); }
    forall j: nat, m: nat ensures AddrOk(g, j, m) { assert AddrOk(f, j, m); }
    forall j: nat ensures InodeOk(g, j) { assert InodeOk(f, j); }
  }

  /** Byte k of file i has a block. */
  predicate Has(f: F, i: nat, k: nat) {
    i < |f.inodes| && k / BSIZE < NSLOTS && k / BSIZE < |f.inodes[i].addrs| && f.inodes[i].addrs[k / BSIZE] != 0
  }

  function ByteAt(f: F, i: nat, k: nat): bv8
    requires Shaped(f) && Has(f, i, k)
  {
    var a := f.inodes[i].addrs[k / BSIZE];
    if a < f.sb.size then f.blocks[a][k % BSIZE] else 0
  }

  lemma SizeHas(f: F, i: nat, k: nat)
    requires Ok(f) && i < |f.inodes| && k < f.inodes[i].size
    ensures Has(f, i, k)
  {
    assert InodeOk(f, i);
    assert k / BSIZE * BSIZE <= k;
    assert f.inodes[i].addrs[k / BSIZE] != 0;
  }

  /** Allocating a block for a file changes no byte of any file. */
  lemma GrownBytes(f: F, i: nat, bn: nat, b: nat, j: nat, k: nat)
    requires Ok(f) && i < |f.inodes| && bn < NSLOTS && bn < |f.inodes[i].addrs| && f.inodes[i].addrs[bn] == 0
    requires f.sb.data <= b < f.sb.size && !Used(f, b) && b !in f.own && Has(f, j, k)
    ensures Shaped(Allocated(f, b)) && Has(Linked(Allocated(f, b), i, bn, b), j, k)
    ensures ByteAt(Linked(Allocated(f, b), i, bn, b), j, k) == ByteAt(f, j, k)
  {
    hide MapByte, MapBit, MapBlock, IsSet, SetBit, Used, Allocated;
    AllocatedUsed(f, b, b);
    AllocatedFields(f, b);
    var a := f.inodes[j].addrs[k / BSIZE];
    assert AddrOk(f, j, k / BSIZE) && OwnOk(f, a);
    AllocatedOthers(f, b, a);
  }

  // ---- writing into a block ----

  function Patched(f: F, a: nat, off: nat, bytes: seq<bv8>): F
    requires Shaped(f) && a < f.sb.size && off + |bytes| <= BSIZE
  {
    f.(blocks := f.blocks[a := Patch(f.blocks[a], off, bytes)])
  }

  lemma PatchedOk(f: F, a: nat, off: nat, bytes: seq<bv8>)
    requires Ok(f) && f.sb.data <= a < f.sb.size && off + |bytes| <= BSIZE
    ensures Ok(Patched(f, a, off, bytes))
  {
    hide MapByte, MapBit, MapBlock, IsSet, Patch;
    var g := Patched(f, a, off, bytes);
    forall c: nat | c < f.sb.size ensures Used(g, c) == Used(f, c) { MapPlace(f.sb, c); }
    forall c: nat ensures MetaOk(g, c) { assert MetaOk(f, c); }
    forall c: nat ensures OwnOk(g, c) { assert OwnOk(f, c); }
    forall j: nat, m: nat ensures AddrOk(g, j, m) { assert AddrOk(f, j, m); }
    forall j: nat ensures InodeOk(g, j) { assert InodeOk(f, j); }
  }

  /** Only the bytes at the patched place of the one file change. */
  lemma PatchedBytes(f: F, i: nat, at: nat, bytes: seq<bv8>, j: nat, k: nat)
    requires Ok(f) && Has(f, i, at) && at % BSIZE + |bytes| <= BSIZE && Has(f, j, k)
    ensures var a := f.inodes[i].addrs[at / BSIZE]; f.sb.data <= a < f.sb.size
    ensures var g := Patched(f, f.inodes[i].addrs[at / BSIZE], at % BSIZE, bytes);
            Has(g, j, k) && ByteAt(g, j, k) == if j == i &&
                at <= k < at + |bytes| then bytes[k - at] else ByteAt(f, j, k)
  {
    hide MapByte, MapBit, MapBlock, IsSet, Used, Patch;
    var a, c := f.inodes[i].addrs[at / BSIZE], f.inodes[j].addrs[k / BSIZE];
    assert AddrOk(f, i, at / BSIZE) && OwnOk(f, a) && AddrOk(f, j, k / BSIZE) && OwnOk(f, c);
    if a == c { SamePlace(at, k, |bytes|); } else if j == i { OtherPlace(at, k, |bytes|); }
  }

  function Resized(f: F, i: nat, size: nat): F
    requires i < |f.inodes|
  {
    f.(inodes := f.inodes[i := f.inodes[i].(size := size)])
  }

  lemma ResizedOk(f: F, i: nat, size: nat)
    requires Ok(f) && i < |f.inodes| && size <= NSLOTS * BSIZE
    requires forall k: nat {:trigger Has(f, i, k)} :: k < size ==> Has(f, i, k)
    ensures Ok(Resized(f, i, size))
  {
    hide Used;
    var g := Resized(f, i, size);
    forall c: nat | c < f.sb.size ensures Used(g, c) == Used(f, c) { UsedSame(f, g, c); }
    forall c: nat ensures MetaOk(g, c) { assert MetaOk(f, c); }
    forall c: nat ensures OwnOk(g, c) { assert OwnOk(f, c); }
    forall j: nat, m: nat ensures AddrOk(g, j, m) { assert AddrOk(f, j, m); }
    assert InodeOk(f, i);
    forall j: nat ensures InodeOk(g, j) {
      assert InodeOk(f, j);
      forall bn | 0 <= bn < NSLOTS && bn * BSIZE < size ensures f.inodes[i].addrs[bn] != 0 {
        assert Has(f, i, bn * BSIZE);
      }
    }
  }

  // ---- writei ----

  /** After tot bytes of src have been written at off: those bytes are there, every other byte of every file is as it
      was, and no size has changed. */
  ghost predicate Spliced(f: F, g: F, i: nat, off: nat, src: seq<bv8>, tot: nat)
    requires tot <= |src|
  {
    && Shaped(f) && Shaped(g) && g.sb == f.sb && |g.inodes| == |f.inodes|
    && (forall j {:trigger g.inodes[j]} :: 0 <= j < |f.inodes| ==> g.inodes[j].size == f.inodes[j].size)
    && (forall j: nat, k: nat {:trigger Has(g, j, k)} :: Has(f, j, k) ==> Has(g, j, k))
    && (forall k: nat {:trigger Has(g, i, k)} :: off <= k < off + tot ==> Has(g, i, k))
    && (forall k: nat {:trigger ByteAt(g, i, k)} :: off <= k < off + tot && Has(g, i, k) ==>
       ByteAt(g, i, k) == src[k - off])
    && (forall j: nat, k: nat {:trigger ByteAt(g, j, k)} ::
          Has(f, j, k) && Has(g, j, k) && !(j == i && off <= k < off + tot) ==> ByteAt(g, j, k) == ByteAt(f, j, k))
  }

  lemma SplicedNone(f: F, i: nat, off: nat, src: seq<bv8>)
    requires Shaped(f)
    ensures Spliced(f, f, i, off, src, 0)
  {}

  /** bmap, allocating or not, leaves the bytes alone. */
  lemma SplicedGrown(f: F, g: F, i: nat, off: nat, src: seq<bv8>, tot: nat, bn: nat, b: nat)
    requires tot <= |src| && Spliced(f, g, i, off, src, tot) && Ok(g)
    requires i < |g.inodes| && bn < NSLOTS && bn < |g.inodes[i].addrs| && g.inodes[i].addrs[bn] == 0
    requires g.sb.data <= b < g.sb.size && !Used(g, b) && b !in g.own
    ensures Shaped(Allocated(g, b)) && Spliced(f, Linked(Allocated(g, b), i, bn, b), i, off, src, tot)
  {
    hide MapByte, MapBit, MapBlock, IsSet, SetBit, Used, Allocated, ByteAt, Has;
    AllocatedUsed(g, b, b);
    AllocatedFields(g, b);
    var h := Linked(Allocated(g, b), i, bn, b);
    forall j: nat, k: nat | Has(g, j, k) ensures Has(h, j, k) && ByteAt(h, j, k) == ByteAt(g, j, k) {
      GrownBytes(g, i, bn, b, j, k);
    }
  }

  /** memmove into the block at byte off + tot. */
  lemma SplicedMore(f: F, g: F, i: nat, off: nat, src: seq<bv8>, tot: nat, m: nat)
    requires tot + m <= |src| && Spliced(f, g, i, off, src, tot) && Ok(g) && Has(g, i, off + tot)
    requires (off + tot) % BSIZE + m <= BSIZE
    ensures var a := g.inodes[i].addrs[(off + tot) / BSIZE];
            && g.sb.data <= a < g.sb.size
            && var h := Patched(g, a, (off + tot) % BSIZE, src[tot..tot + m]);
               Ok(h) && Spliced(f, h, i, off, src, tot + m)
  {
    hide MapByte, MapBit, MapBlock, IsSet, Used, Patch, ByteAt, Ok;
    var at, bytes := off + tot, src[tot..tot + m];
    PatchedBytes(g, i, at, bytes, i, at);
    var a := g.inodes[i].addrs[at / BSIZE];
    PatchedOk(g, a, at % BSIZE, bytes);
    var h := Patched(g, a, at % BSIZE, bytes);
    forall k: nat | at <= k < at + m ensures Has(h, i, k) && Has(g, i, k) { SameBlock(at, k, m); }
    forall j: nat, k: nat | Has(g, j, k)
      ensures Has(h, j, k) && ByteAt(h, j, k) == if j == i && at <= k < at + m then bytes[k - at] else ByteAt(g, j, k) {
      PatchedBytes(g, i, at, bytes, j, k);
    }
    forall j: nat, k: nat ensures Has(h, j, k) == Has(g, j, k) {}
  }

  // ---- files as byte sequences ----

  function ByteOr(f: F, i: nat, k: nat): bv8 { if Shaped(f) && Has(f, i, k) then ByteAt(f, i, k) else 0 }

  /** What is in file i. */
  function Content(f: F, i: nat): (c: seq<bv8>)
    requires i < |f.inodes|
    ensures |c| == f.inodes[i].size && forall k {:trigger c[k]} :: 0 <= k < |c| ==> c[k] == ByteOr(f, i, k)
  {
    seq(f.inodes[i].size, k requires 0 <= k => ByteOr(f, i, k))
  }

  /** c with its part from off on replaced by bytes, and longer if need be. */
  function Splice(c: seq<bv8>, off: nat, bytes: seq<bv8>): (s: seq<bv8>)
    requires off <= |c|
    ensures |s| == if off + |bytes| <= |c| then |c| else off + |bytes|
    ensures forall k {:trigger s[k]} :: 0 <= k < |s| ==>
            s[k] == if off <= k < off + |bytes| then bytes[k - off] else c[k]
  {
    c[..off] + bytes + (if off + |bytes| <= |c| then c[off + |bytes|..] else [])
  }

  function NewSize(f: F, i: nat, end: nat): nat
    requires i < |f.inodes|
  {
    if end > f.inodes[i].size then end else f.inodes[i].size
  }

  /** writei's end: the file has the new bytes and, if it has grown, its new size; no other file has changed. */
  lemma SplicedContent(f: F, g: F, i: nat, off: nat, src: seq<bv8>, tot: nat)
    requires Ok(f) && Ok(g) && i < |f.inodes| && tot <= |src| && Spliced(f, g, i, off, src, tot)
    requires off <= f.inodes[i].size && off + tot <= NSLOTS * BSIZE
    ensures var h := Resized(g, i, NewSize(f, i, off + tot));
            && Ok(h) && |h.inodes| == |f.inodes| && Content(h, i) == Splice(Content(f, i), off, src[..tot])
            && forall j {:trigger Content(h, j)} :: 0 <= j < |f.inodes| && j != i ==> Content(h, j) == Content(f, j)
  {
    hide Used, ByteAt, Has;
    var n := NewSize(f, i, off + tot);
    var h := Resized(g, i, n);
    assert InodeOk(f, i);
    forall k: nat | k < n ensures Has(g, i, k) { if k < f.inodes[i].size { SizeHas(f, i, k); } }
    ResizedOk(g, i, n);
    forall j: nat, k: nat ensures ByteOr(h, j, k) == ByteOr(g, j, k) { ResizedByte(g, i, n, j, k); }
    var c, s := Content(h, i), Splice(Content(f, i), off, src[..tot]);
    forall k | 0 <= k < n ensures c[k] == s[k] {
      assert Has(g, i, k);
      if k < f.inodes[i].size { SizeHas(f, i, k); }
    }
    assert c == s;
    forall j | 0 <= j < |f.inodes| && j != i ensures Content(h, j) == Content(f, j) {
      assert g.inodes[j].size == f.inodes[j].size;
      forall k | 0 <= k < f.inodes[j].size ensures Content(h, j)[k] == Content(f, j)[k] { SizeHas(f, j, k); }
    }
  }

  lemma ResizedByte(g: F, i: nat, n: nat, j: nat, k: nat)
    requires Shaped(g) && i < |g.inodes|
    ensures ByteOr(Resized(g, i, n), j, k) == ByteOr(g, j, k)
  {}

  /** -1, or the number of bytes written, or a block number for which the source reads past the pointers or panics. */
  datatype WriteResult = Refused | Wrote(tot: nat) | Strays

  ghost predicate AllUsed(f: F) {
    Shaped(f) && forall c: nat {:trigger Used(f, c)} :: c < f.sb.size ==> Used(f, c)
  }

  lemma SizeBound(f: F, i: nat)
    requires Ok(f) && i < |f.inodes|
    ensures f.inodes[i].size <= NSLOTS * BSIZE
  {
    assert InodeOk(f, i);
  }

  class Files {
    const sb: Layout
    var blocks: seq<Block>
    var inodes: seq<Inode>
    ghost var own: map<nat, Spot>

    ghost function S(): F
      reads this
    {
      F(sb, blocks, inodes, own)
    }

    /** A newly made file system. */
    constructor (layout: Layout, ninodes: nat)
      requires LayoutOk(layout)
      ensures S() == Formatted(layout, ninodes) && Ok(S())
    {
      FormattedOk(layout, ninodes);
      var f := Formatted(layout, ninodes);
      sb, blocks, inodes, own := f.sb, f.blocks, f.inodes, f.own;
    }

    /** Marks and zeroes the least free block; 0 exactly when there is none. */
    method Balloc() returns (b: nat)
      requires Ok(S())
      modifies this`blocks
      ensures Ok(S()) && (b == 0 ==> S() == old(S())) && b < sb.size
      ensures b != 0 ==> !Used(old(S()), b) && S() == Allocated(old(S()), b) && sb.data <= b && b !in own
      ensures forall c: nat {:trigger Used(old(S()), c)} :: c < (if b == 0 then sb.size else b) ==> Used(old(S()), c)
    {
      hide IsSet, SetBit, MapBlock, MapByte, MapBit, OwnOk, AddrOk, InodeOk;
      assert MetaOk(S(), 0);
      var base := 0;
      while base < sb.size
        invariant base % BPB == 0 && blocks == old(blocks)
        invariant forall c: nat {:trigger Used(S(), c)} :: c < base && c < sb.size ==> Used(S(), c)
        decreases sb.size - base
      {
        var m := sb.bmapstart + base / BPB;
        var bi := 0;
        while bi < BPB && base + bi < sb.size
          invariant 0 <= bi <= BPB && base + bi <= sb.size && blocks == old(blocks)
          invariant forall c: nat {:trigger Used(S(), c)} :: c < base + bi ==> Used(S(), c)
        {
          InBlock(sb, base, bi);
          if !IsSet(blocks[m][bi / 8], bi % 8) {
            b := base + bi;
            AllocatedOk(S(), b);
            blocks := blocks[m := blocks[m][bi / 8 := SetBit(blocks[m][bi / 8], bi % 8)]];
            blocks := blocks[b := ZeroBlock()];
            return;
          }
          bi := bi + 1;
        }
        base := base + BPB;
      }
      return 0;
    }

    /** The block of a file, allocated if there is none yet; 0 when the disk is full. For numbers without a pointer the
        source reads past the array or panics, and `found` says so. */
    method Bmap(i: nat, bn: nat) returns (found: Lookup, addr: nat)
      requires Ok(S()) && i < |inodes|
      modifies this
      ensures Ok(S()) && found == LookupOf(bn) && (found.Slot? <==> bn < NSLOTS)
      ensures bn >= NSLOTS ==> S() == old(S()) && addr == 0
      ensures bn < NSLOTS ==>
        && old(bn < |inodes[i].addrs|)
        && (old(inodes[i].addrs[bn]) != 0 ==> S() == old(S()) && addr == old(inodes[i].addrs[bn]))
        && (old(inodes[i].addrs[bn]) == 0 && addr == 0 ==> S() == old(S()) && AllUsed(S()))
        && (old(inodes[i].addrs[bn]) == 0 && addr != 0 ==>
              && sb.data <= addr < sb.size && !Used(old(S()), addr) && addr !in old(own)
              && S() == Linked(Allocated(old(S()), addr), i, bn, addr))
    {
      hide Used, Allocated;
      assert InodeOk(S(), i);
      addr := 0;
      LookupExactly(bn);
      if bn < NINDIRECT {
        if bn >= NSLOTS { return PastArray, 0; }
        found, addr := Slot(bn), inodes[i].addrs[bn];
        if addr == 0 {
          addr := Balloc();
          if addr == 0 { return; }
          AllocatedUsed(old(S()), addr, addr);
          AllocatedFields(old(S()), addr);
          LinkedOk(S(), i, bn, addr);
          inodes := inodes[i := inodes[i].(addrs := inodes[i].addrs[bn := addr])];
          own := own[addr := Spot(i, bn)];
        }
        return;
      }
      return OutOfRange, 0;
    }

    /** Frees a block: the panic, `ok` being false, comes exactly when the bit of another block, Tested(b), is clear.
        Otherwise exactly the bit of b is cleared, which is harmless exactly if b is a data block in no file. */
    method Bfree(b: nat) returns (ok: bool)
      requires Ok(S()) && b < sb.size
      modifies this`blocks
      ensures Tested(b) / BPB <= sb.size / BPB && (ok <==> BitSet(old(S()), Tested(b)))
      ensures Tested(b) < sb.size ==> (ok <==> Used(old(S()), Tested(b)))
      ensures !ok ==> S() == old(S())
      ensures ok ==>
        && S() == Cleared(old(S()), b) && (Ok(S()) <==> sb.data <= b && b !in own)
        && (forall c: nat {:trigger Used(old(S()), c)} :: c < sb.size ==>
              (Used(S(), c) <==> c != b && Used(old(S()), c)))
    {
      hide IsSet, ClearBit, MapBlock, MapByte, MapBit, OwnOk, AddrOk, InodeOk, MetaOk;
      var m, bi := sb.bmapstart + b / BPB, b % BPB;
      BfreePlace(sb, b);
      TestedPlace(b);
      if !IsSet(blocks[m][bi % 8], bi % 8) { return false; }
      ClearedOk(S(), b);
      forall c: nat | c < sb.size ensures Used(Cleared(S(), b), c) <==> c != b && Used(S(), c) {
        ClearedUsed(S(), b, c);
      }
      blocks := blocks[m := blocks[m][bi / 8 := ClearBit(blocks[m][bi / 8], bi % 8)]];
      ok := true;
    }

    /** Returns the bytes of the file from offset on: n of them, or as many as there are. */
    method Readi(i: nat, offset: nat, n: nat) returns (out: seq<bv8>)
      requires Ok(S()) && i < |inodes| && offset < W32 && n < W32
      modifies this
      ensures S() == old(S())
      ensures offset > inodes[i].size || offset + n >= W32 ==> out == []
      ensures offset <= inodes[i].size && offset + n < W32 ==>
        out == Content(S(), i)[offset..if offset + n > inodes[i].size then inodes[i].size else offset + n]
    {
      hide Ok, Content, Has, ByteAt, Used, Allocated, Linked;
      if offset > inodes[i].size || (offset + n) % W32 < offset { return []; }
      var len := n;
      if offset + n > inodes[i].size { len := inodes[i].size - offset; }
      out := [];
      var off, tot := offset, 0;
      while tot < len
        invariant 0 <= tot <= len && off == offset + tot && S() == old(S())
        invariant out == Content(S(), i)[offset..offset + tot]
        decreases len - tot
      {
        SizeHas(S(), i, off);
        HasBlock(S(), i, off);
        var found, addr := Bmap(i, off / BSIZE);
        if addr == 0 { break; }
        var m := if len - tot < BSIZE - off % BSIZE then len - tot else BSIZE - off % BSIZE;
        var bytes := blocks[addr][off % BSIZE..off % BSIZE + m];
        BlockBytes(S(), i, off, m);
        SliceMore(Content(S(), i), offset, off, off + m);
        out := out + bytes;
        tot, off := tot + m, off + m;
      }
    }

    /** Writes src into the file at offset: exactly the first tot bytes, all of them unless the disk is full. It is
        refused exactly when the file is too short or the write too long; a write that is admitted but needs a block
        without a pointer strays. */
    method Writei(i: nat, offset: nat, src: seq<bv8>) returns (res: WriteResult)
      requires Ok(S()) && i < |inodes| && offset < W32 && |src| < W32
      modifies this
      ensures Ok(S()) && |inodes| == |old(inodes)|
      ensures res == Refused <==> offset > old(inodes)[i].size || offset + |src| > MAXFILE * BSIZE
      ensures res == Refused ==> S() == old(S())
      ensures res == Strays ==> offset <= old(inodes)[i].size && NSLOTS * BSIZE < offset + |src| <= MAXFILE * BSIZE
      ensures res.Wrote? ==>
        && res.tot <= |src| && offset <= |Content(old(S()), i)|
        && Content(S(), i) == Splice(Content(old(S()), i), offset, src[..res.tot])
        && (forall j {:trigger Content(S(), j)} :: 0 <= j < |inodes| && j != i ==>
              Content(S(), j) == Content(old(S()), j))
        && (res.tot < |src| ==> AllUsed(S()))
        && (NSLOTS * BSIZE < offset + |src| ==> res.tot < |src|)
    {
      hide Ok, Content, Splice, Spliced, Has, ByteAt, AllUsed, Allocated, Linked, Patched, Patch;
      if offset > inodes[i].size || (offset + |src|) % W32 < offset { return Refused; }
      if (offset + |src|) % W32 > MAXFILE * BSIZE { return Refused; }
      ghost var f := S();
      ghost var full := false;
      ShapedOf(f);
      SizeBound(f, i);
      SplicedNone(f, i, offset, src);
      var tot, off := 0, offset;
      while tot < |src|
        invariant 0 <= tot <= |src| && off == offset + tot && Ok(S()) && Spliced(f, S(), i, offset, src, tot)
        invariant |inodes| == |f.inodes| && !full && off <= NSLOTS * BSIZE
        decreases |src| - tot
      {
        if LookupOf(off / BSIZE) != Slot(off / BSIZE) {
          LookupExactly(off / BSIZE);
          return Strays;
        }
        LookupExactly(off / BSIZE);
        var addr := WriteBlock(f, i, offset, src, tot, off);
        if addr == 0 {
          full := true;
          break;
        }
        var m := if |src| - tot < BSIZE - off % BSIZE then |src| - tot else BSIZE - off % BSIZE;
        SplicedMore(f, S(), i, offset, src, tot, m);
        ShapedOf(S());
        PatchedIs(S(), addr, off % BSIZE, src[tot..tot + m]);
        blocks := blocks[addr := Patch(blocks[addr], off % BSIZE, src[tot..tot + m])];
        tot, off := tot + m, off + m;
      }
      SplicedSize(f, S(), i, offset, src, tot);
      SplicedContent(f, S(), i, offset, src, tot);
      ShapedOf(S());
      FullStays(S(), Resized(S(), i, NewSize(f, i, off)), full);
      ResizedSame(S(), i);
      if off > inodes[i].size { inodes := inodes[i := inodes[i].(size := off)]; }
      res := Wrote(tot);
    }

    /** The block for the next bytes of a write, allocated if need be; 0 when the disk is full. */
    method WriteBlock(ghost f: F, i: nat, offset: nat, src: seq<bv8>, tot: nat, off: nat) returns (addr: nat)
      requires Ok(S()) && i < |inodes| && tot < |src| && off == offset + tot && off < NSLOTS * BSIZE &&
               Spliced(f, S(), i, offset, src, tot)
      modifies this
      ensures Ok(S()) && Spliced(f, S(), i, offset, src, tot) && |inodes| == |f.inodes|
      ensures addr != 0 ==> Has(S(), i, off) && addr == inodes[i].addrs[off / BSIZE] && addr < |blocks|
      ensures addr == 0 ==> AllUsed(S())
    {
      hide ByteAt, Used, Allocated;
      ghost var g := S();
      assert InodeOk(g, i);
      var found;
      found, addr := Bmap(i, off / BSIZE);
      if g.inodes[i].addrs[off / BSIZE] == 0 && addr != 0 {
        SplicedGrown(f, g, i, offset, src, tot, off / BSIZE, addr);
        AllocatedFields(g, addr);
      }
      if addr != 0 { assert AddrOk(S(), i, off / BSIZE) && OwnOk(S(), addr); }
    }
  }

  lemma BfreePlace(sb: Layout, b: nat)
    requires b < sb.size
    ensures MapBlock(sb, b) == sb.bmapstart + b / BPB && MapByte(b) == b % BPB / 8 && MapBit(b) == b % BPB % 8
    ensures b % BPB / 8 < BSIZE && b / BPB <= sb.size / BPB
    ensures MapBlock(sb, Tested(b)) == sb.bmapstart + b / BPB
  {
    TestedPlace(b);
  }

  lemma InBlock(sb: Layout, base: nat, bi: nat)
    requires base % BPB == 0 && bi < BPB && base + bi < sb.size
    ensures MapBlock(sb, base + bi) == sb.bmapstart + base / BPB && MapByte(base + bi) == bi / 8 &&
            MapBit(base + bi) == bi % 8
    ensures bi / 8 < BSIZE && sb.bmapstart + base / BPB < sb.bmapstart + sb.size / BPB + 1
  {}

  lemma SliceMore(c: seq<bv8>, x: nat, y: nat, z: nat)
    requires x <= y <= z <= |c|
    ensures c[x..z] == c[x..y] + c[y..z]
  {}

  lemma ShapedOf(f: F)
    requires Ok(f)
    ensures Shaped(f)
  {}

  lemma HasBlock(f: F, i: nat, k: nat)
    requires Ok(f) && Has(f, i, k)
    ensures Shaped(f) && k / BSIZE < NSLOTS && k / BSIZE < |f.inodes[i].addrs| && f.inodes[i].addrs[k / BSIZE] != 0
    ensures f.inodes[i].addrs[k / BSIZE] < |f.blocks| && |f.blocks[f.inodes[i].addrs[k / BSIZE]]| == BSIZE
  {
    assert AddrOk(f, i, k / BSIZE) && OwnOk(f, f.inodes[i].addrs[k / BSIZE]);
  }

  /** The bytes of a file that are in one block. */
  lemma BlockBytes(f: F, i: nat, off: nat, m: nat)
    requires Ok(f) && i < |f.inodes| && off + m <= f.inodes[i].size && off % BSIZE + m <= BSIZE && m > 0
    ensures off / BSIZE < |f.inodes[i].addrs| && f.inodes[i].addrs[off / BSIZE] < |f.blocks|
    ensures off % BSIZE + m <= |f.blocks[f.inodes[i].addrs[off / BSIZE]]|
    ensures Content(f, i)[off..off + m] == f.blocks[f.inodes[i].addrs[off / BSIZE]][off % BSIZE..off % BSIZE + m]
  {
    hide Used;
    SizeHas(f, i, off);
    HasBlock(f, i, off);
    var a := f.inodes[i].addrs[off / BSIZE];
    var x, y := Content(f, i)[off..off + m], f.blocks[a][off % BSIZE..off % BSIZE + m];
    forall k | 0 <= k < m ensures x[k] == y[k] {
      SameBlock(off, off + k, m);
      SamePlace(off, off + k, m);
    }
  }

  lemma ResizedSame(g: F, i: nat)
    requires i < |g.inodes|
    ensures Resized(g, i, g.inodes[i].size) == g
  {
    assert g.inodes[i := g.inodes[i].(size := g.inodes[i].size)] == g.inodes;
  }

  lemma PatchedIs(f: F, a: nat, off: nat, bytes: seq<bv8>)
    requires Shaped(f) && a < f.sb.size && off + |bytes| <= BSIZE
    ensures |f.blocks[a]| == BSIZE &&
            Patched(f, a, off, bytes) == f.(blocks := f.blocks[a := Patch(f.blocks[a], off, bytes)])
  {}

  lemma SplicedSize(f: F, g: F, i: nat, off: nat, src: seq<bv8>, tot: nat)
    requires tot <= |src| && i < |f.inodes| && Spliced(f, g, i, off, src, tot)
    ensures i < |g.inodes| && g.inodes[i].size == f.inodes[i].size
  {}

  lemma FullStays(g: F, h: F, full: bool)
    requires Shaped(g) && h.sb == g.sb && h.blocks == g.blocks
    requires full ==> AllUsed(g)
    ensures Shaped(h) && (full ==> AllUsed(h))
  {
    forall c: nat | c < g.sb.size ensures Used(h, c) == Used(g, c) { UsedSame(g, h, c); }
  }

  /** No two file blocks share a disk block, and no file block is a block of the bitmap or below. */
  lemma Unshared(f: F, i: nat, bn: nat, j: nat, bm: nat)
    requires Ok(f) && i < |f.inodes| && j < |f.inodes| && bn < NSLOTS && bm < NSLOTS
    ensures |f.inodes[i].addrs| == |f.inodes[j].addrs| == NSLOTS
    ensures f.inodes[i].addrs[bn] != 0 && f.inodes[i].addrs[bn] == f.inodes[j].addrs[bm] ==> i == j && bn == bm
    ensures f.inodes[i].addrs[bn] != 0 ==> f.sb.data <= f.inodes[i].addrs[bn] < f.sb.size
  {
    assert InodeOk(f, i) && InodeOk(f, j) && AddrOk(f, i, bn) && AddrOk(f, j, bm) && OwnOk(f, f.inodes[i].addrs[bn]);
  }

  // ---- bfree ----

  /** The bit at number c of the bitmap, which may be past the last block. */
  predicate BitSet(f: F, c: nat)
    requires Shaped(f) && c / BPB <= f.sb.size / BPB
  {
    IsSet(f.blocks[MapBlock(f.sb, c)][MapByte(c)], MapBit(c))
  }

  /** bfree looks at bit b % 8 of byte b % 8 of the bitmap block: the bit of this block. */
  function Tested(b: nat): nat { b / BPB * BPB + 9 * (b % BPB % 8) }

  lemma TestedPlace(b: nat)
    ensures Tested(b) / BPB == b / BPB && MapByte(Tested(b)) == b % BPB % 8 && MapBit(Tested(b)) == MapBit(b)
  {
    var k := b % BPB % 8;
    assert Tested(b) % BPB == 9 * k && 9 * k / 8 == k && 9 * k % 8 == k;
  }

  function Cleared(f: F, b: nat): F
    requires Shaped(f) && b < f.sb.size
  {
    MapPlace(f.sb, b);
    var m := MapBlock(f.sb, b);
    f.(blocks := f.blocks[m := f.blocks[m][MapByte(b) := ClearBit(f.blocks[m][MapByte(b)], MapBit(b))]])
  }

  lemma ClearedUsed(f: F, b: nat, c: nat)
    requires Shaped(f) && b < f.sb.size && c < f.sb.size
    ensures Shaped(Cleared(f, b)) && (Used(Cleared(f, b), c) <==> c != b && Used(f, c))
  {
    hide MapByte, MapBit, MapBlock, IsSet, ClearBit;
    MapPlace(f.sb, b);
    MapPlace(f.sb, c);
    if MapBlock(f.sb, b) == MapBlock(f.sb, c) && MapByte(b) == MapByte(c) {
      ClearBitClears(f.blocks[MapBlock(f.sb, b)][MapByte(b)], MapBit(b), MapBit(c));
      if MapBit(b) == MapBit(c) { MapInjective(f.sb, b, c); }
    }
  }

  lemma ClearedFields(f: F, b: nat)
    requires Shaped(f) && b < f.sb.size
    ensures var g := Cleared(f, b); g.sb == f.sb && g.inodes == f.inodes && g.own == f.own
  {}

  /** Clearing the bit of a block is harmless exactly if it is a data block in no file. */
  lemma ClearedOk(f: F, b: nat)
    requires Ok(f) && b < f.sb.size
    ensures Ok(Cleared(f, b)) <==> f.sb.data <= b && b !in f.own
  {
    hide MapByte, MapBit, MapBlock, IsSet, ClearBit, Used, Cleared;
    var g := Cleared(f, b);
    ClearedUsed(f, b, b);
    ClearedFields(f, b);
    if f.sb.data <= b && b !in f.own {
      forall c: nat ensures MetaOk(g, c) {
        assert MetaOk(f, c);
        if c < f.sb.data { ClearedUsed(f, b, c); }
      }
      forall a: nat ensures OwnOk(g, a) {
        assert OwnOk(f, a);
        if a in f.own { ClearedUsed(f, b, a); }
      }
      forall i: nat, bn: nat ensures AddrOk(g, i, bn) { assert AddrOk(f, i, bn); }
      forall i: nat ensures InodeOk(g, i) { assert InodeOk(f, i); }
    } else if b < f.sb.data {
      assert !MetaOk(g, b);
    } else {
      assert !OwnOk(g, b);
    }
  }

  // ---- a new file system, and what bfree does on it ----

  /** Everything below block n marked. */
  function MarkBelow(f: F, n: nat): (g: F)
    requires Shaped(f) && n <= f.sb.size
    ensures Shaped(g) && g.sb == f.sb && g.inodes == f.inodes && g.own == f.own
    decreases n
  {
    if n == 0 then f
    else
      var g := MarkBelow(f, n - 1);
      MarkedUsed(g, n - 1, n - 1);
      MarkedFields(g, n - 1);
      Marked(g, n - 1)
  }

  lemma MarkedFields(f: F, b: nat)
    requires Shaped(f) && b < f.sb.size
    ensures var g := Marked(f, b); g.sb == f.sb && g.inodes == f.inodes && g.own == f.own
  {}

  lemma {:induction false} MarkBelowUsed(f: F, n: nat, c: nat)
    requires Shaped(f) && n <= f.sb.size && c < f.sb.size
    ensures Used(MarkBelow(f, n), c) <==> c < n || Used(f, c)
    decreases n
  {
    hide Used, Marked;
    if n > 0 {
      MarkBelowUsed(f, n - 1, c);
      MarkedUsed(MarkBelow(f, n - 1), n - 1, c);
    }
  }

  predicate LayoutOk(sb: Layout) {
    sb.data == sb.bmapstart + sb.size / BPB + 1 && sb.data <= sb.size && sb.bmapstart > 0
  }

  function Blank(sb: Layout, ninodes: nat): (f: F)
    requires LayoutOk(sb)
    ensures Shaped(f) && f.sb == sb && f.own == map[]
  {
    F(sb, seq(sb.size, b => ZeroBlock()), seq(ninodes, i => Inode(seq(NSLOTS, k => 0), 0)), map[])
  }

  /** A file system of empty files in which only the blocks below the data are marked. */
  function Formatted(sb: Layout, ninodes: nat): (f: F)
    requires LayoutOk(sb)
    ensures Shaped(f) && f.sb == sb && f.own == map[]
  {
    MarkBelow(Blank(sb, ninodes), sb.data)
  }

  lemma BlankUnused(sb: Layout, ninodes: nat, c: nat)
    requires LayoutOk(sb) && c < sb.size
    ensures !Used(Blank(sb, ninodes), c)
  {
    MapPlace(sb, c);
    ZeroBit(MapBit(c));
  }

  lemma FormattedOk(sb: Layout, ninodes: nat)
    requires LayoutOk(sb)
    ensures Ok(Formatted(sb, ninodes)) && |Formatted(sb, ninodes).inodes| == ninodes
    ensures forall c: nat {:trigger Used(Formatted(sb, ninodes), c)} :: c < sb.size ==>
              (Used(Formatted(sb, ninodes), c) <==> c < sb.data)
    ensures forall i {:trigger Formatted(sb, ninodes).inodes[i]} :: 0 <= i < ninodes ==>
              Formatted(sb, ninodes).inodes[i] == Inode(seq(NSLOTS, k => 0), 0)
  {
    hide Used, MarkBelow;
    var f := Formatted(sb, ninodes);
    forall c: nat | c < sb.size ensures Used(f, c) <==> c < sb.data {
      MarkBelowUsed(Blank(sb, ninodes), sb.data, c);
      BlankUnused(sb, ninodes, c);
    }
    assert f.inodes == Blank(sb, ninodes).inodes;
    forall c: nat ensures MetaOk(f, c) {}
    forall i: nat ensures InodeOk(f, i) {}
    forall i: nat, bn: nat ensures AddrOk(f, i, bn) {}
  }

  /** The layout that mkfs gives the image. */
  const MKFS_LAYOUT := Layout(2000, 58, 59)

  /** A file system with one file that has the block b. */
  function OneBlock(b: nat): F
    requires MKFS_LAYOUT.data <= b < MKFS_LAYOUT.size
  {
    FormattedOk(MKFS_LAYOUT, 1);
    AllocatedFields(Formatted(MKFS_LAYOUT, 1), b);
    Linked(Allocated(Formatted(MKFS_LAYOUT, 1), b), 0, 0, b)
  }

  lemma OneBlockOk(b: nat)
    requires MKFS_LAYOUT.data <= b < MKFS_LAYOUT.size
    ensures Ok(OneBlock(b)) && OneBlock(b).sb == MKFS_LAYOUT && b in OneBlock(b).own
    ensures forall c: nat {:trigger Used(OneBlock(b), c)} :: c < MKFS_LAYOUT.size ==>
              (Used(OneBlock(b), c) <==> c < MKFS_LAYOUT.data || c == b)
  {
    hide Used, Formatted, Allocated;
    var f := Formatted(MKFS_LAYOUT, 1);
    FormattedOk(MKFS_LAYOUT, 1);
    AllocatedOk(f, b);
    AllocatedFields(f, b);
    AllocatedUsed(f, b, b);
    LinkedOk(Allocated(f, b), 0, 0, b);
    var g := OneBlock(b);
    forall c: nat | c < MKFS_LAYOUT.size ensures Used(g, c) <==> c < MKFS_LAYOUT.data || c == b {
      AllocatedUsed(f, b, c);
      UsedSame(Allocated(f, b), g, c);
    }
  }

  /** On the layout of mkfs: freeing block 71, which is in use, panics while block 63 is free; and freeing block 67
      a second time goes unnoticed. */
  lemma BfreeFails()
    ensures Ok(OneBlock(71)) && Used(OneBlock(71), 71) && Tested(71) == 63 && !Used(OneBlock(71), Tested(71))
    ensures !Used(OneBlock(71), 67) && Tested(67) == 27 && Used(OneBlock(71), Tested(67))
  {
    hide Used, OneBlock;
    OneBlockOk(71);
  }

  /** On every file system of that layout: a block whose number is not 7 modulo 8 is freed without a panic, used or not;
      one whose number is, exactly if block 63 is in use. */
  lemma BfreeOnImage(f: F, b: nat)
    requires Ok(f) && f.sb == MKFS_LAYOUT && b < f.sb.size
    ensures Tested(b) < f.sb.size && (Used(f, Tested(b)) <==> b % 8 != 7 || Used(f, 63))
  {
    hide Used;
    assert b % BPB == b && Tested(b) == 9 * (b % 8);
    assert MetaOk(f, Tested(b));
  }
}
