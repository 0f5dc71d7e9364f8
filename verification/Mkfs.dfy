/** The image builder: files appended through direct and indirect pointers, and the bitmap. */
module Mkfs {

  import opened FsFormat
  import Fs

  datatype Use = Data(i: nat, bn: nat) | Indirect(i: nat)

  /** bytes and words are the two ways to look at a block: file data, or the 256 numbers of an indirect block; fresh
      blocks are zero both ways. free is the next block to be used, and own the use of each one below it. */
  datatype M = M(size: nat, first: nat, bytes: seq<Block>, words: seq<seq<nat>>, inodes: seq<Inode>, free: nat,
                 own: map<nat, Use>)

  predicate Sized(m: M) {
    && |m.bytes| == |m.words| == m.size && 0 < m.first <= m.free <= m.size
    && (forall b {:trigger m.bytes[b]} :: 0 <= b < m.size ==> |m.bytes[b]| == BSIZE)
    && (forall b {:trigger m.words[b]} :: 0 <= b < m.size ==> |m.words[b]| == NINDIRECT)
    && (forall i {:trigger m.inodes[i]} :: 0 <= i < |m.inodes| ==> |m.inodes[i].addrs| == NSLOTS)
  }

  /** The block that holds block bn of file i, or 0: a direct pointer, or one in the indirect block. */
  function Blk(m: M, i: nat, bn: nat): nat
    requires Sized(m)
  {
    if i >= |m.inodes| || bn >= MAXFILE then 0
    else if bn < NDIRECT then m.inodes[i].addrs[bn]
    else
      var a := m.inodes[i].addrs[NDIRECT];
      if 0 < a < m.size then m.words[a][bn - NDIRECT] else 0
  }

  /** A pointer leads to a block that is in use for exactly that purpose. */
  predicate BlkOk(m: M, i: nat, bn: nat)
    requires Sized(m)
  {
    Blk(m, i, bn) != 0 ==> Blk(m, i, bn) in m.own && m.own[Blk(m, i, bn)] == Data(i, bn)
  }

  predicate IndOk(m: M, i: nat)
    requires Sized(m)
  {
    i < |m.inodes| && m.inodes[i].addrs[NDIRECT] != 0 ==>
      m.inodes[i].addrs[NDIRECT] in m.own && m.own[m.inodes[i].addrs[NDIRECT]] == Indirect(i)
  }

  /** The blocks in use are those from the first data block up to free, each for one purpose. */
  predicate OwnOk(m: M, a: nat)
    requires Sized(m)
  {
    && (a in m.own <==> m.first <= a < m.free)
    && (a in m.own ==>
          match m.own[a]
          case Data(i, bn) => i < |m.inodes| && bn < MAXFILE && Blk(m, i, bn) == a
          case Indirect(i) => i < |m.inodes| && m.inodes[i].addrs[NDIRECT] == a)
  }

  predicate FreshOk(m: M, a: nat)
    requires Sized(m)
  {
    m.free <= a < m.size ==> forall k {:trigger m.words[a][k]} :: 0 <= k < NINDIRECT ==> m.words[a][k] == 0
  }

  /** A file has the blocks its size calls for. */
  predicate SizeOk(m: M, i: nat, bn: nat)
    requires Sized(m)
  {
    i < |m.inodes| ==> m.inodes[i].size <= MAXFILE * BSIZE && (bn * BSIZE < m.inodes[i].size ==> Blk(m, i, bn) != 0)
  }

  ghost predicate Ok(m: M) {
    && Sized(m)
    && (forall i, bn {:trigger BlkOk(m, i, bn)} :: BlkOk(m, i, bn))
    && (forall i {:trigger IndOk(m, i)} :: IndOk(m, i))
    && (forall a {:trigger OwnOk(m, a)} :: OwnOk(m, a))
    && (forall a {:trigger FreshOk(m, a)} :: FreshOk(m, a))
    && (forall i, bn {:trigger SizeOk(m, i, bn)} :: SizeOk(m, i, bn))
  }

  // ---- new blocks ----

  function PointDirect(m: M, i: nat, bn: nat): M
    requires Sized(m) && i < |m.inodes| && bn < NDIRECT
  {
    m.(inodes := m.inodes[i := m.inodes[i].(addrs := m.inodes[i].addrs[bn := m.free])],
       own := m.own[m.free := Data(i, bn)], free := m.free + 1)
  }

  function PointIndirect(m: M, i: nat): M
    requires Sized(m) && i < |m.inodes|
  {
    m.(inodes := m.inodes[i := m.inodes[i].(addrs := m.inodes[i].addrs[NDIRECT := m.free])],
       own := m.own[m.free := Indirect(i)], free := m.free + 1)
  }

  function PutWord(w: seq<nat>, k: nat, x: nat): seq<nat>
    requires k < |w|
  {
    w[k := x]
  }

  function PointWord(m: M, i: nat, bn: nat): M
    requires Sized(m) && i < |m.inodes| && NDIRECT <= bn < MAXFILE && m.inodes[i].addrs[NDIRECT] < m.size
  {
    var a := m.inodes[i].addrs[NDIRECT];
    m.(words := m.words[a := PutWord(m.words[a], bn - NDIRECT, m.free)], own := m.own[m.free := Data(i, bn)],
        free := m.free + 1)
  }

  lemma PointDirectOk(m: M, i: nat, bn: nat)
    requires Ok(m) && i < |m.inodes| && bn < NDIRECT && m.inodes[i].addrs[bn] == 0 && m.free < m.size
    ensures var g := PointDirect(m, i, bn);
            Ok(g) && forall j: nat, c: nat {:trigger Blk(g, j, c)} :: Blk(g, j, c) == if j == i &&
                c == bn then m.free else Blk(m, j, c)
  {
    var g := PointDirect(m, i, bn);
    assert Sized(g) && Blk(m, i, bn) == 0;
    forall j: nat, c: nat ensures Blk(g, j, c) == if j == i && c == bn then m.free else Blk(m, j, c) {}
    forall j: nat, c: nat ensures BlkOk(g, j, c) { assert BlkOk(m, j, c) && OwnOk(m, m.free); }
    forall j: nat ensures IndOk(g, j) { assert IndOk(m, j) && OwnOk(m, m.free); }
    forall a: nat ensures OwnOk(g, a) { assert OwnOk(m, a); }
    forall a: nat ensures FreshOk(g, a) { assert FreshOk(m, a); }
    forall j: nat, c: nat ensures SizeOk(g, j, c) { assert SizeOk(m, j, c); }
  }

  lemma PointIndirectOk(m: M, i: nat)
    requires Ok(m) && i < |m.inodes| && m.inodes[i].addrs[NDIRECT] == 0 && m.free < m.size
    ensures var g := PointIndirect(m, i);
            Ok(g) && forall j: nat, c: nat {:trigger Blk(g, j, c)} :: Blk(g, j, c) == Blk(m, j, c)
  {
    var g := PointIndirect(m, i);
    assert Sized(g) && FreshOk(m, m.free);
    forall j: nat, c: nat ensures Blk(g, j, c) == Blk(m, j, c) {}
    forall j: nat, c: nat ensures BlkOk(g, j, c) { assert BlkOk(m, j, c) && OwnOk(m, m.free); }
    forall j: nat ensures IndOk(g, j) { assert IndOk(m, j) && OwnOk(m, m.free); }
    forall a: nat ensures OwnOk(g, a) { assert OwnOk(m, a); }
    forall a: nat ensures FreshOk(g, a) { assert FreshOk(m, a); }
    forall j: nat, c: nat ensures SizeOk(g, j, c) { assert SizeOk(m, j, c); }
  }

  lemma PointWordOk(m: M, i: nat, bn: nat)
    requires Ok(m) && i < |m.inodes| && NDIRECT <= bn < MAXFILE && m.inodes[i].addrs[NDIRECT] != 0 && m.free < m.size
    requires Blk(m, i, bn) == 0
    ensures m.inodes[i].addrs[NDIRECT] < m.size
    ensures var g := PointWord(m, i, bn);
            Ok(g) && forall j: nat, c: nat {:trigger Blk(g, j, c)} :: Blk(g, j, c) == if j == i &&
                c == bn then m.free else Blk(m, j, c)
  {
    var a := m.inodes[i].addrs[NDIRECT];
    assert IndOk(m, i) && OwnOk(m, a);
    var g := PointWord(m, i, bn);
    assert Sized(g);
    forall j: nat, c: nat ensures Blk(g, j, c) == if j == i &&
        c == bn then m.free else Blk(m, j, c) { assert IndOk(m, j); }
    forall j: nat, c: nat ensures BlkOk(g, j, c) { assert BlkOk(m, j, c) && OwnOk(m, m.free); }
    forall j: nat ensures IndOk(g, j) { assert IndOk(m, j) && OwnOk(m, m.free); }
    forall x: nat ensures OwnOk(g, x) { assert OwnOk(m, x); }
    forall x: nat ensures FreshOk(g, x) { assert FreshOk(m, x); }
    forall j: nat, c: nat ensures SizeOk(g, j, c) { assert SizeOk(m, j, c); }
  }

  // ---- bytes ----

  function ByteAt(m: M, i: nat, k: nat): bv8
    requires Sized(m)
  {
    var a := Blk(m, i, k / BSIZE);
    if 0 < a < m.size then m.bytes[a][k % BSIZE] else 0
  }

  function Content(m: M, i: nat): (c: seq<bv8>)
    requires Sized(m) && i < |m.inodes|
    ensures |c| == m.inodes[i].size && forall k {:trigger c[k]} :: 0 <= k < |c| ==> c[k] == ByteAt(m, i, k)
  {
    seq(m.inodes[i].size, k requires 0 <= k => ByteAt(m, i, k))
  }

  /** tot bytes of src have been put behind the end of file i; pointers and bytes that were there are still there. */
  ghost predicate Appended(s: M, g: M, i: nat, src: seq<bv8>, tot: nat)
    requires tot <= |src|
  {
    && Sized(s) && Sized(g) && g.size == s.size && g.first == s.first && i < |s.inodes| == |g.inodes|
    && (forall j {:trigger g.inodes[j]} :: 0 <= j < |s.inodes| ==>
       g.inodes[j].size == s.inodes[j].size && (j != i ==> g.inodes[j] == s.inodes[j]))
    && (forall j: nat, c: nat {:trigger Blk(g, j, c)} :: Blk(s, j, c) != 0 ==> Blk(g, j, c) == Blk(s, j, c))
    && (forall k: nat {:trigger ByteAt(g, i, k)} :: s.inodes[i].size <= k < s.inodes[i].size + tot ==>
          Blk(g, i, k / BSIZE) != 0 && ByteAt(g, i, k) == src[k - s.inodes[i].size])
    && (forall j: nat, k: nat {:trigger ByteAt(g, j, k)} ::
          Blk(s, j, k / BSIZE) != 0 && !(j == i && s.inodes[i].size <= k < s.inodes[i].size + tot) ==>
              ByteAt(g, j, k) == ByteAt(s, j, k))
  }

  lemma AppendedNone(s: M, i: nat, src: seq<bv8>)
    requires Sized(s) && i < |s.inodes|
    ensures Appended(s, s, i, src, 0)
  {}

  /** A new block for file i, where there was none, moves no byte. */
  lemma AppendedPoint(s: M, g: M, h: M, i: nat, src: seq<bv8>, tot: nat)
    requires tot <= |src| && Appended(s, g, i, src, tot) && Sized(h) && h.size == g.size && h.first == g.first &&
             h.bytes == g.bytes
    requires |h.inodes| == |g.inodes|
    requires forall j {:trigger h.inodes[j]} :: 0 <= j < |g.inodes| ==>
             h.inodes[j].size == g.inodes[j].size && (j != i ==> h.inodes[j] == g.inodes[j])
    requires forall j: nat, c: nat {:trigger Blk(h, j, c)} :: Blk(g, j, c) != 0 ==> Blk(h, j, c) == Blk(g, j, c)
    ensures Appended(s, h, i, src, tot)
  {
    hide Blk;
    forall j: nat, k: nat | Blk(g, j, k / BSIZE) != 0 ensures ByteAt(h, j, k) == ByteAt(g, j, k) &&
        Blk(h, j, k / BSIZE) != 0 {
      assert Blk(h, j, k / BSIZE) == Blk(g, j, k / BSIZE);
    }
    forall j: nat, k: nat | Blk(s, j, k / BSIZE) != 0 ensures Blk(g, j, k / BSIZE) != 0 {
      assert Blk(g, j, k / BSIZE) == Blk(s, j, k / BSIZE);
    }
    forall k: nat | s.inodes[i].size <= k < s.inodes[i].size + tot
      ensures Blk(h, i, k / BSIZE) != 0 && ByteAt(h, i, k) == src[k - s.inodes[i].size] {
      assert ByteAt(g, i, k) == src[k - s.inodes[i].size];
    }
    forall j: nat, k: nat | Blk(s, j, k / BSIZE) != 0 && !(j == i && s.inodes[i].size <= k < s.inodes[i].size + tot)
      ensures ByteAt(h, j, k) == ByteAt(s, j, k) {
      assert ByteAt(g, j, k) == ByteAt(s, j, k);
    }
  }

  function Written(m: M, a: nat, off: nat, bytes: seq<bv8>): M
    requires Sized(m) && a < m.size && off + |bytes| <= BSIZE
  {
    m.(bytes := m.bytes[a := Patch(m.bytes[a], off, bytes)])
  }

  lemma WrittenOk(m: M, a: nat, off: nat, bytes: seq<bv8>)
    requires Ok(m) && a < m.size && off + |bytes| <= BSIZE
    ensures var g := Written(m, a, off, bytes);
            Ok(g) && forall j: nat, c: nat {:trigger Blk(g, j, c)} :: Blk(g, j, c) == Blk(m, j, c)
  {
    hide Patch;
    var g := Written(m, a, off, bytes);
    assert Sized(g);
    forall j: nat, c: nat ensures Blk(g, j, c) == Blk(m, j, c) {}
    forall j: nat, c: nat ensures BlkOk(g, j, c) { assert BlkOk(m, j, c); }
    forall j: nat ensures IndOk(g, j) { assert IndOk(m, j); }
    forall x: nat ensures OwnOk(g, x) { assert OwnOk(m, x); }
    forall x: nat ensures FreshOk(g, x) { assert FreshOk(m, x); }
    forall j: nat, c: nat ensures SizeOk(g, j, c) { assert SizeOk(m, j, c); }
  }

  /** Writing at byte `at` of file i changes only those bytes of that file. */
  lemma WrittenBytes(m: M, i: nat, at: nat, bytes: seq<bv8>, j: nat, k: nat)
    requires Ok(m) && Blk(m, i, at / BSIZE) != 0 && at % BSIZE + |bytes| <= BSIZE && Blk(m, j, k / BSIZE) != 0
    ensures Blk(m, i, at / BSIZE) < m.size
    ensures var g := Written(m, Blk(m, i, at / BSIZE), at % BSIZE, bytes);
            Sized(g) && ByteAt(g, j, k) == if j == i && at <= k < at + |bytes| then bytes[k - at] else ByteAt(m, j, k)
  {
    hide Patch, Blk;
    var a, c := Blk(m, i, at / BSIZE), Blk(m, j, k / BSIZE);
    assert BlkOk(m, i, at / BSIZE) && BlkOk(m, j, k / BSIZE) && OwnOk(m, a) && OwnOk(m, c);
    WrittenOk(m, a, at % BSIZE, bytes);
    assert Blk(Written(m, a, at % BSIZE, bytes), j, k / BSIZE) == c;
    if a == c { SamePlace(at, k, |bytes|); } else if j == i { OtherPlace(at, k, |bytes|); }
  }

  lemma AppendedMore(s: M, g: M, i: nat, src: seq<bv8>, tot: nat, n: nat)
    requires tot + n <= |src| && Appended(s, g, i, src, tot) && Ok(g)
    requires var at := s.inodes[i].size + tot; Blk(g, i, at / BSIZE) != 0 && at % BSIZE + n <= BSIZE
    ensures var at := s.inodes[i].size + tot;
            && Blk(g, i, at / BSIZE) < g.size
            && var h := Written(g, Blk(g, i, at / BSIZE), at % BSIZE, src[tot..tot + n]);
               Ok(h) && Appended(s, h, i, src, tot + n)
  {
    hide Patch, Blk, ByteAt, Ok;
    var at, bytes := s.inodes[i].size + tot, src[tot..tot + n];
    WrittenBytes(g, i, at, bytes, i, at);
    var a := Blk(g, i, at / BSIZE);
    var h := Written(g, a, at % BSIZE, bytes);
    WrittenOk(g, a, at % BSIZE, bytes);
    forall j: nat, k: nat | Blk(g, j, k / BSIZE) != 0
      ensures ByteAt(h, j, k) == if j == i && at <= k < at + n then bytes[k - at] else ByteAt(g, j, k) {
      WrittenBytes(g, i, at, bytes, j, k);
    }
    forall k: nat | s.inodes[i].size <= k < at + n
      ensures Blk(h, i, k / BSIZE) != 0 && ByteAt(h, i, k) == src[k - s.inodes[i].size] {
      if k < at { assert ByteAt(g, i, k) == src[k - s.inodes[i].size]; } else { SameBlock(at, k, n); }
    }
    forall j: nat, k: nat | Blk(s, j, k / BSIZE) != 0 && !(j == i && s.inodes[i].size <= k < at + n)
      ensures ByteAt(h, j, k) == ByteAt(s, j, k) {
      assert Blk(g, j, k / BSIZE) == Blk(s, j, k / BSIZE) && ByteAt(g, j, k) == ByteAt(s, j, k);
    }
  }

  function Resize(m: M, i: nat, size: nat): M
    requires i < |m.inodes|
  {
    m.(inodes := m.inodes[i := m.inodes[i].(size := size)])
  }

  /** iappend's end: the file is longer by src, and no other file has changed. */
  lemma AppendedContent(s: M, g: M, i: nat, src: seq<bv8>)
    requires Ok(s) && Ok(g) && Appended(s, g, i, src, |src|) && s.inodes[i].size + |src| <= MAXFILE * BSIZE
    ensures var h := Resize(g, i, s.inodes[i].size + |src|);
            && Ok(h) && |h.inodes| == |s.inodes| && Content(h, i) == Content(s, i) + src
            && forall j {:trigger Content(h, j)} :: 0 <= j < |s.inodes| && j != i ==> Content(h, j) == Content(s, j)
  {
    hide Blk;
    var n := s.inodes[i].size + |src|;
    var h := Resize(g, i, n);
    ResizeOk(s, g, i, src);
    forall j: nat, k: nat ensures ByteAt(h, j, k) == ByteAt(g, j, k) {
      assert Blk(h, j, k / BSIZE) == Blk(g, j, k / BSIZE);
    }
    forall j: nat, k: nat | j < |s.inodes| && k < s.inodes[j].size ensures Blk(s, j, k / BSIZE) != 0 {
      SizeHas(s, j, k);
    }
    var x, y := Content(h, i), Content(s, i) + src;
    forall k | 0 <= k < n ensures x[k] == y[k] { assert ByteAt(h, i, k) == ByteAt(g, i, k); }
    assert x == y;
    forall j | 0 <= j < |s.inodes| && j != i ensures Content(h, j) == Content(s, j) {
      forall k | 0 <= k < s.inodes[j].size ensures Content(h, j)[k] == Content(s, j)[k] {
        assert ByteAt(h, j, k) == ByteAt(g, j, k);
      }
    }
  }

  lemma SizeHas(m: M, i: nat, k: nat)
    requires Ok(m) && i < |m.inodes| && k < m.inodes[i].size
    ensures Blk(m, i, k / BSIZE) != 0
  {
    assert SizeOk(m, i, k / BSIZE);
    assert k / BSIZE * BSIZE <= k;
  }

  lemma ResizeOk(s: M, g: M, i: nat, src: seq<bv8>)
    requires Ok(s) && Ok(g) && Appended(s, g, i, src, |src|) && s.inodes[i].size + |src| <= MAXFILE * BSIZE
    ensures var h := Resize(g, i, s.inodes[i].size + |src|);
            Ok(h) && forall j: nat, c: nat {:trigger Blk(h, j, c)} :: Blk(h, j, c) == Blk(g, j, c)
  {
    hide ByteAt;
    var n := s.inodes[i].size + |src|;
    var h := Resize(g, i, n);
    assert Sized(h);
    forall j: nat, c: nat ensures Blk(h, j, c) == Blk(g, j, c) {}
    forall j: nat, c: nat ensures BlkOk(h, j, c) { assert BlkOk(g, j, c); }
    forall j: nat ensures IndOk(h, j) { assert IndOk(g, j); }
    forall x: nat ensures OwnOk(h, x) { assert OwnOk(g, x); }
    forall x: nat ensures FreshOk(h, x) { assert FreshOk(g, x); }
    forall j: nat, c: nat ensures SizeOk(h, j, c) {
      assert SizeOk(g, j, c);
      if j == i && s.inodes[i].size <= c * BSIZE < n {
        assert ByteAt(g, i, c * BSIZE) == src[c * BSIZE - s.inodes[i].size];
        assert c * BSIZE / BSIZE == c;
      }
    }
  }

  // ---- the builder ----

  datatype Append = Append(i: nat, bytes: seq<bv8>)

  /** The bytes that the first k appends give file i. */
  function Given(ops: seq<Append>, k: nat, i: nat): seq<bv8>
    requires k <= |ops|
  {
    if k == 0 then [] else Given(ops, k - 1, i) + (if ops[k - 1].i == i then ops[k - 1].bytes else [])
  }

  predicate Fits(ops: seq<Append>, k: nat, n: nat)
    requires k <= |ops|
  {
    forall i {:trigger Given(ops, k, i)} :: 0 <= i < n ==> |Given(ops, k, i)| <= MAXFILE * BSIZE
  }

  class Image {
    const size: nat
    const first: nat
    var bytes: seq<Block>
    var words: seq<seq<nat>>
    var inodes: seq<Inode>
    var free: nat
    ghost var own: map<nat, Use>

    ghost function S(): M
      reads this
    {
      M(size, first, bytes, words, inodes, free, own)
    }

    /** Every block zero, every file empty. */
    constructor (n: nat, nmeta: nat, ninodes: nat)
      requires 0 < nmeta <= n
      ensures S() == Empty(n, nmeta, ninodes) && Ok(S()) && Tight(S())
    {
      EmptyOk(n, nmeta, ninodes);
      var m := Empty(n, nmeta, ninodes);
      size, first, bytes, words, inodes, free, own := m.size, m.first, m.bytes, m.words, m.inodes, m.free, m.own;
    }

    /** The image as it will be once inode i has been written back from its working copy. */
    ghost function With(i: nat, din: Inode): M
      requires i < |inodes|
      reads this
    {
      S().(inodes := inodes[i := din])
    }

    /** The block for block bn of the file, taken from the free ones if need be; false exactly when none is left for
        it. */
    method Locate(ghost s: M, i: nat, din: Inode, bn: nat, ghost src: seq<bv8>, ghost tot: nat)
      returns (ok: bool, din': Inode, x: nat)
      requires i < |inodes| && Ok(With(i, din)) && bn < MAXFILE
      requires tot <= |src| && Appended(s, With(i, din), i, src, tot)
      modifies this`words, this`free, this`own
      ensures Ok(With(i, din')) && Appended(s, With(i, din'), i, src, tot)
      ensures ok ==> x == Blk(With(i, din'), i, bn) && x != 0
      ensures |din.addrs| == |din'.addrs| == NSLOTS
      ensures free == old(free) + (if Blk(old(With(i, din)), i, bn) == 0 && ok then 1 else 0)
                                + (if din.addrs[NDIRECT] != din'.addrs[NDIRECT] then 1 else 0)
      ensures !ok ==> free == size && Blk(old(With(i, din)), i, bn) == 0
      ensures din'.addrs[NDIRECT] != din.addrs[NDIRECT] ==> bn >= NDIRECT && din.addrs[NDIRECT] == 0
      ensures ok ==> Gained(old(With(i, din)), With(i, din'), i, bn) && bytes == old(bytes)
    {
      hide Ok, Appended, PointDirect, PointIndirect, PointWord, Blk;
      din', ok, x := din, true, 0;
      ghost var g := With(i, din);
      SizedOf(g);
      GainedNone(g, i, bn);
      assert g.inodes[i] == din;
      if bn < NDIRECT {
        BlkDirect(g, i, bn);
        if din.addrs[bn] == 0 {
          if free >= size { return false, din, 0; }
          PointDirectOk(g, i, bn);
          PointDirectIs(s, g, i, bn, src, tot);
          din' := din.(addrs := din.addrs[bn := free]);
          own := own[free := Data(i, bn)];
          free := free + 1;
          assert With(i, din') == PointDirect(g, i, bn) by { PutTwice(inodes, i, din, din'); }
        }
        x := din'.addrs[bn];
        BlkDirect(With(i, din'), i, bn);
      } else {
        BlkNone(g, i, bn);
        if din.addrs[NDIRECT] == 0 {
          if free >= size { return false, din, 0; }
          PointIndirectOk(g, i);
          PointIndirectIs(s, g, i, src, tot);
          din' := din.(addrs := din.addrs[NDIRECT := free]);
          own := own[free := Indirect(i)];
          free := free + 1;
          assert With(i, din') == PointIndirect(g, i) by { PutTwice(inodes, i, din, din'); }
        }
        ghost var h := With(i, din');
        ok, x := LocateWord(s, i, din', bn, src, tot);
        if ok { GainedMore(g, h, With(i, din'), i, bn); }
      }
    }

    /** The part of iappend that goes through the indirect block. */
    method LocateWord(ghost s: M, i: nat, din: Inode, bn: nat, ghost src: seq<bv8>, ghost tot: nat)
      returns (ok: bool, x: nat)
      requires i < |inodes| && Ok(With(i, din)) && NDIRECT <= bn < MAXFILE
      requires tot <= |src| && Appended(s, With(i, din), i, src, tot)
      requires |din.addrs| == NSLOTS && din.addrs[NDIRECT] != 0
      modifies this`words, this`free, this`own
      ensures Ok(With(i, din)) && Appended(s, With(i, din), i, src, tot)
      ensures ok ==> x == Blk(With(i, din), i, bn) && x != 0
      ensures free == old(free) + if Blk(old(With(i, din)), i, bn) == 0 && ok then 1 else 0
      ensures !ok ==> free == size && Blk(old(With(i, din)), i, bn) == 0
      ensures ok ==> Gained(old(With(i, din)), With(i, din), i, bn)
    {
      hide Ok, Appended, PointWord;
      ghost var g := With(i, din);
      IndirectAt(g, i);
      GainedNone(g, i, bn);
      var a := din.addrs[NDIRECT];
      if words[a][bn - NDIRECT] == 0 {
        if free >= size { return false, 0; }
        PointWordOk(g, i, bn);
        PointWordIs(s, g, i, bn, src, tot);
        words := words[a := PutWord(words[a], bn - NDIRECT, free)];
        own := own[free := Data(i, bn)];
        free := free + 1;
      }
      ok, x := true, words[a][bn - NDIRECT];
      IndirectAt(With(i, din), i);
    }

    /** One round of iappend: the block for offset `off`, and as many bytes of src as fit. */
    method AppendRound(ghost s: M, i: nat, din: Inode, src: seq<bv8>, tot: nat, off: nat)
      returns (ok: bool, din': Inode, n: nat)
      requires i < |inodes| && inodes == s.inodes && tot < |src| && Along(s, With(i, din), i, src, tot)
      requires off == s.inodes[i].size + tot && s.inodes[i].size + |src| <= MAXFILE * BSIZE
      modifies this
      ensures inodes == old(inodes)
      ensures !ok ==> free == size && Sized(s) && s.free + Need(s, i, |src|) > size
      ensures ok ==> 0 < n && tot + n <= |src| && Along(s, With(i, din'), i, src, tot + n)
    {
      hide Ok, Appended, Content, Blk, Written, Patch, Blks, Exact, Gained;
      n := 0;
      ghost var g := With(i, din);
      SizedOf(g);
      assert g.inodes[i] == din;
      var fbn := off / BSIZE;
      BlockThere(s, g, i, src, tot);
      var x;
      ok, din', x := Locate(s, i, din, fbn, src, tot);
      BlksSteps(off, s.inodes[i].size + |src|);
      if !ok { return; }
      ghost var h := With(i, din');
      assert h.inodes[i] == din';
      n := if |src| - tot < (fbn + 1) * BSIZE - off then |src| - tot else (fbn + 1) * BSIZE - off;
      SizedOf(h);
      AlongNext(s, g, h, i, src, tot, n);
      WrittenIs(h, x, off % BSIZE, src[tot..tot + n]);
      bytes := bytes[x := Patch(bytes[x], off - fbn * BSIZE, src[tot..tot + n])];
    }

    /** Appends src to a file. It fails only when the image is full, and succeeds whenever there is room for the blocks
        it needs; if files have no blocks but those their sizes call for, that is exactly when. */
    method Iappend(i: nat, src: seq<bv8>) returns (ok: bool)
      requires Ok(S()) && i < |inodes| && inodes[i].size + |src| <= MAXFILE * BSIZE
      modifies this
      ensures !ok ==> free == size && Sized(old(S())) && old(free) + Need(old(S()), i, |src|) > size
      ensures ok ==>
        && Ok(S()) && |inodes| == |old(inodes)| && Content(S(), i) == Content(old(S()), i) + src
        && (forall j {:trigger Content(S(), j)} :: 0 <= j < |inodes| && j != i ==>
              Content(S(), j) == Content(old(S()), j))
        && (forall j {:trigger inodes[j]} :: 0 <= j < |inodes| && j != i ==> inodes[j] == old(inodes)[j])
        && |inodes[i].addrs| == |old(inodes)[i].addrs| == NSLOTS
        && (inodes[i].size <= NDIRECT * BSIZE ==> inodes[i].addrs[NDIRECT] == old(inodes)[i].addrs[NDIRECT])
        && free <= old(free) + Need(old(S()), i, |src|)
      ensures Sized(old(S())) && Tight(old(S())) ==> (ok <==> old(free) + Need(old(S()), i, |src|) <= size)
      ensures ok && Tight(old(S())) ==> Tight(S()) && free == old(free) + Need(old(S()), i, |src|)
    {
      hide Ok, Appended, Content, Blk, Exact, Blks, Tight;
      ghost var s := S();
      SizedOf(s);
      AppendedNone(s, i, src);
      var din := inodes[i];
      var off, tot := din.size, 0;
      assert With(i, din) == s by { PutSame(inodes, i); }
      ExactNone(s, i);
      while tot < |src|
        invariant 0 <= tot <= |src| && off == s.inodes[i].size + tot && inodes == s.inodes
        invariant Along(s, With(i, din), i, src, tot)
        decreases |src| - tot
      {
        var n;
        ok, din, n := AppendRound(s, i, din, src, tot, off);
        if !ok {
          return;
        }
        tot, off := tot + n, off + n;
      }
      ghost var g := With(i, din);
      SizedOf(g);
      assert g.inodes[i] == din;
      AppendedContent(s, g, i, src);
      ExactEnd(s, g, i, src);
      PutTwice(inodes, i, din, din.(size := off));
      inodes := inodes[i := din.(size := off)];
      ok := true;
    }

    /** Any sequence of appends to any files of an image of empty files: each file is the concatenation of its appends,
        unless the image is full. A file that fits the direct blocks uses no indirect one. */
    method Build(ops: seq<Append>) returns (ok: bool)
      requires Ok(S()) && (forall i {:trigger inodes[i]} :: 0 <= i < |inodes| ==> inodes[i].size == 0)
      requires forall i {:trigger inodes[i]} :: 0 <= i < |inodes| ==>
                 |inodes[i].addrs| == NSLOTS && inodes[i].addrs[NDIRECT] == 0
      requires forall k {:trigger ops[k]} :: 0 <= k < |ops| ==> ops[k].i < |inodes|
      requires forall k {:trigger Fits(ops, k, |inodes|)} :: 0 <= k <= |ops| ==> Fits(ops, k, |inodes|)
      modifies this
      ensures !ok ==> free == size && old(free) + Total(ops, |ops|, |old(inodes)|) > size
      ensures Tight(old(S())) ==> (ok <==> old(free) + Total(ops, |ops|, |old(inodes)|) <= size)
      ensures ok ==>
        && Ok(S()) && |inodes| == |old(inodes)|
        && (forall i {:trigger Content(S(), i)} :: 0 <= i < |inodes| ==> Content(S(), i) == Given(ops, |ops|, i))
        && (forall i {:trigger inodes[i]} :: 0 <= i < |inodes| ==> DirectOnly(inodes[i]))
    {
      hide Ok, Content, Tight, Blks, Need, Total, Sized;
      SizedOf(S());
      forall i | 0 <= i < |inodes| ensures Content(S(), i) == Given(ops, 0, i) { EmptyFile(S(), i); }
      var k := 0;
      TotalNone(ops, |inodes|);
      while k < |ops|
        invariant 0 <= k <= |ops| && Ok(S()) && Sized(S()) && |inodes| == |old(inodes)|
        invariant forall i {:trigger Content(S(), i)} :: 0 <= i < |inodes| ==> Content(S(), i) == Given(ops, k, i)
        invariant forall i {:trigger inodes[i]} :: 0 <= i < |inodes| ==> DirectOnly(inodes[i])
        invariant free <= old(free) + Total(ops, k, |inodes|) && free <= size
        invariant Tight(old(S())) ==> Tight(S()) && free == old(free) + Total(ops, k, |inodes|)
      {
        assert Fits(ops, k + 1, |inodes|);
        SizeIs(S(), ops[k].i);
        assert |Given(ops, k + 1, ops[k].i)| <= MAXFILE * BSIZE;
        ghost var was := inodes[ops[k].i];
        ghost var s := S();
        NextTotal(s, ops, k);
        TotalGrows(ops, k + 1, |ops|, |inodes|);
        ok := Iappend(ops[k].i, ops[k].bytes);
        if !ok { return; }
        SizedOf(S());
        SizeIs(S(), ops[k].i);
        SizeIs(s, ops[k].i);
        k := k + 1;
      }
      ok := true;
    }

    /** The whole image: the files and the bitmap. What comes out is in good order for the kernel exactly if every file
        fits the direct blocks, and then it holds those files. */
    method MakeImage(ops: seq<Append>) returns (ok: bool, buf: Block)
      requires Ok(S()) && (forall i {:trigger inodes[i]} :: 0 <= i < |inodes| ==> inodes[i].size == 0)
      requires forall i {:trigger inodes[i]} :: 0 <= i < |inodes| ==>
                 |inodes[i].addrs| == NSLOTS && inodes[i].addrs[NDIRECT] == 0
      requires forall k {:trigger ops[k]} :: 0 <= k < |ops| ==> ops[k].i < |inodes|
      requires forall k {:trigger Fits(ops, k, |inodes|)} :: 0 <= k <= |ops| ==> Fits(ops, k, |inodes|)
      requires size < BPB && first >= 2
      modifies this
      ensures !ok ==> free == size && old(free) + Total(ops, |ops|, |old(inodes)|) > size
      ensures Tight(old(S())) ==> (ok <==> old(free) + Total(ops, |ops|, |old(inodes)|) <= size)
      ensures ok ==>
        && Ok(S()) && |buf| == BSIZE && |inodes| == |old(inodes)|
        && (forall i {:trigger Content(S(), i)} :: 0 <= i < |inodes| ==> Content(S(), i) == Given(ops, |ops|, i))
        && (forall b: nat {:trigger Marks(buf, b)} :: first <= b < BPB ==> (Marks(buf, b) <==> b in own))
        && (Fs.Ok(AsFs(S(), buf)) <==>
              forall i {:trigger Given(ops, |ops|, i)} :: 0 <= i < |inodes| ==>
                |Given(ops, |ops|, i)| <= NDIRECT * BSIZE)
        && (Fs.Ok(AsFs(S(), buf)) ==>
              forall i {:trigger Fs.Content(AsFs(S(), buf), i)} :: 0 <= i < |inodes| ==>
                Fs.Content(AsFs(S(), buf), i) == Given(ops, |ops|, i))
    {
      hide Ok, Content, Marks, Fs.Ok, Fs.Content, Given, Tight, Total;
      buf := ZeroBlock();
      ok := Build(ops);
      if !ok { return; }
      SizedOf(S());
      buf := Balloc(free);
      forall b: nat | first <= b < BPB ensures Marks(buf, b) <==> b in own { BitmapExact(S(), buf, b); }
      KernelOkExactly(S(), buf);
      if Fs.Ok(AsFs(S(), buf)) {
        KernelOk(S(), buf);
        forall i | 0 <= i < |inodes| ensures |Given(ops, |ops|, i)| <= NDIRECT * BSIZE {
          assert inodes[i].size <= NDIRECT * BSIZE;
          SizeIs(S(), i);
        }
      } else {
        ghost var i :| 0 <= i < |inodes| && inodes[i].size > NDIRECT * BSIZE;
        SizeIs(S(), i);
        assert |Given(ops, |ops|, i)| > NDIRECT * BSIZE;
      }
    }
  }

  /** From g to h, file i has gained block bn if it had none; nothing else points elsewhere. */
  ghost predicate Gained(g: M, h: M, i: nat, bn: nat) {
    && Sized(g) && Sized(h) && Blk(h, i, bn) != 0
    && forall j: nat, c: nat {:trigger Blk(h, j, c)} :: !(j == i && c == bn) ==> Blk(h, j, c) == Blk(g, j, c)
  }

  lemma GainedNone(g: M, i: nat, bn: nat)
    requires Sized(g)
    ensures Blk(g, i, bn) != 0 ==> Gained(g, g, i, bn)
  {}

  lemma GainedMore(g: M, h: M, k: M, i: nat, bn: nat)
    requires Sized(g) && Gained(h, k, i, bn)
    requires Sized(h) && forall j: nat, c: nat {:trigger Blk(h, j, c)} :: Blk(h, j, c) == Blk(g, j, c)
    ensures Gained(g, k, i, bn)
  {
    hide Blk;
    forall j: nat, c: nat | !(j == i && c == bn) ensures Blk(k, j, c) == Blk(g, j, c) {
      assert Blk(k, j, c) == Blk(h, j, c);
    }
  }

  /** A file that fits the direct blocks has no indirect block. */
  predicate DirectOnly(x: Inode) {
    |x.addrs| == NSLOTS && (x.size <= NDIRECT * BSIZE ==> x.addrs[NDIRECT] == 0)
  }

  /** The number of blocks for n bytes. */
  function Blks(n: nat): nat { (n + BSIZE - 1) / BSIZE }

  /** The blocks that the first k appends need for the first n files. */
  function Total(ops: seq<Append>, k: nat, n: nat): nat
    requires k <= |ops|
  {
    if n == 0 then 0 else Total(ops, k, n - 1) + FileBlks(|Given(ops, k, n - 1)|)
  }

  lemma {:induction false} TotalNone(ops: seq<Append>, n: nat)
    ensures Total(ops, 0, n) == 0
    decreases n
  {
    if n > 0 { TotalNone(ops, n - 1); }
  }

  lemma FileBlksGrow(a: nat, b: nat)
    requires a <= b
    ensures FileBlks(a) <= FileBlks(b)
  {}

  lemma {:induction false} TotalGrows(ops: seq<Append>, k: nat, l: nat, n: nat)
    requires k <= l <= |ops|
    ensures Total(ops, k, n) <= Total(ops, l, n)
    decreases n
  {
    hide FileBlks;
    if n > 0 {
      TotalGrows(ops, k, l, n - 1);
      GivenGrows(ops, k, l, n - 1);
      FileBlksGrow(|Given(ops, k, n - 1)|, |Given(ops, l, n - 1)|);
    }
  }

  lemma {:induction false} GivenGrows(ops: seq<Append>, k: nat, l: nat, i: nat)
    requires k <= l <= |ops|
    ensures |Given(ops, k, i)| <= |Given(ops, l, i)|
    decreases l
  {
    if k < l { GivenGrows(ops, k, l - 1, i); }
  }

  /** One append changes the sum by what its file grows. */
  lemma {:induction false} TotalStep(ops: seq<Append>, k: nat, n: nat)
    requires k < |ops|
    ensures Total(ops, k + 1, n) == Total(ops, k, n) +
              if ops[k].i < n then FileBlks(|Given(ops, k + 1, ops[k].i)|) - FileBlks(|Given(ops, k, ops[k].i)|) else 0
    decreases n
  {
    hide FileBlks;
    if n > 0 { TotalStep(ops, k, n - 1); }
  }

  lemma NextTotal(s: M, ops: seq<Append>, k: nat)
    requires Ok(s) && Sized(s) && k < |ops| && ops[k].i < |s.inodes|
    requires Content(s, ops[k].i) == Given(ops, k, ops[k].i) && DirectOnly(s.inodes[ops[k].i])
    ensures Total(ops, k + 1, |s.inodes|) == Total(ops, k, |s.inodes|) + Need(s, ops[k].i, |ops[k].bytes|)
  {
    hide Ok, Blks, Total;
    var i := ops[k].i;
    TotalStep(ops, k, |s.inodes|);
    SizeIs(s, i);
    if s.inodes[i].size > NDIRECT * BSIZE { IndirectWhenBig(s, i); }
    assert |Given(ops, k + 1, i)| == s.inodes[i].size + |ops[k].bytes|;
  }

  lemma IndirectWhenBig(s: M, i: nat)
    requires Ok(s) && Sized(s) && i < |s.inodes| && s.inodes[i].size > NDIRECT * BSIZE
    ensures s.inodes[i].addrs[NDIRECT] != 0
  {
    assert SizeOk(s, i, NDIRECT);
  }

  /** How many new blocks an append of n bytes to file i takes at most. */
  function Need(m: M, i: nat, n: nat): nat
    requires Sized(m) && i < |m.inodes|
  {
    var sz := m.inodes[i].size;
    Blks(sz + n) - Blks(sz) + if sz + n > NDIRECT * BSIZE && m.inodes[i].addrs[NDIRECT] == 0 then 1 else 0
  }

  /** The blocks for a file of n bytes, the indirect one included. */
  function FileBlks(n: nat): nat { Blks(n) + if n > NDIRECT * BSIZE then 1 else 0 }

  /** File i has exactly its first k blocks, and an indirect block exactly if one of them needs it. */
  ghost predicate HasTo(m: M, i: nat, k: nat)
    requires Sized(m) && i < |m.inodes|
  {
    && (forall c: nat {:trigger Blk(m, i, c)} :: c < MAXFILE ==> (Blk(m, i, c) != 0 <==> c < k))
    && (m.inodes[i].addrs[NDIRECT] != 0 <==> k > NDIRECT)
  }

  /** Every file has exactly the blocks its size calls for. */
  ghost predicate Tight(m: M) {
    Sized(m) && forall i {:trigger m.inodes[i]} :: 0 <= i < |m.inodes| ==> HasTo(m, i, Blks(m.inodes[i].size))
  }

  /** If it was so at first, file i has exactly the blocks for its first `off` bytes, and no other was taken. */
  ghost predicate Exact(s: M, g: M, i: nat, off: nat)
    requires Sized(s) && Sized(g) && i < |s.inodes| == |g.inodes|
  {
    Tight(s) ==>
      && HasTo(g, i, Blks(off)) && g.free + FileBlks(s.inodes[i].size) == s.free + FileBlks(off)
      && forall j: nat, c: nat {:trigger Blk(g, j, c)} :: j != i ==> Blk(g, j, c) == Blk(s, j, c)
  }

  /** The state of an append of src to file i after tot bytes. */
  ghost predicate Along(s: M, g: M, i: nat, src: seq<bv8>, tot: nat) {
    && Ok(s) && Ok(g) && tot <= |src| && Appended(s, g, i, src, tot) && i < |s.inodes| == |g.inodes|
    && Sized(s) && Sized(g)
    && var off, grew := s.inodes[i].size + tot, g.inodes[i].addrs[NDIRECT] != s.inodes[i].addrs[NDIRECT];
       && (off % BSIZE == 0 || tot == 0 || tot == |src|)
       && (grew ==> off > NDIRECT * BSIZE && s.inodes[i].addrs[NDIRECT] == 0)
       && g.free + Blks(s.inodes[i].size) <= s.free + Blks(off) + (if grew then 1 else 0)
       && Exact(s, g, i, off)
  }

  lemma ExactNone(s: M, i: nat)
    requires Sized(s) && i < |s.inodes|
    ensures Exact(s, s, i, s.inodes[i].size)
  {}

  lemma ExactStep(s: M, g: M, h: M, i: nat, off: nat, n: nat)
    requires Sized(s) && Sized(g) && Sized(h) && i < |s.inodes| == |g.inodes| == |h.inodes| && Exact(s, g, i, off)
    requires 0 < n && off + n <= (off / BSIZE + 1) * BSIZE && off + n <= MAXFILE * BSIZE
    requires Gained(g, h, i, off / BSIZE)
    requires h.free == g.free + (if Blk(g, i, off / BSIZE) == 0 then 1 else 0)
                       + (if g.inodes[i].addrs[NDIRECT] != h.inodes[i].addrs[NDIRECT] then 1 else 0)
    requires g.inodes[i].addrs[NDIRECT] != h.inodes[i].addrs[NDIRECT] ==>
               off / BSIZE >= NDIRECT && g.inodes[i].addrs[NDIRECT] == 0
    ensures Exact(s, h, i, off + n)
  {
    hide Blk;
    var bn := off / BSIZE;
    BlksSteps(off, off + n);
    if Tight(s) {
      if bn >= NDIRECT { BlkNone(h, i, bn); }
      assert off % BSIZE == 0 ==> Blks(off) == bn;
      assert off % BSIZE != 0 ==> Blks(off) == bn + 1;
      assert bn < MAXFILE && Blks(off + n) == bn + 1;
      forall c: nat | c < MAXFILE ensures Blk(h, i, c) != 0 <==> c < bn + 1 {
        if c != bn { assert Blk(h, i, c) == Blk(g, i, c); }
      }
      forall j: nat, c: nat | j != i ensures Blk(h, j, c) == Blk(s, j, c) { assert Blk(h, j, c) == Blk(g, j, c); }
    }
  }

  /** One round of iappend, once the block is there. */
  lemma AlongNext(s: M, g: M, h: M, i: nat, src: seq<bv8>, tot: nat, n: nat)
    requires Along(s, g, i, src, tot) && Ok(h) && Sized(h) && tot < |src| && Appended(s, h, i, src, tot)
    requires |h.inodes| == |g.inodes|
    requires s.inodes[i].size + |src| <= MAXFILE * BSIZE
    requires var off := s.inodes[i].size + tot;
             && Gained(g, h, i, off / BSIZE)
             && n == (if |src| - tot < (off / BSIZE + 1) * BSIZE - off then |src| - tot
                      else (off / BSIZE + 1) * BSIZE - off)
             && h.free == g.free + (if Blk(g, i, off / BSIZE) == 0 then 1 else 0)
                          + (if g.inodes[i].addrs[NDIRECT] != h.inodes[i].addrs[NDIRECT] then 1 else 0)
             && (g.inodes[i].addrs[NDIRECT] != h.inodes[i].addrs[NDIRECT] ==>
                   off / BSIZE >= NDIRECT && g.inodes[i].addrs[NDIRECT] == 0)
    ensures var off := s.inodes[i].size + tot;
            && 0 < n && tot + n <= |src| && Blk(h, i, off / BSIZE) < h.size && off % BSIZE + n <= BSIZE
            && Along(s, Written(h, Blk(h, i, off / BSIZE), off % BSIZE, src[tot..tot + n]), i, src, tot + n)
  {
    hide Ok, Appended, Blk, Patch, Blks, Exact;
    var off := s.inodes[i].size + tot;
    BlockThere(s, g, i, src, tot);
    BlksSteps(off, off + n);
    AppendedMore(s, h, i, src, tot, n);
    ExactStep(s, g, h, i, off, n);
    SizedOf(Written(h, Blk(h, i, off / BSIZE), off % BSIZE, src[tot..tot + n]));
    ExactWritten(s, h, Blk(h, i, off / BSIZE), i, off % BSIZE, src[tot..tot + n], off + n);
  }

  lemma ExactWritten(s: M, h: M, x: nat, i: nat, at: nat, data: seq<bv8>, off: nat)
    requires Sized(s) && Sized(h) && i < |s.inodes| == |h.inodes| && Exact(s, h, i, off)
    requires x < h.size && at + |data| <= BSIZE && Sized(Written(h, x, at, data))
    ensures Exact(s, Written(h, x, at, data), i, off)
  {
    var k := Written(h, x, at, data);
    forall j: nat, c: nat ensures Blk(k, j, c) == Blk(h, j, c) {}
  }

  /** The end of an append: sizes and blocks agree again. */
  lemma ExactEnd(s: M, g: M, i: nat, src: seq<bv8>)
    requires Ok(s) && Along(s, g, i, src, |src|) && s.inodes[i].size + |src| <= MAXFILE * BSIZE
    ensures Tight(s) ==> Tight(Resize(g, i, s.inodes[i].size + |src|)) && g.free == s.free + Need(s, i, |src|)
  {
    hide Ok, Blk, ByteAt;
    var h := Resize(g, i, s.inodes[i].size + |src|);
    ResizeOk(s, g, i, src);
    SizedOf(h);
    if Tight(s) {
      forall j | 0 <= j < |h.inodes| ensures HasTo(h, j, Blks(h.inodes[j].size)) {
        forall c: nat ensures Blk(h, j, c) == if j == i then Blk(g, i, c) else Blk(s, j, c) {
          assert Blk(h, j, c) == Blk(g, j, c);
        }
        assert HasTo(s, j, Blks(s.inodes[j].size));
      }
    }
  }

  lemma BlksSteps(a: nat, b: nat)
    requires a <= b
    ensures Blks(a) <= Blks(b)
    ensures a % BSIZE == 0 && a < b ==> Blks(a) + 1 <= Blks(b)
    ensures a % BSIZE == 0 && a < b <= (a / BSIZE + 1) * BSIZE ==> Blks(b) == Blks(a) + 1
    ensures a % BSIZE != 0 && b <= (a / BSIZE + 1) * BSIZE ==> Blks(b) == Blks(a)
  {}

  /** Where a file ends in the middle of a block, the block is there. */
  lemma BlockThere(s: M, g: M, i: nat, src: seq<bv8>, tot: nat)
    requires Ok(s) && tot <= |src| && Appended(s, g, i, src, tot)
    ensures tot == 0 && s.inodes[i].size % BSIZE != 0 ==> Blk(g, i, s.inodes[i].size / BSIZE) != 0
  {
    var k := s.inodes[i].size;
    if tot == 0 && k % BSIZE != 0 {
      SizeHas(s, i, k / BSIZE * BSIZE);
      assert k / BSIZE * BSIZE / BSIZE == k / BSIZE;
      assert Blk(g, i, k / BSIZE) == Blk(s, i, k / BSIZE);
    }
  }

  lemma SizedOf(m: M)
    requires Ok(m)
    ensures Sized(m)
  {}

  lemma EmptyFile(m: M, i: nat)
    requires Sized(m) && i < |m.inodes| && m.inodes[i].size == 0
    ensures Content(m, i) == []
  {}

  lemma SizeIs(m: M, i: nat)
    requires Sized(m) && i < |m.inodes|
    ensures |Content(m, i)| == m.inodes[i].size
  {}

  lemma PutSame(s: seq<Inode>, i: nat)
    requires i < |s|
    ensures s[i := s[i]] == s
  {}

  lemma PutTwice(s: seq<Inode>, i: nat, x: Inode, y: Inode)
    requires i < |s|
    ensures s[i := x][i := y] == s[i := y]
  {}

  lemma WrittenIs(m: M, a: nat, off: nat, bytes: seq<bv8>)
    requires Sized(m) && a < m.size && off + |bytes| <= BSIZE
    ensures |m.bytes[a]| == BSIZE
    ensures Written(m, a, off, bytes) == m.(bytes := m.bytes[a := Patch(m.bytes[a], off, bytes)])
  {}

  lemma IndirectAt(m: M, i: nat)
    requires Ok(m) && i < |m.inodes| && |m.inodes[i].addrs| == NSLOTS && m.inodes[i].addrs[NDIRECT] != 0
    ensures Sized(m) && 0 < m.inodes[i].addrs[NDIRECT] < m.size
  {
    assert IndOk(m, i) && OwnOk(m, m.inodes[i].addrs[NDIRECT]);
  }

  lemma PointDirectIs(s: M, g: M, i: nat, bn: nat, src: seq<bv8>, tot: nat)
    requires Ok(g) && i < |g.inodes| && bn < NDIRECT && g.inodes[i].addrs[bn] == 0 && g.free < g.size
    requires tot <= |src| && Appended(s, g, i, src, tot)
    ensures Appended(s, PointDirect(g, i, bn), i, src, tot)
    ensures PointDirect(g, i, bn) ==
            g.(inodes := g.inodes[i := g.inodes[i].(addrs := g.inodes[i].addrs[bn := g.free])],
               own := g.own[g.free := Data(i, bn)], free := g.free + 1)
  {
    hide Blk, ByteAt;
    assert Blk(g, i, bn) == 0 by { BlkDirect(g, i, bn); }
    PointDirectOk(g, i, bn);
    AppendedPoint(s, g, PointDirect(g, i, bn), i, src, tot);
  }

  lemma BlkNone(m: M, i: nat, bn: nat)
    requires Sized(m) && i < |m.inodes| && bn >= NDIRECT
    ensures m.inodes[i].addrs[NDIRECT] == 0 ==> Blk(m, i, bn) == 0
  {}

  lemma BlkDirect(m: M, i: nat, bn: nat)
    requires Sized(m) && i < |m.inodes| && bn < NDIRECT
    ensures Blk(m, i, bn) == m.inodes[i].addrs[bn]
  {}

  lemma PointIndirectIs(s: M, g: M, i: nat, src: seq<bv8>, tot: nat)
    requires Ok(g) && i < |g.inodes| && g.inodes[i].addrs[NDIRECT] == 0 && g.free < g.size
    requires tot <= |src| && Appended(s, g, i, src, tot)
    ensures Appended(s, PointIndirect(g, i), i, src, tot)
    ensures PointIndirect(g, i) ==
            g.(inodes := g.inodes[i := g.inodes[i].(addrs := g.inodes[i].addrs[NDIRECT := g.free])],
               own := g.own[g.free := Indirect(i)], free := g.free + 1)
  {
    hide Blk, ByteAt;
    PointIndirectOk(g, i);
    AppendedPoint(s, g, PointIndirect(g, i), i, src, tot);
  }

  lemma PointWordIs(s: M, g: M, i: nat, bn: nat, src: seq<bv8>, tot: nat)
    requires Ok(g) && i < |g.inodes| && NDIRECT <= bn < MAXFILE && g.inodes[i].addrs[NDIRECT] != 0 && g.free < g.size
    requires tot <= |src| && Appended(s, g, i, src, tot) && Blk(g, i, bn) == 0
    ensures g.inodes[i].addrs[NDIRECT] < g.size && Appended(s, PointWord(g, i, bn), i, src, tot)
    ensures var a := g.inodes[i].addrs[NDIRECT];
            PointWord(g, i, bn) == g.(words := g.words[a := PutWord(g.words[a], bn - NDIRECT, g.free)],
                                      own := g.own[g.free := Data(i, bn)], free := g.free + 1)
  {
    hide Blk, ByteAt;
    PointWordOk(g, i, bn);
    AppendedPoint(s, g, PointWord(g, i, bn), i, src, tot);
  }

  // ---- the bitmap ----

  /** The bit of block b in a bitmap block. */
  predicate Marks(buf: Block, b: nat)
    requires |buf| == BSIZE && b < BPB
  {
    IsSet(buf[b / 8], b % 8)
  }

  lemma SetMarks(buf: Block, i: nat, b: nat)
    requires |buf| == BSIZE && i < BPB && b < BPB
    ensures Marks(buf[i / 8 := SetBit(buf[i / 8], i % 8)], b) <==> b == i || Marks(buf, b)
  {
    hide IsSet, SetBit;
    if b / 8 == i / 8 { SetBitSets(buf[i / 8], i % 8, b % 8); }
    if b / 8 == i / 8 && b % 8 == i % 8 { assert b == b / 8 * 8 + b % 8; }
  }

  /** balloc: the bitmap marks exactly the blocks below `used`. */
  method Balloc(used: nat) returns (buf: Block)
    requires used < BPB
    ensures |buf| == BSIZE && forall b: nat {:trigger Marks(buf, b)} :: b < BPB ==> (Marks(buf, b) <==> b < used)
  {
    hide Marks, IsSet, SetBit;
    buf := ZeroBlock();
    forall b: nat | b < BPB ensures !Marks(buf, b) { ZeroMarks(b); }
    var i := 0;
    while i < used
      invariant 0 <= i <= used && |buf| == BSIZE
      invariant forall b: nat {:trigger Marks(buf, b)} :: b < BPB ==> (Marks(buf, b) <==> b < i)
    {
      ghost var was := buf;
      buf := buf[i / 8 := SetBit(buf[i / 8], i % 8)];
      forall b: nat | b < BPB ensures Marks(buf, b) <==> b < i + 1 { SetMarks(was, i, b); }
      i := i + 1;
    }
  }

  lemma ZeroMarks(b: nat)
    requires b < BPB
    ensures !Marks(ZeroBlock(), b)
  {
    ZeroBit(b % 8);
  }

  /** With the bitmap for m.free, a block from the data area on is marked exactly if it is in use for something. */
  lemma BitmapExact(m: M, buf: Block, b: nat)
    requires Ok(m) && |buf| == BSIZE && m.first <= b < BPB
    requires forall c: nat {:trigger Marks(buf, c)} :: c < BPB ==> (Marks(buf, c) <==> c < m.free)
    ensures Marks(buf, b) <==> b in m.own
  {
    assert OwnOk(m, b);
  }

  // ---- the image as the kernel sees it ----

  function SpotOf(u: Use): Fs.Spot { if u.Data? then Fs.Spot(u.i, u.bn) else Fs.Spot(u.i, NDIRECT) }

  /** The image with its bitmap, as a file system of the kernel; the bitmap is the block before the data. */
  function AsFs(m: M, buf: Block): Fs.F
    requires m.first >= 2 && m.first <= |m.bytes|
  {
    Fs.F(Fs.Layout(m.size, m.first - 1, m.first), m.bytes[m.first - 1 := buf], m.inodes,
         map a | a in m.own :: SpotOf(m.own[a]))
  }

  lemma AsFsUsed(m: M, buf: Block, b: nat)
    requires Sized(m) && m.first >= 2 && m.size < BPB && |buf| == BSIZE && b < m.size
    ensures Fs.Shaped(AsFs(m, buf)) && Fs.Used(AsFs(m, buf), b) == Marks(buf, b)
  {
    assert b % BPB == b && b / BPB == 0 && m.size / BPB == 0;
  }

  /** With files in direct blocks only, it is in good order, and holds the same files. */
  lemma KernelOk(m: M, buf: Block)
    requires Ok(m) && m.first >= 2 && m.size < BPB && |buf| == BSIZE
    requires forall c: nat {:trigger Marks(buf, c)} :: c < BPB ==> (Marks(buf, c) <==> c < m.free)
    requires forall i {:trigger m.inodes[i]} :: 0 <= i < |m.inodes| ==>
               |m.inodes[i].addrs| == NSLOTS && m.inodes[i].size <= NDIRECT * BSIZE && m.inodes[i].addrs[NDIRECT] == 0
    ensures Fs.Ok(AsFs(m, buf)) && |AsFs(m, buf).inodes| == |m.inodes|
    ensures forall i {:trigger Fs.Content(AsFs(m, buf), i)} :: 0 <= i < |m.inodes| ==>
              Fs.Content(AsFs(m, buf), i) == Content(m, i)
  {
    hide Marks, Fs.Used;
    var f := AsFs(m, buf);
    forall b: nat | b < m.size ensures Fs.Used(f, b) <==> b < m.free { AsFsUsed(m, buf, b); }
    AsFsUsed(m, buf, 0);
    forall b: nat ensures Fs.MetaOk(f, b) {}
    forall a: nat ensures Fs.OwnOk(f, a) { assert OwnOk(m, a); }
    forall i: nat, bn: nat ensures Fs.AddrOk(f, i, bn) {
      assert BlkOk(m, i, bn) && (bn < NDIRECT && i < |m.inodes| ==> Blk(m, i, bn) == m.inodes[i].addrs[bn]);
    }
    forall i: nat ensures Fs.InodeOk(f, i) {
      forall bn | 0 <= bn < NSLOTS && i < |m.inodes| && bn * BSIZE < m.inodes[i].size
        ensures m.inodes[i].addrs[bn] != 0
      {
        assert SizeOk(m, i, bn);
      }
    }
    forall i | 0 <= i < |m.inodes| ensures Fs.Content(f, i) == Content(m, i) { SameContent(m, buf, i); }
  }

  /** A file with a thirteenth block makes the image unsound for the kernel: it would take the indirect block for it. */
  lemma KernelNotOk(m: M, buf: Block, i: nat)
    requires Ok(m) && m.first >= 2 && m.size < BPB && |buf| == BSIZE
    requires i < |m.inodes| && m.inodes[i].size > NDIRECT * BSIZE
    ensures !Fs.Ok(AsFs(m, buf))
  {
    hide Marks, Fs.Used;
    var f, w := AsFs(m, buf), Blk(m, i, NDIRECT);
    AsFsUsed(m, buf, 0);
    assert SizeOk(m, i, NDIRECT) && BlkOk(m, i, NDIRECT) && IndOk(m, i);
    assert !Fs.OwnOk(f, w);
  }

  /** What the builder makes is sound for the kernel exactly if every file fits the direct blocks. */
  lemma KernelOkExactly(m: M, buf: Block)
    requires Ok(m) && m.first >= 2 && m.size < BPB && |buf| == BSIZE
    requires forall c: nat {:trigger Marks(buf, c)} :: c < BPB ==> (Marks(buf, c) <==> c < m.free)
    requires forall i {:trigger m.inodes[i]} :: 0 <= i < |m.inodes| ==> DirectOnly(m.inodes[i])
    ensures Fs.Ok(AsFs(m, buf)) <==>
              forall i {:trigger m.inodes[i]} :: 0 <= i < |m.inodes| ==> m.inodes[i].size <= NDIRECT * BSIZE
  {
    hide Ok, Marks, Fs.Ok;
    SizedOf(m);
    if i :| 0 <= i < |m.inodes| && m.inodes[i].size > NDIRECT * BSIZE {
      KernelNotOk(m, buf, i);
    } else {
      KernelOk(m, buf);
    }
  }

  lemma SameContent(m: M, buf: Block, i: nat)
    requires Ok(m) && m.first >= 2 && m.size < BPB && |buf| == BSIZE
    requires i < |m.inodes| && m.inodes[i].size <= NDIRECT * BSIZE
    ensures Fs.Content(AsFs(m, buf), i) == Content(m, i)
  {
    var f := AsFs(m, buf);
    AsFsUsed(m, buf, 0);
    forall k | 0 <= k < m.inodes[i].size ensures Fs.Content(f, i)[k] == Content(m, i)[k] {
      SizeHas(m, i, k);
      assert BlkOk(m, i, k / BSIZE) && OwnOk(m, Blk(m, i, k / BSIZE));
    }
  }

  /** For a block that the file has, the kernel's bmap gives the block the builder put there exactly if it is a direct
      one. For the thirteenth it gives the block of pointers; up to the 256th it reads past its array of pointers; and
      for the last twelve that the builder accepts it panics. */
  lemma KernelReads(m: M, i: nat, bn: nat)
    requires Ok(m) && i < |m.inodes| && bn * BSIZE < m.inodes[i].size
    ensures bn < MAXFILE
    ensures (LookupOf(bn) == Slot(bn) && bn < |m.inodes[i].addrs| && m.inodes[i].addrs[bn] == Blk(m, i, bn)) <==>
            bn < NDIRECT
    ensures bn == NDIRECT ==>
      LookupOf(bn) == Slot(bn) && m.inodes[i].addrs[bn] in m.own && m.own[m.inodes[i].addrs[bn]] == Indirect(i)
    ensures NDIRECT < bn < NINDIRECT <==> LookupOf(bn) == PastArray
    ensures NINDIRECT <= bn <==> LookupOf(bn) == OutOfRange
  {
    assert SizeOk(m, i, bn) && BlkOk(m, i, bn) && IndOk(m, i);
    LookupExactly(bn);
  }

  // ---- an empty image ----

  function Empty(size: nat, first: nat, ninodes: nat): M
    requires 0 < first <= size
  {
    M(size, first, seq(size, b => ZeroBlock()), seq(size, b => NoWords()),
      seq(ninodes, i => Inode(seq(NSLOTS, k => 0), 0)), first, map[])
  }

  function NoWords(): (w: seq<nat>)
    ensures |w| == NINDIRECT && forall k {:trigger w[k]} :: 0 <= k < NINDIRECT ==> w[k] == 0
  {
    seq(NINDIRECT, k => 0)
  }

  lemma EmptyOk(size: nat, first: nat, ninodes: nat)
    requires 0 < first <= size
    ensures Ok(Empty(size, first, ninodes)) && Tight(Empty(size, first, ninodes))
  {
    var m := Empty(size, first, ninodes);
    assert Sized(m);
    forall i: nat, bn: nat ensures Blk(m, i, bn) == 0 {}
    forall i: nat, bn: nat ensures BlkOk(m, i, bn) {}
    forall i: nat ensures IndOk(m, i) {}
    forall a: nat ensures OwnOk(m, a) {}
    forall a: nat ensures FreshOk(m, a) {}
    forall i: nat, bn: nat ensures SizeOk(m, i, bn) {}
  }
}
