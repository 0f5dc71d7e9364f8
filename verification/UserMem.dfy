/** The memory of a space as a program sees it: a byte for each address that is mapped for it. */
module UserMem {

  import opened Paging
  import opened Tables
  import opened Spaces

  predicate Readable(s: Frames, r: nat, va: nat) {
    va <= VA_MAX && IsV(Slot(s, r, PageOf(va))) && IsU(Slot(s, r, PageOf(va)))
  }

  predicate Writable(s: Frames, r: nat, va: nat) { Readable(s, r, va) && Bit(Slot(s, r, PageOf(va)), PTE_W) }

  predicate IsPage(s: Frames, f: nat) { f in s.data && |s.data[f]| == PGSIZE }

  function ByteAt(s: Frames, r: nat, va: nat): nat {
    var f := PTE2PA(Slot(s, r, PageOf(va)));
    if IsPage(s, f) then s.data[f][va % PGSIZE] else 0
  }

  /** Every user page has its bytes. */
  ghost predicate Backed(s: Frames) {
    forall r, pg {:trigger Slot(s, r, pg)} :: IsV(Slot(s, r, pg)) && IsU(Slot(s, r, pg)) ==>
        IsPage(s, PTE2PA(Slot(s, r, pg)))
  }

  /** The first n bytes of src are at dst, and every other byte of every space is as before. */
  ghost predicate Written(s: Frames, g: Frames, r: nat, dst: nat, src: seq<nat>, n: nat)
    requires n <= |src|
  {
    && g.tab == s.tab && g.free == s.free && g.own == s.own && g.at == s.at
    && (forall q: nat, va: nat {:trigger ByteAt(g, q, va)} :: Readable(s, q, va) ==>
          ByteAt(g, q, va) == if q == r && dst <= va < dst + n then src[va - dst] else ByteAt(s, q, va))
    && (forall f {:trigger f in s.data} {:trigger f in g.data} :: f in s.data ==>
          f in g.data && |g.data[f]| == |s.data[f]| && ((f in s.own && s.own[f].User? &&
              s.own[f].r == r) || g.data[f] == s.data[f]))
  }

  lemma WrittenNone(s: Frames, r: nat, dst: nat, src: seq<nat>)
    ensures Written(s, s, r, dst, src, 0)
  {}

  /** An address is on the page of its rounded address. */
  lemma PageOfDown(a: nat)
    ensures PageOf(TrueDown(a)) == PageOf(a) && TrueDown(a) <= a < TrueDown(a) + PGSIZE && a % PGSIZE == a - TrueDown(a)
  {
    var v := a / PGSIZE;
    assert TrueDown(a) / PGSIZE == v;
    assert a / 0x20_0000 == v / 512 && a / 0x4000_0000 == v / 512 / 512;
    assert TrueDown(a) / 0x20_0000 == v / 512 && TrueDown(a) / 0x4000_0000 == v / 512 / 512;
  }

  lemma DownInRange(a: nat)
    requires a < HALF
    ensures RoundDown(a) == TrueDown(a)
  {
    RoundDownExactly(a);
  }

  /** memmove into part of a page. */
  function Patch(page: seq<nat>, off: nat, bytes: seq<nat>): (p: seq<nat>)
    requires off + |bytes| <= |page|
    ensures |p| == |page|
    ensures forall k {:trigger p[k]} :: 0 <= k < |p| ==>
            p[k] == if off <= k < off + |bytes| then bytes[k - off] else page[k]
  {
    page[..off] + bytes + page[off + |bytes|..]
  }

  /** Two mapped addresses with the same frame are on the same page of the same space. */
  lemma Unshared(s: Frames, r: nat, a: nat, q: nat, b: nat)
    requires Ok(s) && Readable(s, r, a) && Readable(s, q, b)
    requires PTE2PA(Slot(s, r, PageOf(a))) == PTE2PA(Slot(s, q, PageOf(b)))
    ensures r == q && a / PGSIZE == b / PGSIZE
  {
    hide PX, Slot, PTE2PA, IsV, IsU;
    MappedFrame(s, r, PageOf(a));
    MappedFrame(s, q, PageOf(b));
    PageInjective(a, b);
  }

  lemma SameBytePlace(a: nat, b: nat, cnt: nat)
    requires a / PGSIZE == b / PGSIZE && a % PGSIZE + cnt <= PGSIZE
    ensures a % PGSIZE <= b % PGSIZE < a % PGSIZE + cnt <==> a <= b < a + cnt
    ensures b % PGSIZE - a % PGSIZE == b - a
  {}

  lemma OtherPlace(a: nat, b: nat, cnt: nat)
    requires a / PGSIZE != b / PGSIZE && a % PGSIZE + cnt <= PGSIZE
    ensures !(a <= b < a + cnt)
  {}

  /** One page's share of a copyout. */
  lemma WriteStep(s: Frames, g: Frames, h: Frames, r: nat, dst: nat, src: seq<nat>, n: nat, cnt: nat, f: nat)
    requires Ok(s) && n + cnt <= |src| && Written(s, g, r, dst, src, n) && Readable(s, r, dst + n)
    requires (dst + n) % PGSIZE + cnt <= PGSIZE && f == PTE2PA(Slot(s, r, PageOf(dst + n))) && IsPage(g, f)
    requires h == g.(data := g.data[f := Patch(g.data[f], (dst + n) % PGSIZE, src[n..n + cnt])])
    ensures Written(s, h, r, dst, src, n + cnt)
  {
    hide Ok, PX, Slot, PTE2PA, IsV, IsU, Readable, ByteAt;
    forall q: nat, va: nat | Readable(s, q, va)
      ensures ByteAt(h, q, va) == if q == r && dst <= va < dst + (n + cnt) then src[va - dst] else ByteAt(s, q, va) {
      WriteStepByte(s, g, h, r, dst, src, n, cnt, f, q, va);
    }
    OwnedByReader(s, r, dst + n);
  }

  lemma OwnedByReader(s: Frames, r: nat, a: nat)
    requires Ok(s) && Readable(s, r, a)
    ensures var f := PTE2PA(Slot(s, r, PageOf(a))); f in s.own && s.own[f].User? && s.own[f].r == r && f != 0
  {
    MappedFrame(s, r, PageOf(a));
    assert OwnOk(s, PTE2PA(Slot(s, r, PageOf(a))));
  }

  lemma WriteStepByte(s: Frames, g: Frames, h: Frames, r: nat, dst: nat, src: seq<nat>, n: nat, cnt: nat, f: nat,
      q: nat, va: nat)
    requires Ok(s) && n + cnt <= |src| && Written(s, g, r, dst, src, n) && Readable(s, r, dst + n) && Readable(s, q, va)
    requires (dst + n) % PGSIZE + cnt <= PGSIZE && f == PTE2PA(Slot(s, r, PageOf(dst + n))) && IsPage(g, f)
    requires h == g.(data := g.data[f := Patch(g.data[f], (dst + n) % PGSIZE, src[n..n + cnt])])
    ensures ByteAt(h, q, va) == if q == r && dst <= va < dst + (n + cnt) then src[va - dst] else ByteAt(s, q, va)
  {
    hide Ok, PX, Slot, PTE2PA, IsV, IsU, Readable;
    var a := dst + n;
    assert ByteAt(g, q, va) == if q == r && dst <= va < dst + n then src[va - dst] else ByteAt(s, q, va);
    SlotOfOwn(s, g, q, PageOf(va));
    SlotOfOwn(s, h, q, PageOf(va));
    var x := PTE2PA(Slot(s, q, PageOf(va)));
    if x == f {
      Unshared(s, r, a, q, va);
      SameBytePlace(a, va, cnt);
    } else {
      if q == r && a / PGSIZE == va / PGSIZE {
        SamePage(a, va);
        assert false;
      }
      OtherPlaceIfSpace(q, r, a, va, cnt);
    }
  }

  lemma OtherPlaceIfSpace(q: nat, r: nat, a: nat, b: nat, cnt: nat)
    requires q == r ==> a / PGSIZE != b / PGSIZE
    requires a % PGSIZE + cnt <= PGSIZE
    ensures !(q == r && a <= b < a + cnt)
  {
    if q == r { OtherPlace(a, b, cnt); }
  }

  lemma SamePage(a: nat, b: nat)
    requires a / PGSIZE == b / PGSIZE
    ensures PageOf(a) == PageOf(b)
  {
    PageOfDown(a);
    PageOfDown(b);
  }

  ghost predicate AllWritable(s: Frames, r: nat, va: nat, n: nat) {
    forall a: nat {:trigger Writable(s, r, a)} :: va <= a < va + n ==> Writable(s, r, a)
  }

  ghost predicate AllReadable(s: Frames, r: nat, va: nat, n: nat) {
    forall a: nat {:trigger Readable(s, r, a)} :: va <= a < va + n ==> Readable(s, r, a)
  }

  /** What may be done at one address may be done on the rest of its page. */
  lemma PageWritable(s: Frames, r: nat, va: nat, n: nat, cnt: nat)
    requires AllWritable(s, r, va, n) && (cnt > 0 ==>
             Writable(s, r, va + n)) && (va + n) % PGSIZE + cnt <= PGSIZE && va + n + cnt <= VA_MAX
    ensures AllWritable(s, r, va, n + cnt)
  {
    hide PX, Slot, IsV, IsU, Bit;
    forall a: nat | va <= a < va + n + cnt ensures Writable(s, r, a) {
      if a >= va + n {
        OnSamePage(va + n, a - (va + n), cnt);
        SamePage(va + n, a);
      }
    }
  }

  lemma PageReadable(s: Frames, r: nat, va: nat, n: nat, cnt: nat)
    requires AllReadable(s, r, va, n) && (cnt > 0 ==>
             Readable(s, r, va + n)) && (va + n) % PGSIZE + cnt <= PGSIZE && va + n + cnt <= VA_MAX
    ensures AllReadable(s, r, va, n + cnt)
  {
    hide PX, Slot, IsV, IsU;
    forall a: nat | va <= a < va + n + cnt ensures Readable(s, r, a) {
      if a >= va + n {
        OnSamePage(va + n, a - (va + n), cnt);
        SamePage(va + n, a);
      }
    }
  }

  lemma OnSamePage(a: nat, d: nat, cnt: nat)
    requires a % PGSIZE + cnt <= PGSIZE && d < cnt
    ensures (a + d) / PGSIZE == a / PGSIZE && (a + d) % PGSIZE == a % PGSIZE + d
  {}

  /** The bytes of a page seen through the space. */
  lemma BytesOfPage(s: Frames, r: nat, a: nat, cnt: nat, k: nat)
    requires Readable(s, r, a) && a % PGSIZE + cnt <= PGSIZE && k < cnt && IsPage(s, PTE2PA(Slot(s, r, PageOf(a))))
    ensures s.data[PTE2PA(Slot(s, r, PageOf(a)))][a % PGSIZE + k] == ByteAt(s, r, a + k)
  {
    hide PX, Slot, IsV, IsU, PTE2PA;
    OnSamePage(a, k, cnt);
    SamePage(a, a + k);
  }

  lemma WrittenOk(s: Frames, g: Frames, r: nat, dst: nat, src: seq<nat>, n: nat)
    requires Ok(s) && Backed(s) && n <= |src| && Written(s, g, r, dst, src, n)
    ensures Ok(g) && Backed(g)
    ensures forall q, pg {:trigger Slot(g, q, pg)} :: Slot(g, q, pg) == Slot(s, q, pg)
  {
    hide PX, Slot, IsV, IsU, PTE2PA, ByteAt, Readable;
    SameTables(s, g);
    forall q, pg | IsV(Slot(g, q, pg)) && IsU(Slot(g, q, pg)) ensures IsPage(g, PTE2PA(Slot(g, q, pg))) {
      assert Slot(g, q, pg) == Slot(s, q, pg);
      assert IsPage(s, PTE2PA(Slot(s, q, pg)));
    }
  }

  /** What copyout has written, copyin can read, and it reads the same bytes. */
  lemma ReadsBack(s: Frames, g: Frames, r: nat, dst: nat, src: seq<nat>, buf: seq<nat>)
    requires Ok(s) && Backed(s) && Written(s, g, r, dst, src, |src|) && AllWritable(s, r, dst, |src|)
    requires |buf| == |src| && forall k {:trigger buf[k]} :: 0 <= k < |buf| ==> buf[k] == ByteAt(g, r, dst + k)
    ensures AllReadable(g, r, dst, |src|) && buf == src
  {
    hide PX, Slot, IsV, IsU, PTE2PA, ByteAt, Bit, Ok;
    WrittenOk(s, g, r, dst, src, |src|);
    forall a: nat | dst <= a < dst + |src| ensures Readable(g, r, a) && buf[a - dst] == src[a - dst] {
      assert Writable(s, r, a);
      assert Slot(g, r, PageOf(a)) == Slot(s, r, PageOf(a));
      assert ByteAt(g, r, a) == src[a - dst];
      assert buf[a - dst] == ByteAt(g, r, dst + (a - dst));
    }
    forall k | 0 <= k < |src| ensures buf[k] == src[k] { assert buf[dst + k - dst] == src[dst + k - dst]; }
  }

  lemma NoneWritable(s: Frames, r: nat, va: nat)
    ensures AllWritable(s, r, va, 0)
  {}

  lemma NoneReadable(s: Frames, r: nat, va: nat)
    ensures AllReadable(s, r, va, 0)
  {}

  lemma NotReadable(s: Frames, r: nat, va: nat)
    requires KeyAt(r, va, 0) !in s.at
    ensures Slot(s, r, PageOf(va)) == 0 && !IsV(Slot(s, r, PageOf(va))) && !Readable(s, r, va)
  {
    ZeroInvalid();
  }

  lemma SameReadable(s: Frames, r: nat, a: nat, b: nat)
    requires PageOf(a) == PageOf(b) && a <= VA_MAX && b <= VA_MAX
    ensures Readable(s, r, a) <==> Readable(s, r, b)
  {}

  lemma NotAllReadable(s: Frames, r: nat, va: nat, n: nat, a: nat, b: nat)
    requires !Readable(s, r, b) && va <= a < va + n && PageOf(a) == PageOf(b) && a <= VA_MAX && b <= VA_MAX
    ensures !AllReadable(s, r, va, n)
  {
    SameReadable(s, r, a, b);
  }

  lemma PageBytes(s: Frames, r: nat, pg: Page)
    requires Backed(s) && IsV(Slot(s, r, pg)) && IsU(Slot(s, r, pg))
    ensures IsPage(s, PTE2PA(Slot(s, r, pg)))
  {}

  lemma Longer(s: Frames, r: nat, src: nat, buf: seq<nat>, bytes: seq<nat>)
    requires forall k {:trigger buf[k]} :: 0 <= k < |buf| ==> buf[k] == ByteAt(s, r, src + k)
    requires forall k {:trigger bytes[k]} :: 0 <= k < |bytes| ==> bytes[k] == ByteAt(s, r, src + |buf| + k)
    ensures forall k {:trigger (buf + bytes)[k]} :: 0 <= k < |buf + bytes| ==> (buf + bytes)[k] == ByteAt(s, r, src + k)
  {
    hide ByteAt;
    forall k | 0 <= k < |buf + bytes| ensures (buf + bytes)[k] == ByteAt(s, r, src + k) {
      if k >= |buf| {
        assert (buf + bytes)[k] == bytes[k - |buf|];
        assert src + |buf| + (k - |buf|) == src + k;
      }
    }
  }

  /** The bytes from src on are str, which has no NUL in it. */
  ghost predicate IsText(s: Frames, r: nat, src: nat, str: seq<nat>) {
    && AllReadable(s, r, src, |str|)
    && forall k {:trigger str[k]} :: 0 <= k < |str| ==> str[k] == ByteAt(s, r, src + k) && str[k] != 0
  }

  lemma NoText(s: Frames, r: nat, src: nat)
    ensures IsText(s, r, src, [])
  {}

  lemma MoreText(s: Frames, r: nat, src: nat, str: seq<nat>, c: nat)
    requires IsText(s, r, src, str) && Readable(s, r, src + |str|) && c == ByteAt(s, r, src + |str|) && c != 0
    ensures IsText(s, r, src, str + [c])
  {
    hide ByteAt, Readable;
  }

  lemma ReadableOn(s: Frames, r: nat, a: nat, cnt: nat, k: nat)
    requires Readable(s, r, a) && a % PGSIZE + cnt <= PGSIZE && k < cnt && a + cnt <= VA_MAX
    ensures Readable(s, r, a + k)
  {
    hide PX, Slot, IsV, IsU;
    OnSamePage(a, k, cnt);
    SamePage(a, a + k);
  }

  /** A place where copyinstr would stop with success is the only such place. */
  lemma OneText(s: Frames, r: nat, src: nat, x: seq<nat>, y: seq<nat>)
    requires IsText(s, r, src, x) && ByteAt(s, r, src + |x|) == 0 && IsText(s, r, src, y) &&
             ByteAt(s, r, src + |y|) == 0
    ensures x == y
  {
    hide ByteAt, Readable;
    NoNulBefore(s, r, src, x, |y|);
    NoNulBefore(s, r, src, y, |x|);
    forall k | 0 <= k < |x| ensures x[k] == y[k] {}
  }

  lemma NoNulBefore(s: Frames, r: nat, src: nat, x: seq<nat>, n: nat)
    requires IsText(s, r, src, x) && ByteAt(s, r, src + n) == 0
    ensures |x| <= n
  {
    hide ByteAt, Readable;
    if |x| > 0 {
      var k := if n < |x| then n else 0;
      assert x[k] == ByteAt(s, r, src + k) && x[k] != 0;
    }
  }

  /** Pages made by uvm_alloc have their bytes. */
  lemma AllocBacked(s: Frames, g: Frames, r: nat, v: nat, m: nat, goal: Goal)
    requires Ok(s) && Backed(s) && AllocTo(s, g, r, v, m, goal)
    requires goal.CopyOf? ==> forall pg {:trigger Slot(s, goal.o, pg)} :: Due(s, goal, pg, v, m) ==>
               IsU(Slot(s, goal.o, pg))
    ensures Backed(g)
  {
    hide Slot, IsV, IsU, PTE2PA, In, Ok;
    forall q, pg | IsV(Slot(g, q, pg)) && IsU(Slot(g, q, pg)) ensures IsPage(g, PTE2PA(Slot(g, q, pg))) {
      if q == r && Due(s, goal, pg, v, m) {
        assert NewPage(s, g, r, pg, goal);
        if goal.CopyOf? { assert IsPage(s, PTE2PA(Slot(s, goal.o, pg))); }
      } else {
        assert Slot(g, q, pg) == Slot(s, q, pg);
        MappedFrame(s, q, pg);
        assert PTE2PA(Slot(s, q, pg)) in s.data && PTE2PA(Slot(s, q, pg)) in g.data;
      }
    }
  }

  lemma UnmapBacked(s: Frames, g: Frames, r: nat, v: nat, m: nat, freed: bool)
    requires Ok(s) && UnmappedTo(s, g, r, v, m, freed)
    ensures Backed(s) ==> Backed(g)
  {
    hide Slot, IsV, IsU, PTE2PA, In, Ok;
    ZeroInvalid();
    if Backed(s) {
      forall q, pg | IsV(Slot(g, q, pg)) && IsU(Slot(g, q, pg)) ensures IsPage(g, PTE2PA(Slot(g, q, pg))) {
        assert Slot(g, q, pg) == if q == r && In(pg, v, m) && IsV(Slot(s, q, pg)) then 0 else Slot(s, q, pg);
        MappedFrame(s, q, pg);
        assert IsPage(s, PTE2PA(Slot(s, q, pg))) && PTE2PA(Slot(s, q, pg)) in g.data;
      }
    }
  }

  lemma RestoredBacked(s: Frames, g: Frames)
    requires Ok(s) && Backed(s) && Restored(s, g)
    ensures Backed(g)
  {
    hide Slot, IsV, IsU, PTE2PA, Ok;
    forall q, pg | IsV(Slot(g, q, pg)) && IsU(Slot(g, q, pg)) ensures IsPage(g, PTE2PA(Slot(g, q, pg))) {
      assert Meaning(Slot(g, q, pg)) == Meaning(Slot(s, q, pg));
      ZeroInvalid();
      MappedFrame(s, q, pg);
      assert IsPage(s, PTE2PA(Slot(s, q, pg))) && PTE2PA(Slot(s, q, pg)) in g.data;
    }
  }

  lemma NoSlots(s: Frames)
    requires s.at == map[]
    ensures Backed(s)
  {
    ZeroInvalid();
  }
}
