/** The page table of a process: how it is made and freed, and what becomes of it when fork runs out of memory. */
module Pagetable {

  import opened Paging
  import opened Tables
  import opened Spaces
  import opened Budget
  import opened Vm

  const TRAMPOLINE := VA_MAX - PGSIZE
  const TRAPFRAME := TRAMPOLINE - PGSIZE

  /** The two pages that every process has at the end of its space. */
  predicate AtEnd(pg: Page) { pg == PageOf(TRAMPOLINE) || pg == PageOf(TRAPFRAME) }

  lemma Ends(pg: Page)
    ensures PageOf(TRAMPOLINE) == Page(255, 511, 511) && PageOf(TRAPFRAME) == Page(255, 511, 510)
    ensures In(pg, TRAMPOLINE / PGSIZE, 1) <==> pg == PageOf(TRAMPOLINE)
    ensures In(pg, TRAPFRAME / PGSIZE, 1) <==> pg == PageOf(TRAPFRAME)
  {
    OnePage(TRAMPOLINE, pg);
    OnePage(TRAPFRAME, pg);
  }

  // ---- free_pagetable ----

  /** State e2 is e after uvm_unmap of the two pages at the end. */
  lemma EndsUnmapped(e: Frames, e1: Frames, e2: Frames, r: nat, q: nat, pg: Page)
    requires UnmappedTo(e, e1, r, TRAMPOLINE / PGSIZE, 1, false) && UnmappedTo(e1, e2, r, TRAPFRAME / PGSIZE, 1, false)
    ensures Slot(e2, q, pg) == if q == r && AtEnd(pg) && IsV(Slot(e, q, pg)) then 0 else Slot(e, q, pg)
  {
    hide Slot, IsV, PageOf, In, OwnUnmapped;
    Ends(pg);
    ZeroInvalid();
    assert Slot(e1, q, pg) ==
           if q == r && In(pg, TRAMPOLINE / PGSIZE, 1) && IsV(Slot(e, q, pg)) then 0 else Slot(e, q, pg);
    assert Slot(e2, q, pg) ==
           if q == r && In(pg, TRAPFRAME / PGSIZE, 1) && IsV(Slot(e1, q, pg)) then 0 else Slot(e1, q, pg);
  }

  /** Every mapped page is at the end or one of the first n. */
  ghost predicate EndsOnly(s: Frames, r: nat, n: nat) {
    forall pg: Page {:trigger Slot(s, r, pg)} :: IsV(Slot(s, r, pg)) ==> AtEnd(pg) || In(pg, 0, n)
  }

  lemma EndIsHigh(pg: Page, n: nat)
    requires n < 0x10_0000 && In(pg, 0, n)
    ensures !AtEnd(pg)
  {
    Ends(pg);
  }

  lemma EndsBelow(e: Frames, e1: Frames, e2: Frames, r: nat, n: nat)
    requires UnmappedTo(e, e1, r, TRAMPOLINE / PGSIZE, 1, false) && UnmappedTo(e1, e2, r, TRAPFRAME / PGSIZE, 1, false)
    requires n < 0x10_0000
    ensures AllBelow(e2, r, n) <==> EndsOnly(e, r, n)
    ensures forall pg {:trigger Slot(e2, r, pg)} :: In(pg, 0, n) ==> Slot(e2, r, pg) == Slot(e, r, pg)
  {
    hide Slot, IsV, UnmappedTo, AtEnd, In;
    ZeroInvalid();
    forall pg: Page
      ensures Slot(e2, r, pg) == if AtEnd(pg) && IsV(Slot(e, r, pg)) then 0 else Slot(e, r, pg)
      ensures In(pg, 0, n) ==> !AtEnd(pg)
    {
      EndsUnmapped(e, e1, e2, r, r, pg);
      if In(pg, 0, n) { EndIsHigh(pg, n); }
    }
    if AllBelow(e2, r, n) {
      forall pg: Page | IsV(Slot(e, r, pg)) ensures AtEnd(pg) || In(pg, 0, n) {
        assert AtEnd(pg) || IsV(Slot(e2, r, pg));
      }
    }
  }

  lemma EndsCannot(e: Frames, e1: Frames, e2: Frames, r: nat, n: nat)
    requires UnmappedTo(e, e1, r, TRAMPOLINE / PGSIZE, 1, false) && UnmappedTo(e1, e2, r, TRAPFRAME / PGSIZE, 1, false)
    requires n < 0x10_0000
    ensures Unmappable(e2, r, 0, n) <==> Unmappable(e, r, 0, n)
  {
    hide CannotAt, UnmappedTo;
    forall k: nat | k < n ensures CannotAt(e2, r, 0, k) <==> CannotAt(e, r, 0, k) { EndsCannotAt(e, e1, e2, r, n, k); }
    if Unmappable(e2, r, 0, n) {
      forall k: nat | k < n ensures !CannotAt(e, r, 0, k) { assert !CannotAt(e2, r, 0, k); }
    }
  }

  lemma EndsCannotAt(e: Frames, e1: Frames, e2: Frames, r: nat, n: nat, k: nat)
    requires UnmappedTo(e, e1, r, TRAMPOLINE / PGSIZE, 1, false) && UnmappedTo(e1, e2, r, TRAPFRAME / PGSIZE, 1, false)
    requires k < n < 0x10_0000
    ensures CannotAt(e2, r, 0, k) <==> CannotAt(e, r, 0, k)
  {
    hide Slot, IsV, UnmappedTo, AtEnd, PX;
    SameAt(e, e1, e2, r);
    VpnOf(PGSIZE * k);
    EndIsHigh(PageOf(PGSIZE * k), n);
    EndsUnmapped(e, e1, e2, r, r, PageOf(PGSIZE * k));
  }

  lemma SameAt(e: Frames, e1: Frames, e2: Frames, r: nat)
    requires UnmappedTo(e, e1, r, TRAMPOLINE / PGSIZE, 1, false) && UnmappedTo(e1, e2, r, TRAPFRAME / PGSIZE, 1, false)
    ensures e2.at == e.at
  {}

  /** Both pages at the end can be unmapped. */
  predicate EndsOk(s: Frames, r: nat) { !CannotUnmap(s, r, TRAMPOLINE) && !CannotUnmap(s, r, TRAPFRAME) }

  lemma EndsStill(e: Frames, e1: Frames, r: nat)
    requires UnmappedTo(e, e1, r, TRAMPOLINE / PGSIZE, 1, false)
    ensures CannotUnmap(e1, r, TRAPFRAME) <==> CannotUnmap(e, r, TRAPFRAME)
  {
    hide Slot, IsV;
    Ends(PageOf(TRAPFRAME));
    assert Slot(e1, r, PageOf(TRAPFRAME)) == Slot(e, r, PageOf(TRAPFRAME));
  }

  lemma OneAt(s: Frames, r: nat, va: nat)
    ensures Unmappable(s, r, va, 1) <==> !CannotUnmap(s, r, va)
  {
    assert CannotAt(s, r, va, 0) <==> CannotUnmap(s, r, va);
  }

  /** free_pagetable: gets through exactly if both pages at the end and the first sz bytes can be unmapped, and no other
      page is mapped. */
  method FreePagetable(mem: Memory, r: nat, sz: nat) returns (res: FreeResult)
    requires Ok(mem.S()) && Root(r) in mem.at
    requires forall pg {:trigger Slot(mem.S(), r, pg)} :: In(pg, 0, PagesOf(sz)) && IsV(Slot(mem.S(), r, pg)) ==>
               IsU(Slot(mem.S(), r, pg))
    modifies mem
    ensures res == Freed <==>
              EndsOk(old(mem.S()), r) && Unmappable(old(mem.S()), r, 0, PagesOf(sz)) &&
              EndsOnly(old(mem.S()), r, PagesOf(sz))
    ensures res == Freed ==> Ok(mem.S()) && Root(r) !in mem.at
    ensures res == Freed ==> forall q: nat, pg {:trigger Slot(mem.S(), q, pg)} :: q != r ==>
              Meaning(Slot(mem.S(), q, pg)) == Meaning(Slot(old(mem.S()), q, pg))
  {
    hide Ok, UnmappedTo, EndsOnly, AllBelow, Unmappable, CannotUnmap, Slot, PageOf, Released, PagesOf;
    ghost var e := mem.S();
    OneAt(e, r, TRAMPOLINE);
    var ok, m := mem.UvmUnmap(r, TRAMPOLINE, 1, false);
    if !ok { return UnmapPanic; }
    ghost var e1 := mem.S();
    EndsStill(e, e1, r);
    OneAt(e1, r, TRAPFRAME);
    RootStays(e, e1, r);
    ok, m := mem.UvmUnmap(r, TRAPFRAME, 1, false);
    if !ok { return UnmapPanic; }
    ghost var e2 := mem.S();
    SameAt(e, e1, e2, r);
    RoundUpPages(sz);
    EndsBelow(e, e1, e2, r, PagesOf(sz));
    EndsCannot(e, e1, e2, r, PagesOf(sz));
    res := mem.UvmFree(r, sz);
    if res == Freed { ReleasedEnds(e, e1, e2, mem.S(), r); }
  }

  lemma RootStays(e: Frames, e1: Frames, r: nat)
    requires UnmappedTo(e, e1, r, TRAMPOLINE / PGSIZE, 1, false) && Root(r) in e.at
    ensures Root(r) in e1.at
  {}

  lemma ReleasedEnds(e: Frames, e1: Frames, e2: Frames, g: Frames, r: nat)
    requires UnmappedTo(e, e1, r, TRAMPOLINE / PGSIZE, 1, false) && UnmappedTo(e1, e2, r, TRAPFRAME / PGSIZE, 1, false)
    requires Released(e2, g, r)
    ensures Root(r) !in g.at
    ensures forall q: nat, pg {:trigger Slot(g, q, pg)} :: q != r ==> Meaning(Slot(g, q, pg)) == Meaning(Slot(e, q, pg))
  {
    hide Slot, IsV, PageOf, UnmappedTo, Meaning, OwnReleased;
    forall q: nat, pg | q != r ensures Meaning(Slot(g, q, pg)) == Meaning(Slot(e, q, pg)) {
      EndsUnmapped(e, e1, e2, r, q, pg);
    }
  }

  // ---- alloc_pagetable ----

  /** A space as alloc_pagetable makes it: the two pages at the end, which are no user pages, and the tables on the way
      to them. */
  ghost predicate NewSpace(s: Frames, r: nat) {
    && Root(r) in s.at && EndsOnly(s, r, 0) && EndsOk(s, r)
    && (forall k {:trigger k in s.at} :: k in s.at && k.r == r ==> k == Root(r) || k in Path(r, TRAMPOLINE))
  }

  lemma SamePath(r: nat)
    ensures Path(r, TRAPFRAME) == Path(r, TRAMPOLINE) == {Mid(r, 255), Low(r, 255, 511)}
    ensures KeyAt(r, TRAPFRAME, 0) == KeyAt(r, TRAMPOLINE, 0) == Low(r, 255, 511)
  {}

  /** A space without a root has no table and no page. */
  lemma NoRoot(s: Frames, r: nat, k: Key)
    requires Ok(s) && Root(r) !in s.at && k.r == r
    ensures k !in s.at
  {
    assert KeyOk(s, k);
    if k.Low? { assert KeyOk(s, Mid(r, k.i)); }
  }

  /** s1 is s with an empty space r. */
  ghost predicate Created(s: Frames, s1: Frames, r: nat) {
    && Ok(s) && Root(r) !in s.at && s1.at == s.at[Root(r) := r] && r in s.own && s.own[r] == Free
    && s1.own == s.own[r := Table(Root(r))] && |s1.free| == |s.free| - 1
    && (forall f {:trigger f in s1.data} :: f in s.data && f != r ==> f in s1.data && s1.data[f] == s.data[f])
    && forall q, pg {:trigger Slot(s1, q, pg)} :: Slot(s1, q, pg) == Slot(s, q, pg)
  }

  lemma CreatedEmpty(s: Frames, s1: Frames, r: nat)
    requires Created(s, s1, r)
    ensures forall pg {:trigger Slot(s1, r, pg)} :: Slot(s1, r, pg) == 0
    ensures s1.at.Keys !! Path(r, TRAMPOLINE) && |s1.at| == |s.at| + 1
  {
    hide Ok, KeyAt;
    forall pg ensures Slot(s1, r, pg) == 0 {
      NoRoot(s, r, Low(r, pg.i, pg.j));
      assert Slot(s1, r, pg) == Slot(s, r, pg);
    }
    SamePath(r);
    NoRoot(s, r, Mid(r, 255));
    NoRoot(s, r, Low(r, 255, 511));
  }

  /** What the first map_pages takes: with fewer than three frames at first it fails, with more it does not. */
  lemma EndCost(s: Frames, s1: Frames, s2: Frames, r: nat, done: bool)
    requires Created(s, s1, r) && |s2.free| + |s2.at| == |s1.free| + |s1.at|
    requires s1.at.Keys <= s2.at.Keys <= s1.at.Keys + Path(r, TRAMPOLINE)
    requires if done then Path(r, TRAMPOLINE) <= s2.at.Keys else s2.free == [] && KeyAt(r, TRAMPOLINE, 0) !in s2.at
    ensures if done then |s.free| == |s2.free| + 3 else |s.free| < 3
  {
    hide Ok, Slot, KeyAt;
    CreatedEmpty(s, s1, r);
    SamePath(r);
    Sizes(s1.at.Keys, s2.at.Keys);
    if done {
      assert s2.at.Keys - s1.at.Keys == {Mid(r, 255), Low(r, 255, 511)};
    } else {
      Sizes(s2.at.Keys - s1.at.Keys, {Mid(r, 255)});
    }
  }

  lemma EndWord(f: nat, flag: nat)
    requires FrameOk(f) && (flag == PTE_R + PTE_X || flag == PTE_R + PTE_W)
    ensures IsV(PteWord(f, flag)) && PteFlags(PteWord(f, flag)) != PTE_V
  {
    PteRoundTrip(f, flag + 1);
    WordOk(f, flag);
  }

  lemma EndSlots(s1: Frames, s2: Frames, s3: Frames, r: nat, tramp: nat, tf: nat, pg: Page)
    requires forall x {:trigger Slot(s1, r, x)} :: Slot(s1, r, x) == 0
    requires MappedTo(s1, s2, r, TRAMPOLINE, tramp, PTE_R + PTE_X, 1)
    requires MappedTo(s2, s3, r, TRAPFRAME, tf, PTE_R + PTE_W, 1)
    ensures Slot(s3, r, pg) == if pg == PageOf(TRAMPOLINE) then PteWord(tramp, PTE_R + PTE_X)
                               else if pg == PageOf(TRAPFRAME) then PteWord(tf, PTE_R + PTE_W) else 0
  {
    hide Slot, PteWord, OwnAfter, PageOf, PX;
    Ends(pg);
    assert Slot(s2, r, pg) == if In(pg, TRAMPOLINE / PGSIZE, 1)
                              then WordAt(pg, TRAMPOLINE / PGSIZE, tramp, PTE_R + PTE_X) else Slot(s1, r, pg);
    assert Slot(s3, r, pg) == if In(pg, TRAPFRAME / PGSIZE, 1)
                              then WordAt(pg, TRAPFRAME / PGSIZE, tf, PTE_R + PTE_W) else Slot(s2, r, pg);
  }

  lemma NewSpaceIs(s: Frames, s1: Frames, s2: Frames, s3: Frames, r: nat, tramp: nat, tf: nat)
    requires Created(s, s1, r) && FrameOk(tramp) && FrameOk(tf)
    requires MappedTo(s1, s2, r, TRAMPOLINE, tramp, PTE_R + PTE_X, 1)
    requires MappedTo(s2, s3, r, TRAPFRAME, tf, PTE_R + PTE_W, 1)
    requires s3.at.Keys == s2.at.Keys == s1.at.Keys + Path(r, TRAMPOLINE)
    ensures NewSpace(s3, r)
  {
    hide Ok, MappedTo, Slot, PteWord, PageOf, IsV, PX, FrameOk, PteFlags;
    CreatedEmpty(s, s1, r);
    SamePath(r);
    ZeroInvalid();
    EndWord(tramp, PTE_R + PTE_X);
    EndWord(tf, PTE_R + PTE_W);
    forall pg ensures Slot(s3, r, pg) == if pg == PageOf(TRAMPOLINE) then PteWord(tramp, PTE_R + PTE_X)
                                         else if pg == PageOf(TRAPFRAME) then PteWord(tf, PTE_R + PTE_W) else 0 {
      EndSlots(s1, s2, s3, r, tramp, tf, pg);
    }
    forall k | k in s3.at && k.r == r ensures k == Root(r) || k in Path(r, TRAMPOLINE) {
      if k in s.at { NoRoot(s, r, k); }
    }
    Ends(PageOf(TRAMPOLINE));
    assert KeyAt(r, TRAMPOLINE, 0) in s3.at.Keys;
  }

  lemma OwnBack(s: Frames, s1: Frames, s2: Frames, r: nat, tramp: nat, flag: nat, f: nat)
    requires Created(s, s1, r) && Ok(s2) && MappedTo(s1, s2, r, TRAMPOLINE, tramp, flag, 0) && f in s.own
    requires s2.at.Keys <= s1.at.Keys + Path(r, TRAMPOLINE)
    ensures f in s2.own
    ensures if (s2.own[f].Table? && s2.own[f].key.r == r) || (s2.own[f].User? && s2.own[f].r == r) then s.own[f] == Free
            else s2.own[f] == s.own[f]
  {
    hide PX, KeyAt, Entry, TabPte, FreeOk, LeafOk, EntryOk, WordAt, PTE2PA;
    SamePath(r);
    ZeroInvalid();
    assert f in s1.own.Keys && f in s2.own.Keys && OwnAfter(s1, s2, r, TRAMPOLINE, tramp, flag, 0, f);
    assert OwnOk(s2, f) && OwnOk(s, f);
    match s2.own[f] {
      case Table(key) =>
        if key.r == r { if key in s.at { NoRoot(s, r, key); } } else { assert key in s.at && KeyOk(s, key); }
      case User(q, pg) => if q == r { NoRoot(s, r, Low(r, pg.i, pg.j)); }
      case _ =>
    }
  }

  /** What was taken for a space that could not be finished is given back. */
  lemma GivenBack(s: Frames, s1: Frames, s2: Frames, g: Frames, r: nat, tramp: nat, flag: nat)
    requires Created(s, s1, r) && Ok(s2) && MappedTo(s1, s2, r, TRAMPOLINE, tramp, flag, 0) && Released(s2, g, r)
    requires s2.at.Keys <= s1.at.Keys + Path(r, TRAMPOLINE)
    ensures g.at.Keys == s.at.Keys && g.own == s.own
  {
    hide Slot, PX, KeyAt, Meaning, In, WordAt, Ok, OwnAfter;
    SamePath(r);
    forall k ensures k in g.at <==> k in s.at {
      if k in s.at && k.r == r { NoRoot(s, r, k); }
    }
    forall f | f in s.own ensures f in g.own && g.own[f] == s.own[f] {
      OwnBack(s, s1, s2, r, tramp, flag, f);
      assert f in g.own.Keys && OwnReleased(s2, g, r, f);
    }
    assert g.own.Keys == s.own.Keys;
  }

  /** Space r is new; every other space and every page in use is as before. */
  ghost predicate Added(s: Frames, g: Frames, r: nat) {
    && (forall q: nat, pg {:trigger Slot(g, q, pg)} :: q != r ==> Slot(g, q, pg) == Slot(s, q, pg))
    && (forall k {:trigger k in s.at} {:trigger k in g.at} :: k in s.at ==> k in g.at && g.at[k] == s.at[k])
    && g.own.Keys == s.own.Keys
    && (forall f {:trigger g.own[f]} :: f in s.own ==> g.own[f] == s.own[f] || (s.own[f] == Free && g.own[f].Table?))
    && (forall f {:trigger f in g.data} {:trigger f in s.data} :: f in s.own && s.own[f] != Free && f in s.data ==>
          f in g.data && g.data[f] == s.data[f])
  }

  lemma AddedFrame(s: Frames, s1: Frames, s2: Frames, s3: Frames, r: nat, tramp: nat, tf: nat, f: nat)
    requires Created(s, s1, r) && f in s.own
    requires MappedTo(s1, s2, r, TRAMPOLINE, tramp, PTE_R + PTE_X, 1)
    requires MappedTo(s2, s3, r, TRAPFRAME, tf, PTE_R + PTE_W, 1)
    ensures f in s3.own && (s3.own[f] == s.own[f] || (s.own[f] == Free && s3.own[f].Table?))
    ensures s.own[f] != Free && f in s.data ==> f in s3.data && s3.data[f] == s.data[f]
  {
    hide Ok, Slot, WordAt, In, PageOf;
    assert f in s1.own.Keys && f in s2.own.Keys && f in s3.own.Keys;
    assert OwnAfter(s1, s2, r, TRAMPOLINE, tramp, PTE_R + PTE_X, 1, f);
    assert OwnAfter(s2, s3, r, TRAPFRAME, tf, PTE_R + PTE_W, 1, f);
    if s.own[f] != Free && f in s.data { assert f in s1.data && f in s2.data; }
  }

  lemma AddedIs(s: Frames, s1: Frames, s2: Frames, s3: Frames, r: nat, tramp: nat, tf: nat)
    requires Created(s, s1, r)
    requires MappedTo(s1, s2, r, TRAMPOLINE, tramp, PTE_R + PTE_X, 1)
    requires MappedTo(s2, s3, r, TRAPFRAME, tf, PTE_R + PTE_W, 1)
    ensures Added(s, s3, r)
  {
    hide Ok, Slot, WordAt, In, PageOf, OwnAfter;
    forall q: nat, pg | q != r ensures Slot(s3, q, pg) == Slot(s, q, pg) {
      assert Slot(s3, q, pg) == Slot(s2, q, pg) == Slot(s1, q, pg);
    }
    forall f | f in s.own
      ensures f in s3.own && (s3.own[f] == s.own[f] || (s.own[f] == Free && s3.own[f].Table?))
      ensures s.own[f] != Free && f in s.data ==> f in s3.data && s3.data[f] == s.data[f]
    {
      AddedFrame(s, s1, s2, s3, r, tramp, tf, f);
    }
    forall k | k in s.at ensures k in s3.at && s3.at[k] == s.at[k] { assert k in s1.at && k in s2.at; }
    assert s3.own.Keys == s.own.Keys;
  }

  lemma StillEmpty(s1: Frames, s2: Frames, r: nat, tramp: nat, flag: nat)
    requires forall x {:trigger Slot(s1, r, x)} :: Slot(s1, r, x) == 0
    requires MappedTo(s1, s2, r, TRAMPOLINE, tramp, flag, 0)
    ensures forall pg {:trigger Slot(s2, r, pg)} :: !IsV(Slot(s2, r, pg))
    ensures AllBelow(s2, r, 0) && Unmappable(s2, r, 0, PagesOf(0)) && PagesOf(0) == 0
  {
    hide Slot, WordAt;
    ZeroInvalid();
    NothingToUnmap(s2, r);
    forall pg ensures Slot(s2, r, pg) == 0 {
      assert !In(pg, TRAMPOLINE / PGSIZE, 0);
      assert Slot(s2, r, pg) == Slot(s1, r, pg);
    }
  }

  lemma FirstEnd(s1: Frames, s2: Frames, r: nat, tramp: nat)
    requires forall x {:trigger Slot(s1, r, x)} :: Slot(s1, r, x) == 0
    requires MappedTo(s1, s2, r, TRAMPOLINE, tramp, PTE_R + PTE_X, 1)
    ensures !IsV(Slot(s2, r, PageOf(TRAPFRAME)))
  {
    hide Slot, WordAt, IsV;
    ZeroInvalid();
    Ends(PageOf(TRAPFRAME));
    assert Slot(s2, r, PageOf(TRAPFRAME)) == Slot(s1, r, PageOf(TRAPFRAME));
  }

  /** alloc_pagetable: three frames, or nothing taken exactly when there are fewer. */
  method AllocPagetable(mem: Memory, tramp: nat, tf: nat) returns (r: nat)
    requires Ok(mem.S()) && FrameOk(tramp) && FrameOk(tf)
    modifies mem
    ensures Ok(mem.S()) && (r == 0 <==> |old(mem.free)| < 3)
    ensures r == 0 ==> mem.at.Keys == old(mem.at.Keys) && mem.own == old(mem.own)
    ensures r != 0 ==> NewSpace(mem.S(), r) && |mem.free| == |old(mem.free)| - 3 && Root(r) !in old(mem.at)
    ensures r != 0 ==> Added(old(mem.S()), mem.S(), r)
  {
    hide Ok, MappedTo, Released, NewSpace, Added, AllBelow, Unmappable, Created, Slot, PX, PageOf, Path, KeyAt, IsV,
         Bit, PagesOf;
    ghost var s := mem.S();
    r := mem.UvmCreate();
    if r == 0 { return; }
    ghost var s1 := mem.S();
    CreatedBy(s, s1, r);
    EndFlags(s1, r);
    var done := mem.MapOne(r, TRAMPOLINE, tramp, PTE_R + PTE_X);
    ghost var s2 := mem.S();
    EndCost(s, s1, s2, r, done);
    if !done {
      StillEmpty(s1, s2, r, tramp, PTE_R + PTE_X);
      var res := mem.UvmFree(r, 0);
      GivenBack(s, s1, s2, mem.S(), r, tramp, PTE_R + PTE_X);
      return 0;
    }
    SamePath(r);
    FirstEnd(s1, s2, r, tramp);
    done := mem.MapOne(r, TRAPFRAME, tf, PTE_R + PTE_W);
    if !done {
      assert false;
    }
    AddedIs(s, s1, s2, mem.S(), r, tramp, tf);
    NewSpaceIs(s, s1, s2, mem.S(), r, tramp, tf);
  }

  lemma CreatedBy(s: Frames, s1: Frames, r: nat)
    requires Ok(s) && Root(r) !in s.at && s1.at == s.at[Root(r) := r] && r in s.own && s.own[r] == Free
    requires s1.own == s.own[r := Table(Root(r))] && |s1.free| == |s.free| - 1
    requires forall f {:trigger f in s1.data} :: f in s.data && f != r ==> f in s1.data && s1.data[f] == s.data[f]
    requires forall q, pg {:trigger Slot(s1, q, pg)} :: Slot(s1, q, pg) == Slot(s, q, pg)
    ensures Created(s, s1, r)
    ensures forall pg {:trigger Slot(s1, r, pg)} :: Slot(s1, r, pg) == 0
  {
    hide Ok;
    CreatedEmpty(s, s1, r);
  }

  lemma EndFlags(s1: Frames, r: nat)
    requires forall pg {:trigger Slot(s1, r, pg)} :: Slot(s1, r, pg) == 0
    ensures !IsV(Slot(s1, r, PageOf(TRAMPOLINE))) && !Bit(PTE_R + PTE_X, PTE_U) && !Bit(PTE_R + PTE_W, PTE_U)
  {
    hide Slot;
    ZeroInvalid();
  }

  // ---- fork ----

  /** What the copy of a parent's memory comes to: a child, an error, or a panic. */
  datatype ForkResult = Forked | Refused | Panics

  lemma NewSpaceEmpty(s: Frames, r: nat, n: nat)
    requires NewSpace(s, r) && n < 0x10_0000
    ensures NothingMapped(s, r, 0, 2 * n)
  {
    hide Slot, IsV;
    forall pg | In(pg, 0, 2 * n) ensures !IsV(Slot(s, r, pg)) { Ends(pg); }
  }

  /** No table of a new space is on the way to an address below 2^32. */
  lemma NewSpaceTables(s: Frames, r: nat, a: nat)
    requires NewSpace(s, r) && a < HALF
    ensures KeyAt(r, a, 0) !in s.at && KeyAt(r, a, 1) !in s.at
  {
    hide Slot, IsV;
    SamePath(r);
    assert PX(2, a) < 4;
  }

  /** The first page costs three frames. */
  lemma FirstCost(s: Frames, o: nat, r: nat)
    requires NewSpace(s, r) && Wanted(s, CopyOf(o), PageOf(0))
    ensures Cost(s, CopyOf(o), r, 0, 1) == 3
  {
    hide NewSpace, PageOf, Wanted;
    NewSpaceTables(s, r, 0);
    NextCost(s, CopyOf(o), r, 0, 0);
    assert Needs(s, CopyOf(o), r, 0, 1) - s.at.Keys == {KeyAt(r, 0, 1), KeyAt(r, 0, 0)};
  }

  /** A copy that has run out of memory at page m has left a page, or cannot be swept, unless m is 0. */
  lemma StuckUnlessFirst(s: Frames, e: Frames, o: nat, r: nat, m: nat, n: nat)
    requires NewSpace(s, r) && RanOut(s, e, o, r, m, n) && 0 < m < n < 0x10_0000
    requires !HasPages(e, r, n)
    ensures !Unmappable(e, r, PGSIZE * m, m)
  {
    hide NewSpace, Slot, LeftMapped, Cost, Leaked, PageOf, KeyAt, HasPages, Wanted, First;
    LeavesPages(s, e, o, r, m, n);
    FirstIs(s, CopyOf(o), 0, n, m);
    NoNeeds(s, CopyOf(o), r, m, n);
    NewSpaceTables(s, r, PGSIZE * m);
    assert CannotAt(e, r, PGSIZE * m, 0);
  }

  /** Before the first wanted page nothing is needed. */
  lemma {:induction false} NoNeeds(s: Frames, goal: Goal, r: nat, m: nat, n: nat)
    requires m <= First(s, goal, 0, n) && m <= n
    ensures Needs(s, goal, r, 0, m) == {}
    decreases m
  {
    hide Wanted, PageOf, First;
    if m > 0 {
      if Wanted(s, goal, PageOf(PGSIZE * (m - 1))) { FirstIs(s, goal, 0, n, m - 1); }
      NoNeeds(s, goal, r, m - 1, n);
    }
  }

  /** A copy that has run out of memory at the first page has changed no translation. */
  lemma FreeAfter(s: Frames, e: Frames, o: nat, r: nat, m: nat, n: nat)
    requires NewSpace(s, r) && RanOut(s, e, o, r, m, n) && m < n < 0x10_0000
    ensures EndsOk(e, r) && (EndsOnly(e, r, 0) <==> !HasPages(e, r, n)) && Root(r) in e.at
  {
    hide Slot, Cost, Leaked, Wanted, IsV, IsU, PteFlags, Needs;
    Ends(PageOf(TRAMPOLINE));
    assert Root(r) in s.at.Keys && KeyAt(r, TRAMPOLINE, 0) in s.at.Keys && KeyAt(r, TRAPFRAME, 0) in s.at.Keys;
    ZeroInvalid();
    forall pg | AtEnd(pg) ensures Slot(e, r, pg) == Slot(s, r, pg) { Ends(pg); }
    if HasPages(e, r, n) {
      var pg :| In(pg, 0, n) && IsV(Slot(e, r, pg));
      EndIsHigh(pg, n);
    } else {
      forall pg: Page | IsV(Slot(e, r, pg)) ensures AtEnd(pg) {
        assert Slot(e, r, pg) == Slot(s, r, pg);
      }
    }
  }

  /** fork's copy into the page table of the child, and what it does when the copy fails: free with size 0. An error
      comes back exactly if the parent's page 0 is mapped and fewer than three frames are free; every other failure ends
      in a panic. */
  method ForkCopy(mem: Memory, o: nat, r: nat, sz: nat) returns (res: ForkResult)
    requires Ok(mem.S()) && Root(o) in mem.at && o != r && NewSpace(mem.S(), r) && TrueUp(sz) < HALF
    requires forall pg {:trigger Slot(mem.S(), o, pg)} :: In(pg, 0, Pages(sz)) && IsV(Slot(mem.S(), o, pg)) ==>
               IsU(Slot(mem.S(), o, pg)) && PTE2PA(Slot(mem.S(), o, pg)) in mem.data
    modifies mem
    ensures res == Forked <==>
              HasTables(old(mem.S()), o, Pages(sz)) &&
              |old(mem.free)| >= Cost(old(mem.S()), CopyOf(o), r, 0, Pages(sz))
    ensures res == Forked ==> Ok(mem.S()) && AllocTo(old(mem.S()), mem.S(), r, 0, Pages(sz), CopyOf(o))
    ensures res == Refused <==>
              Pages(sz) > 0 && IsV(Slot(old(mem.S()), o, PageOf(0))) && |old(mem.free)| < 3
    ensures res == Refused ==> Ok(mem.S()) && Root(r) !in mem.at && OthersSame(old(mem.S()), mem.S(), r)
  {
    hide Ok, Slot, PX, PageOf, NewSpace, AllocTo, Cost, First, HasTable, HasTables, Unmappable, RanOut, HasPages,
         NothingMapped, EndsOnly, EndsOk, OthersSame, TrueUp, Vpn, PTE2PA, PagesOf;
    ghost var s := mem.S();
    ReadyToCopy(s, r, sz);
    var copied, m := mem.UvmCopy(o, r, sz);
    RefusedMeans(s, o, r, Pages(sz));
    if copied == Copied { return Forked; }
    if copied == NoSource {
      NoSourceMeans(s, o, r, m, Pages(sz));
      return Panics;
    }
    ghost var e := mem.S();
    RanOutMeans(s, e, o, r, m, Pages(sz));
    if !copied.swept { return Panics; }
    NothingToUnmap(e, r);
    var freed := FreePagetable(mem, r, 0);
    if freed != Freed { return Panics; }
    OthersAre(s, e, mem.S(), o, r, m, Pages(sz));
    res := Refused;
  }

  /** Every other space translates as before. */
  ghost predicate OthersSame(s: Frames, g: Frames, r: nat) {
    forall q: nat, pg {:trigger Slot(g, q, pg)} :: q != r ==> Meaning(Slot(g, q, pg)) == Meaning(Slot(s, q, pg))
  }

  lemma OthersAre(s: Frames, e: Frames, g: Frames, o: nat, r: nat, m: nat, n: nat)
    requires RanOut(s, e, o, r, m, n)
    requires forall q: nat, pg {:trigger Slot(g, q, pg)} :: q != r ==>
               Meaning(Slot(g, q, pg)) == Meaning(Slot(e, q, pg))
    ensures OthersSame(s, g, r)
  {
    hide Slot, Meaning, Cost, Leaked, Needs, Wanted;
    forall q: nat, pg | q != r ensures Meaning(Slot(g, q, pg)) == Meaning(Slot(s, q, pg)) {
      assert Slot(e, q, pg) == Slot(s, q, pg);
    }
  }

  lemma ReadyToCopy(s: Frames, r: nat, sz: nat)
    requires NewSpace(s, r) && TrueUp(sz) < HALF
    ensures Root(r) in s.at && NothingMapped(s, r, 0, Pages(sz)) && Pages(sz) < 0x10_0000
    ensures forall pg {:trigger Slot(s, r, pg)} :: In(pg, Pages(sz), Pages(sz)) ==> !IsV(Slot(s, r, pg))
  {
    hide Slot, IsV;
    NewSpaceEmpty(s, r, Pages(sz));
  }

  /** With page 0 wanted and fewer than three frames there is no copy. */
  lemma RefusedMeans(s: Frames, o: nat, r: nat, n: nat)
    requires NewSpace(s, r)
    ensures n > 0 && IsV(Slot(s, o, PageOf(0))) && |s.free| < 3 ==> |s.free| < Cost(s, CopyOf(o), r, 0, n)
  {
    hide NewSpace, Slot, IsV, PageOf, Cost;
    if n > 0 && IsV(Slot(s, o, PageOf(0))) {
      FirstCost(s, o, r);
      CostGrowsAll(s, CopyOf(o), r, 0, 1, n);
    }
  }

  lemma NoSourceMeans(s: Frames, o: nat, r: nat, m: nat, n: nat)
    requires Ok(s) && NewSpace(s, r) && m < n && !HasTable(s, o, m) && Cost(s, CopyOf(o), r, 0, m) <= |s.free|
    ensures !(IsV(Slot(s, o, PageOf(0))) && |s.free| < 3)
  {
    hide NewSpace, IsV, Cost, Ok, PX;
    ZeroInvalid();
    if IsV(Slot(s, o, PageOf(0))) && m > 0 {
      FirstCost(s, o, r);
      CostGrowsAll(s, CopyOf(o), r, 0, 1, m);
    }
  }

  /** After running out of memory: what the sweep and the freeing will do. */
  lemma RanOutMeans(s: Frames, e: Frames, o: nat, r: nat, m: nat, n: nat)
    requires NewSpace(s, r) && RanOut(s, e, o, r, m, n) && m < n < 0x10_0000
    requires HasPages(e, r, n) <==> |s.free| >= Cost(s, CopyOf(o), r, 0, First(s, CopyOf(o), 0, n) + 1)
    ensures EndsOk(e, r) && Root(r) in e.at
    ensures Unmappable(e, r, PGSIZE * m, m) && EndsOnly(e, r, 0) <==> IsV(Slot(s, o, PageOf(0))) && |s.free| < 3
  {
    hide NewSpace, Slot, IsV, PageOf, Cost, RanOut, Unmappable, HasPages, EndsOnly, EndsOk;
    FreeAfter(s, e, o, r, m, n);
    FirstMeans(s, e, o, r, m, n);
    if m > 0 && !HasPages(e, r, n) { StuckUnlessFirst(s, e, o, r, m, n); }
    if m == 0 { NoneToSweep(e, r); }
  }

  lemma NoneToSweep(e: Frames, r: nat)
    ensures Unmappable(e, r, 0, 0)
  {}

  /** No page is left and none was passed exactly if page 0 is wanted and costs too much. */
  lemma FirstMeans(s: Frames, e: Frames, o: nat, r: nat, m: nat, n: nat)
    requires NewSpace(s, r) && RanOut(s, e, o, r, m, n) && m < n < 0x10_0000
    ensures m == 0 <==> IsV(Slot(s, o, PageOf(0))) && |s.free| < 3
    ensures m == 0 ==> !HasPages(e, r, n)
  {
    hide NewSpace, Slot, IsV, PageOf, Cost, LeftMapped, Leaked, HasPages, Needs;
    if IsV(Slot(s, o, PageOf(0))) {
      FirstCost(s, o, r);
      if m > 0 { CostGrowsAll(s, CopyOf(o), r, 0, 1, m); }
    }
    LeavesPages(s, e, o, r, m, n);
  }

  // ---- a machine on which fork panics ----

  const BASE := 0x8000_0000

  lemma TwoPaths(r: nat)
    ensures Path(r, 0) == Path(r, PGSIZE) == {Mid(r, 0), Low(r, 0, 0)}
  {}

  lemma NoneYet(s: Frames, goal: Goal, r: nat)
    ensures Wants(s, goal, 0, 0) == 0 && Needs(s, goal, r, 0, 0) == {}
  {}

  lemma TwoPages(s: Frames, goal: Goal, r: nat)
    requires Mid(r, 0) !in s.at && Low(r, 0, 0) !in s.at
    requires Wanted(s, goal, PageOf(0)) && Wanted(s, goal, PageOf(PGSIZE))
    ensures Cost(s, goal, r, 0, 2) == 4
  {
    hide Wanted, PageOf, Needs, Wants, Path, Cost;
    TwoPaths(r);
    NoneYet(s, goal, r);
    NextCost(s, goal, r, 0, 0);
    NextCost(s, goal, r, 0, 1);
    CostOf(s, goal, r, 2, {Mid(r, 0), Low(r, 0, 0)});
  }

  lemma CostOf(s: Frames, goal: Goal, r: nat, m: nat, need: set<Key>)
    requires Needs(s, goal, r, 0, m) == need && need !! s.at.Keys
    ensures Cost(s, goal, r, 0, m) == Wants(s, goal, 0, m) + |need|
  {
    hide Needs, Wants;
    assert need - s.at.Keys == need;
  }

  /** A parent with the pages 0 and 1, and three free frames after the child has its page table. */
  ghost predicate TwoMapped(s: Frames, o: nat) {
    && Ok(s) && Root(o) in s.at
    && forall pg {:trigger Slot(s, o, pg)} :: In(pg, 0, 2) ==>
         IsV(Slot(s, o, pg)) && IsU(Slot(s, o, pg)) && PTE2PA(Slot(s, o, pg)) in s.data
  }

  lemma TwoAdded(s: Frames, g: Frames, o: nat, r: nat)
    requires TwoMapped(s, o) && Ok(g) && o != r && Added(s, g, r)
    ensures TwoMapped(g, o)
  {
    hide Ok, Slot, IsV, IsU, PTE2PA;
    forall pg | In(pg, 0, 2)
      ensures IsV(Slot(g, o, pg)) && IsU(Slot(g, o, pg)) && PTE2PA(Slot(g, o, pg)) in g.data
    {
      assert Slot(g, o, pg) == Slot(s, o, pg);
      MappedFrame(s, o, pg);
      assert PTE2PA(Slot(s, o, pg)) in s.data;
    }
  }

  lemma TwoGrown(s: Frames, g: Frames, o: nat, flag: nat)
    requires Ok(g) && Root(o) in s.at && AllocTo(s, g, o, 0, 2, Zeroed(flag))
    ensures TwoMapped(g, o)
  {
    hide Ok, Slot, IsV, IsU, PTE2PA;
    forall pg | In(pg, 0, 2)
      ensures IsV(Slot(g, o, pg)) && IsU(Slot(g, o, pg)) && PTE2PA(Slot(g, o, pg)) in g.data
    {
      assert NewPage(s, g, o, pg, Zeroed(flag));
    }
  }

  lemma TwoTaken(s: Frames, g: Frames, o: nat)
    requires TwoMapped(s, o) && Ok(g) && g.tab == s.tab && g.at == s.at
    requires forall f {:trigger f in s.data} :: f in s.data ==> f in g.data
    ensures TwoMapped(g, o)
  {
    hide Ok, Slot, IsV, IsU, PTE2PA;
    forall pg | In(pg, 0, 2)
      ensures IsV(Slot(g, o, pg)) && IsU(Slot(g, o, pg)) && PTE2PA(Slot(g, o, pg)) in g.data
    {
      SlotOfOwn(s, g, o, pg);
      assert PTE2PA(Slot(s, o, pg)) in s.data;
    }
  }

  lemma TwoCost(s: Frames, o: nat, r: nat)
    requires TwoMapped(s, o) && NewSpace(s, r)
    ensures Cost(s, CopyOf(o), r, 0, 2) == 4 && IsV(Slot(s, o, PageOf(0)))
  {
    hide Ok, NewSpace, Slot, IsV, IsU, PTE2PA, PX;
    VpnOf(0);
    VpnOf(PGSIZE);
    NewSpaceTables(s, r, 0);
    assert KeyAt(r, 0, 1) == Mid(r, 0) && KeyAt(r, 0, 0) == Low(r, 0, 0) by { FirstTables(r); }
    TwoPages(s, CopyOf(o), r);
  }

  lemma FirstTables(r: nat)
    ensures KeyAt(r, 0, 1) == Mid(r, 0) && KeyAt(r, 0, 0) == Low(r, 0, 0)
    ensures TrueUp(0) == 0 && Pages(0) == 0 && TrueUp(2 * PGSIZE) == 2 * PGSIZE && Pages(2 * PGSIZE) == 2
    ensures RoundUp(BASE) == BASE
  {}

  /** The first space of a machine grows by two pages. */
  lemma FirstGrowth(s: Frames, s1: Frames, o: nat, flag: nat)
    requires Ok(s) && s.at == map[] && s1.at == map[Root(o) := o]
    requires forall q, pg {:trigger Slot(s1, q, pg)} :: Slot(s1, q, pg) == Slot(s, q, pg)
    ensures NothingMapped(s1, o, 0, 2) && Cost(s1, Zeroed(flag), o, 0, 2) == 4
  {
    hide Ok, IsV, PageOf;
    ZeroInvalid();
    forall pg ensures !IsV(Slot(s1, o, pg)) { assert Slot(s1, o, pg) == Slot(s, o, pg); }
    TwoPages(s1, Zeroed(flag), o);
  }

  /** Twelve frames: a parent with two pages takes five, the trapframe one and the child's page table three. The copy
      then runs out of memory at the second page, and fork panics. */
  method ForkPanics() returns (res: ForkResult)
    ensures res == Panics
  {
    hide Ok, Slot, PX, PageOf, NewSpace, Added, AllocTo, Cost, NothingMapped, IsV, IsU, PTE2PA, RoundUp, TrueUp, Pages,
         HasTables;
    FirstTables(0);
    var mem := new Memory(BASE, BASE + 12 * PGSIZE);
    ghost var s := mem.S();
    var o := mem.UvmCreate();
    ghost var s1 := mem.S();
    FirstGrowth(s, s1, o, PTE_V + PTE_R + PTE_U + PTE_W);
    var sz, ok := mem.UvmAlloc(o, 0, 2 * PGSIZE, PTE_W);
    TwoGrown(s1, mem.S(), o, PTE_V + PTE_R + PTE_U + PTE_W);
    ghost var s2 := mem.S();
    var tf := mem.Kalloc();
    TwoTaken(s2, mem.S(), o);
    ghost var s3 := mem.S();
    var r := AllocPagetable(mem, BASE - PGSIZE, tf);
    TwoAdded(s3, mem.S(), o, r);
    TwoCost(mem.S(), o, r);
    res := ForkCopy(mem, o, r, 2 * PGSIZE);
  }
}
