/** Address spaces: what the operations on page tables do to translations, to frames and to the bytes of pages. */
module Spaces {

  import opened Paging
  import opened Tables

  function Fill(b: nat): (p: seq<nat>)
    ensures |p| == PGSIZE
  {
    seq(PGSIZE, i => b)
  }

  /** The table that walk looks at on its way down to an address. */
  function KeyAt(r: nat, va: nat, level: nat): Key
    requires level < 3
  {
    if level == 2 then Root(r) else if level == 1 then Mid(r, PX(2, va)) else Low(r, PX(2, va), PX(1, va))
  }

  /** Page tables may have grown out of free frames; every translation is the same and no other page is touched. */
  ghost predicate Grew(s: Frames, g: Frames) {
    && (forall r, pg {:trigger Slot(g, r, pg)} :: Slot(g, r, pg) == Slot(s, r, pg))
    && (forall k {:trigger k in s.at} {:trigger k in g.at} :: k in s.at ==> k in g.at && g.at[k] == s.at[k])
    && g.own.Keys == s.own.Keys
    && (forall f {:trigger g.own[f]} :: f in s.own ==> g.own[f] == s.own[f] || (s.own[f] == Free && g.own[f].Table?))
    && (forall f {:trigger f in g.data} {:trigger f in s.data} :: f in s.own && s.own[f] != Free && f in s.data ==>
          f in g.data && g.data[f] == s.data[f])
  }

  /** The way down: a valid entry leads to the table of the next level. */
  lemma Descend(s: Frames, r: nat, va: nat, level: nat)
    requires Ok(s) && 0 < level < 3 && KeyAt(r, va, level) in s.at
    ensures IsTable(s, s.at[KeyAt(r, va, level)]) && PX(level, va) < 512
    ensures var w := Entry(s, s.at[KeyAt(r, va, level)], PX(level, va));
            && (IsV(w) <==> KeyAt(r, va, level - 1) in s.at)
            && (IsV(w) ==> PTE2PA(w) == s.at[KeyAt(r, va, level - 1)])
    ensures KeyAt(r, va, level - 1) == Child(KeyAt(r, va, level), PX(level, va))
  {
    hide IsV, PTE2PA, TabPte, LeafOk, OwnOk, FreeOk;
    var key, kid := KeyAt(r, va, level), KeyAt(r, va, level - 1);
    assert KeyOk(s, key) && KeyOk(s, kid) && EntryOk(s, key, PX(level, va));
    if kid in s.at { TabPteOk(s.at[kid]); }
  }

  lemma GrewMore(s: Frames, g: Frames, h: Frames)
    requires Grew(s, g) && Grew(g, h)
    ensures Grew(s, h)
  {}

  lemma GrewNone(s: Frames)
    ensures Grew(s, s)
  {}

  /** Where a table is missing, so are those below it. */
  lemma NoneBelow(s: Frames, r: nat, va: nat, level: nat)
    requires Ok(s) && level < 3 && KeyAt(r, va, level) !in s.at
    ensures KeyAt(r, va, 0) !in s.at
  {
    assert KeyOk(s, KeyAt(r, va, 0)) && KeyOk(s, KeyAt(r, va, 1));
  }

  lemma RootIs(s: Frames, r: nat)
    requires Ok(s) && Root(r) in s.at
    ensures s.at[Root(r)] == r
  {
    assert KeyOk(s, Root(r));
  }

  // ---- map_pages ----

  /** Page pg is one of the n pages from virtual page number v on. */
  predicate In(pg: Page, v: nat, n: nat) { PageOk(pg) && v <= Vpn(pg) < v + n }

  /** The entry of page pg when the pages from v on are mapped to the frames from pa on. */
  function WordAt(pg: Page, v: nat, pa: nat, flag: nat): nat {
    if v <= Vpn(pg) then PteWord(pa + PGSIZE * (Vpn(pg) - v), flag) else 0
  }

  /** What becomes of frame f when m pages have been mapped. */
  predicate OwnAfter(s: Frames, g: Frames, r: nat, va: nat, pa: nat, flag: nat, m: nat, f: nat)
    requires f in s.own && f in g.own
  {
    if Bit(flag, PTE_U) && s.own[f] == Held && pa <= f < pa + PGSIZE * m then g.own[f] == User(r, PageOf(va + (f - pa)))
    else g.own[f] == s.own[f] || (s.own[f] == Free && g.own[f].Table?)
  }

  /** The first m pages from va on are mapped to the frames from pa on; every other translation, in every space, is
      as before. User frames become the space's; otherwise tables may have grown out of free frames. */
  ghost predicate MappedTo(s: Frames, g: Frames, r: nat, va: nat, pa: nat, flag: nat, m: nat) {
    && (forall q, pg {:trigger Slot(g, q, pg)} :: Slot(g, q, pg) ==
          if q == r && In(pg, va / PGSIZE, m) then WordAt(pg, va / PGSIZE, pa, flag) else Slot(s, q, pg))
    && (forall k {:trigger k in s.at} {:trigger k in g.at} :: k in s.at ==> k in g.at && g.at[k] == s.at[k])
    && g.own.Keys == s.own.Keys
    && (forall f {:trigger OwnAfter(s, g, r, va, pa, flag, m, f)} {:trigger g.own[f]} :: f in s.own ==>
       OwnAfter(s, g, r, va, pa, flag, m, f))
    && (forall f {:trigger f in g.data} {:trigger f in s.data} :: f in s.own && s.own[f] != Free && f in s.data ==>
          f in g.data && g.data[f] == s.data[f])
  }

  lemma MappedNone(s: Frames, r: nat, va: nat, pa: nat, flag: nat)
    ensures MappedTo(s, s, r, va, pa, flag, 0)
  {}

  lemma MappedGrew(s: Frames, g: Frames, h: Frames, r: nat, va: nat, pa: nat, flag: nat, m: nat)
    requires MappedTo(s, g, r, va, pa, flag, m) && Grew(g, h)
    ensures MappedTo(s, h, r, va, pa, flag, m)
  {}

  lemma NextPage(va: nat, m: nat, pg: Page)
    requires va % PGSIZE == 0 && va + PGSIZE * m <= VA_MAX
    ensures PageOk(PageOf(va + PGSIZE * m)) && (In(pg, va / PGSIZE, m + 1) <==>
            In(pg, va / PGSIZE, m) || pg == PageOf(va + PGSIZE * m))
    ensures Vpn(PageOf(va + PGSIZE * m)) == va / PGSIZE + m
  {
    VpnOf(va + PGSIZE * m);
    if PageOk(pg) && Vpn(pg) == va / PGSIZE + m { VpnInjective(pg, PageOf(va + PGSIZE * m)); }
  }

  lemma NextFrame(pa: nat, m: nat, f: nat)
    requires pa % PGSIZE == 0 && FrameOk(f)
    ensures pa <= f < pa + PGSIZE * (m + 1) <==> pa <= f < pa + PGSIZE * m || f == pa + PGSIZE * m
  {}

  ghost predicate CanMap(s: Frames, g: Frames, r: nat, va: nat, pa: nat, flag: nat, m: nat) {
    && Ok(g) && MappedTo(s, g, r, va, pa, flag, m) && flag < 1024
    && va % PGSIZE == 0 && va + PGSIZE * m <= VA_MAX && FrameOk(pa + PGSIZE * m) && pa % PGSIZE == 0
    && KeyAt(r, va + PGSIZE * m, 0) in g.at && IsTable(g, g.at[KeyAt(r, va + PGSIZE * m, 0)])
    && (Bit(flag, PTE_U) ==> pa + PGSIZE * m in s.own && s.own[pa + PGSIZE * m] == Held)
    && !IsV(Slot(g, r, PageOf(va + PGSIZE * m)))
    && (forall f {:trigger f in s.own} :: f in s.own ==> FrameOk(f))
  }

  lemma MappedOneSlots(s: Frames, g: Frames, r: nat, va: nat, pa: nat, flag: nat, m: nat, q: nat, x: Page)
    requires CanMap(s, g, r, va, pa, flag, m)
    ensures Slot(Mapped(g, r, PageOf(va + PGSIZE * m), PteWord(pa + PGSIZE * m, flag)), q, x) ==
            if q == r && In(x, va / PGSIZE, m + 1) then WordAt(x, va / PGSIZE, pa, flag) else Slot(s, q, x)
  {
    hide Ok, PX, PteWord, Bit, IsV, IsU, Vpn, In, FrameOk, Slot;
    var pg, w := PageOf(va + PGSIZE * m), PteWord(pa + PGSIZE * m, flag);
    NextPage(va, m, x);
    SetLeafSlots(g, r, pg, w);
    SlotOfOwn(SetLeaf(g, r, pg, w), Mapped(g, r, pg, w), q, x);
    assert Slot(g, q, x) == if q == r && In(x, va / PGSIZE, m) then WordAt(x, va / PGSIZE, pa, flag) else Slot(s, q, x);
  }

  lemma SlotOfOwn(s: Frames, g: Frames, q: nat, x: Page)
    requires g.tab == s.tab && g.at == s.at
    ensures Slot(g, q, x) == Slot(s, q, x)
  {}

  lemma MappedOne(s: Frames, g: Frames, r: nat, va: nat, pa: nat, flag: nat, m: nat)
    requires CanMap(s, g, r, va, pa, flag, m)
    ensures var h := Mapped(g, r, PageOf(va + PGSIZE * m), PteWord(pa + PGSIZE * m, flag));
            Ok(h) && MappedTo(s, h, r, va, pa, flag, m + 1)
  {
    hide Ok, PX, PteWord, PTE2PA, Bit, Vpn, In, FrameOk, Slot, WordAt, OwnAfter;
    var pg, w := PageOf(va + PGSIZE * m), PteWord(pa + PGSIZE * m, flag);
    NextPage(va, m, pg);
    var h := Mapped(g, r, pg, w);
    WordOk(pa + PGSIZE * m, flag);
    if Bit(flag, PTE_U) { StillHeld(s, g, r, va, pa, flag, m); }
    MappedOk(g, r, pg, w);
    forall q, x
      ensures Slot(h, q, x) ==
              if q == r && In(x, va / PGSIZE, m + 1) then WordAt(x, va / PGSIZE, pa, flag) else Slot(s, q, x)
    {
      MappedOneSlots(s, g, r, va, pa, flag, m, q, x);
    }
    assert h.own.Keys == s.own.Keys && h.data == g.data && h.at == g.at;
    forall f | f in s.own ensures OwnAfter(s, h, r, va, pa, flag, m + 1, f) {
      assert OwnAfter(s, g, r, va, pa, flag, m, f);
      MappedOneOwn(s, g, h, r, va, pa, flag, m, f);
    }
  }

  lemma StillHeld(s: Frames, g: Frames, r: nat, va: nat, pa: nat, flag: nat, m: nat)
    requires MappedTo(s, g, r, va, pa, flag, m) && pa + PGSIZE * m in s.own && s.own[pa + PGSIZE * m] == Held
    ensures pa + PGSIZE * m in g.own && g.own[pa + PGSIZE * m] == Held
  {
    hide Slot, In, WordAt, Bit, PageOf;
    assert pa + PGSIZE * m in g.own.Keys;
    assert OwnAfter(s, g, r, va, pa, flag, m, pa + PGSIZE * m);
  }

  lemma MappedOneOwn(s: Frames, g: Frames, h: Frames, r: nat, va: nat, pa: nat, flag: nat, m: nat, f: nat)
    requires f in s.own && f in g.own && f in h.own && OwnAfter(s, g, r, va, pa, flag, m, f) && FrameOk(f) &&
             pa % PGSIZE == 0
    requires if Bit(flag, PTE_U) && f == pa + PGSIZE * m then s.own[f] == Held &&
             h.own[f] == User(r, PageOf(va + PGSIZE * m))
             else h.own[f] == g.own[f]
    ensures OwnAfter(s, h, r, va, pa, flag, m + 1, f)
  {
    hide PageOf, Bit;
    NextFrame(pa, m, f);
    if f == pa + PGSIZE * m { assert va + (f - pa) == va + PGSIZE * m; }
  }

  predicate HeldAt(s: Frames, pa: nat, k: nat) { pa + PGSIZE * k in s.own && s.own[pa + PGSIZE * k] == Held }

  datatype MapResult = AllMapped | NoMemory | Remap | BadCall | TooHigh

  /** Frames have proper addresses. */
  lemma OwnedFrames(s: Frames)
    requires Ok(s)
    ensures forall f {:trigger f in s.own} :: f in s.own ==> FrameOk(f)
  {
    forall f | f in s.own ensures FrameOk(f) { assert OwnOk(s, f); }
  }

  lemma LowTable(s: Frames, r: nat, a: nat)
    requires Ok(s) && KeyAt(r, a, 0) in s.at
    ensures IsTable(s, s.at[KeyAt(r, a, 0)]) && PX(0, a) < 512
    ensures KeyAt(r, a, 0) == Low(r, PageOf(a).i, PageOf(a).j) && PX(0, a) == PageOf(a).l
    ensures s.tab[s.at[KeyAt(r, a, 0)]][PX(0, a)] == Slot(s, r, PageOf(a))
  {
    assert KeyOk(s, KeyAt(r, a, 0));
  }

  lemma GrewRoot(s: Frames, g: Frames, r: nat)
    requires Grew(s, g) && Root(r) in s.at
    ensures Root(r) in g.at
  {}

  lemma FramesFrom(pa: nat, size: nat, m: nat)
    requires 0 < pa && pa % PGSIZE == 0 && pa + size <= PA_END && PGSIZE * m < size && size % PGSIZE == 0
    ensures FrameOk(pa + PGSIZE * m) && PGSIZE * m <= size - PGSIZE && m < size / PGSIZE
  {}

  // ---- uvm_unmap ----

  /** What becomes of frame f when m pages from virtual page number v on have been unmapped. */
  predicate OwnUnmapped(s: Frames, g: Frames, r: nat, v: nat, m: nat, freed: bool, f: nat)
    requires f in s.own && f in g.own
  {
    if s.own[f].User? && s.own[f].r == r && In(s.own[f].pg, v, m) then g.own[f] == (if freed then Free else Held)
    else g.own[f] == s.own[f]
  }

  /** Exactly the m pages from v on are unmapped, and their user frames freed or given up. */
  ghost predicate UnmappedTo(s: Frames, g: Frames, r: nat, v: nat, m: nat, freed: bool) {
    && (forall q, pg {:trigger Slot(g, q, pg)} :: Slot(g, q, pg) ==
          if q == r && In(pg, v, m) && IsV(Slot(s, q, pg)) then 0 else Slot(s, q, pg))
    && g.at == s.at && g.own.Keys == s.own.Keys
    && (forall f {:trigger OwnUnmapped(s, g, r, v, m, freed, f)} {:trigger g.own[f]} :: f in s.own ==>
          OwnUnmapped(s, g, r, v, m, freed, f))
    && (forall f {:trigger f in g.data} {:trigger f in s.data} ::
          f in s.own && !(s.own[f].User? && s.own[f].r == r && In(s.own[f].pg, v, m)) && f in s.data ==>
            f in g.data && g.data[f] == s.data[f])
  }

  lemma UnmappedNone(s: Frames, r: nat, v: nat, freed: bool)
    ensures UnmappedTo(s, s, r, v, 0, freed)
  {}

  lemma InMore(pg: Page, v: nat, m: nat, next: Page)
    requires PageOk(next) && Vpn(next) == v + m
    ensures In(pg, v, m + 1) <==> In(pg, v, m) || pg == next
  {
    if PageOk(pg) && Vpn(pg) == v + m { VpnInjective(pg, next); }
  }

  /** The state after one more page, whose entry is valid, has been unmapped and its frame freed if asked. */
  function UnmapStep(g: Frames, r: nat, pg: Page, freed: bool): Frames
    requires Low(r, pg.i, pg.j) in g.at && IsTable(g, g.at[Low(r, pg.i, pg.j)]) && pg.l < 512
  {
    var w, h := Slot(g, r, pg), Unmapped(g, r, pg);
    if freed then Given(h, PTE2PA(w)).(data := g.data[PTE2PA(w) := Fill(1)]) else h
  }

  ghost predicate CanUnmap(s: Frames, g: Frames, r: nat, v: nat, m: nat, freed: bool, pg: Page) {
    && Ok(s) && Ok(g) && UnmappedTo(s, g, r, v, m, freed) && PageOk(pg) && Vpn(pg) == v + m
    && Low(r, pg.i, pg.j) in g.at && IsTable(g, g.at[Low(r, pg.i, pg.j)])
    && IsV(Slot(g, r, pg)) && (freed ==> IsU(Slot(g, r, pg)))
  }

  lemma UnmapStepSlots(s: Frames, g: Frames, r: nat, v: nat, m: nat, freed: bool, pg: Page, q: nat, x: Page)
    requires CanUnmap(s, g, r, v, m, freed, pg)
    ensures Slot(UnmapStep(g, r, pg, freed), q, x) ==
            if q == r && In(x, v, m + 1) && IsV(Slot(s, q, x)) then 0 else Slot(s, q, x)
  {
    hide Ok, IsV, IsU, Vpn, In, Slot, PTE2PA;
    ZeroInvalid();
    SetLeafSlots(g, r, pg, 0);
    InMore(x, v, m, pg);
    SlotOfOwn(SetLeaf(g, r, pg, 0), UnmapStep(g, r, pg, freed), q, x);
    assert Slot(g, q, x) == if q == r && In(x, v, m) && IsV(Slot(s, q, x)) then 0 else Slot(s, q, x);
    assert Slot(g, r, pg) == if In(pg, v, m) && IsV(Slot(s, r, pg)) then 0 else Slot(s, r, pg);
  }

  /** The frame mapped at pg is the one owned by the space at pg. */
  lemma MappedFrame(s: Frames, r: nat, pg: Page)
    requires Ok(s) && IsV(Slot(s, r, pg)) && IsU(Slot(s, r, pg))
    ensures var f := PTE2PA(Slot(s, r, pg)); f in s.own && s.own[f] == User(r, pg)
    ensures forall x {:trigger s.own[x]} :: x in s.own && s.own[x] == User(r, pg) ==> x == PTE2PA(Slot(s, r, pg))
  {
    assert LeafOk(s, r, pg);
    forall x | x in s.own && s.own[x] == User(r, pg) ensures x == PTE2PA(Slot(s, r, pg)) { assert OwnOk(s, x); }
  }

  /** A frame mapped nowhere has no valid user slot. */
  lemma NotMapped(s: Frames, r: nat, pg: Page, f: nat)
    requires Ok(s) && f in s.own && s.own[f] == User(r, pg)
    ensures IsV(Slot(s, r, pg)) && IsU(Slot(s, r, pg)) && PTE2PA(Slot(s, r, pg)) == f
  {
    assert OwnOk(s, f);
  }

  lemma UnmapStepOwn(s: Frames, g: Frames, r: nat, v: nat, m: nat, freed: bool, pg: Page, f: nat)
    requires CanUnmap(s, g, r, v, m, freed, pg) && f in s.own && f in g.own && f in UnmapStep(g, r, pg, freed).own
    ensures OwnUnmapped(s, UnmapStep(g, r, pg, freed), r, v, m + 1, freed, f)
  {
    hide Ok, IsV, IsU, Vpn, In, Slot, PTE2PA;
    var h, w := UnmapStep(g, r, pg, freed), Slot(g, r, pg);
    assert OwnUnmapped(s, g, r, v, m, freed, f);
    if s.own[f].User? { InMore(s.own[f].pg, v, m, pg); }
    if IsU(w) { MappedFrame(g, r, pg); }
    if s.own[f] == User(r, pg) {
      NotMapped(s, r, pg, f);
      assert Slot(g, r, pg) == if In(pg, v, m) && IsV(Slot(s, r, pg)) then 0 else Slot(s, r, pg);
    }
  }

  lemma UnmapStepOk(s: Frames, g: Frames, r: nat, v: nat, m: nat, freed: bool, pg: Page)
    requires CanUnmap(s, g, r, v, m, freed, pg)
    ensures Ok(Unmapped(g, r, pg)) && Ok(UnmapStep(g, r, pg, freed))
    ensures UnmappedTo(s, UnmapStep(g, r, pg, freed), r, v, m + 1, freed)
  {
    hide Ok, IsV, IsU, Vpn, In, Slot, PTE2PA, OwnUnmapped;
    var h, w := UnmapStep(g, r, pg, freed), Slot(g, r, pg);
    UnmappedOk(g, r, pg);
    if IsU(w) { MappedFrame(g, r, pg); }
    if freed {
      GivenOk(Unmapped(g, r, pg), PTE2PA(w));
      SameTables(Given(Unmapped(g, r, pg), PTE2PA(w)), h);
    }
    assert h.own.Keys == s.own.Keys && h.at == s.at;
    forall q, x ensures Slot(h, q, x) == if q == r && In(x, v, m + 1) && IsV(Slot(s, q, x)) then 0 else Slot(s, q, x) {
      UnmapStepSlots(s, g, r, v, m, freed, pg, q, x);
    }
    forall f | f in s.own ensures OwnUnmapped(s, h, r, v, m + 1, freed, f) {
      UnmapStepOwn(s, g, r, v, m, freed, pg, f);
    }
    forall f | f in s.own && !(s.own[f].User? && s.own[f].r == r && In(s.own[f].pg, v, m + 1)) && f in s.data
      ensures f in h.data && h.data[f] == s.data[f] {
      UnmapStepData(s, g, r, v, m, freed, pg, f);
    }
  }

  lemma UnmapStepData(s: Frames, g: Frames, r: nat, v: nat, m: nat, freed: bool, pg: Page, f: nat)
    requires CanUnmap(s, g, r, v, m, freed, pg) && f in s.own && f in s.data
    requires !(s.own[f].User? && s.own[f].r == r && In(s.own[f].pg, v, m + 1))
    ensures var h := UnmapStep(g, r, pg, freed); f in h.data && h.data[f] == s.data[f]
  {
    hide Ok, IsV, IsU, Vpn, In, Slot, PTE2PA;
    var w := Slot(g, r, pg);
    InMore(pg, v, m, pg);
    if s.own[f].User? { InMore(s.own[f].pg, v, m, pg); }
    if IsU(w) { MappedFrame(g, r, pg); }
    assert f in g.own.Keys && OwnUnmapped(s, g, r, v, m, freed, f);
  }

  /** Where an address is out of range, a lowest table is missing, or an entry has no flag but PTE_V, uvm_unmap
      panics. */
  predicate CannotUnmap(s: Frames, r: nat, a: nat) {
    a > VA_MAX || KeyAt(r, a, 0) !in s.at || (IsV(Slot(s, r, PageOf(a))) && PteFlags(Slot(s, r, PageOf(a))) == PTE_V)
  }

  predicate CannotAt(s: Frames, r: nat, va: nat, k: nat) { CannotUnmap(s, r, va + PGSIZE * k) }

  /** uvm_unmap gets through the first m pages from va on. */
  ghost predicate Unmappable(s: Frames, r: nat, va: nat, m: nat) {
    forall k: nat {:trigger CannotAt(s, r, va, k)} :: k < m ==> !CannotAt(s, r, va, k)
  }

  /** A page not yet reached is an obstacle exactly if it was one at first. */
  lemma ObstacleStays(s: Frames, g: Frames, r: nat, va: nat, m: nat, freed: bool)
    requires UnmappedTo(s, g, r, va / PGSIZE, m, freed) && va % PGSIZE == 0
    ensures CannotUnmap(g, r, va + PGSIZE * m) <==> CannotAt(s, r, va, m)
  {
    hide PX, Slot, IsV;
    var a := va + PGSIZE * m;
    if a <= VA_MAX {
      VpnOf(a);
      assert Slot(g, r, PageOf(a)) == Slot(s, r, PageOf(a));
    }
  }

  lemma SkipInvalid(s: Frames, g: Frames, r: nat, v: nat, m: nat, freed: bool, pg: Page)
    requires UnmappedTo(s, g, r, v, m, freed) && PageOk(pg) && Vpn(pg) == v + m && !IsV(Slot(g, r, pg)) && Ok(s)
    ensures UnmappedTo(s, g, r, v, m + 1, freed)
  {
    hide Ok, IsV, IsU, Vpn, In, PTE2PA;
    InMore(pg, v, m, pg);
    assert Slot(g, r, pg) == if In(pg, v, m) && IsV(Slot(s, r, pg)) then 0 else Slot(s, r, pg);
    forall q, x ensures Slot(g, q, x) == if q == r && In(x, v, m + 1) && IsV(Slot(s, q, x)) then 0 else Slot(s, q, x) {
      InMore(x, v, m, pg);
    }
    forall f | f in s.own ensures OwnUnmapped(s, g, r, v, m + 1, freed, f) {
      assert f in g.own.Keys && OwnUnmapped(s, g, r, v, m, freed, f);
      if s.own[f].User? {
        InMore(s.own[f].pg, v, m, pg);
        NotMapped(s, s.own[f].r, s.own[f].pg, f);
      }
    }
    forall f | f in s.own && s.own[f].User? ensures In(s.own[f].pg, v, m) ==> In(s.own[f].pg, v, m + 1) {
      InMore(s.own[f].pg, v, m, pg);
    }
  }

  lemma PageAt(va: nat, m: nat)
    requires va % PGSIZE == 0 && va + PGSIZE * m <= VA_MAX
    ensures PageOk(PageOf(va + PGSIZE * m)) && Vpn(PageOf(va + PGSIZE * m)) == va / PGSIZE + m
  {
    VpnOf(va + PGSIZE * m);
  }

  /** Pages not yet reached are as they were. */
  lemma StillUser(s: Frames, g: Frames, r: nat, v: nat, m: nat, freed: bool, pg: Page, n: nat)
    requires UnmappedTo(s, g, r, v, m, freed) && PageOk(pg) && Vpn(pg) == v + m && m < n && IsV(Slot(g, r, pg))
    requires freed ==> forall x {:trigger Slot(s, r, x)} :: In(x, v, n) && IsV(Slot(s, r, x)) ==> IsU(Slot(s, r, x))
    ensures (freed ==> IsU(Slot(g, r, pg))) && g.at == s.at
  {
    hide IsV, IsU, Slot;
    assert Slot(g, r, pg) == if In(pg, v, m) && IsV(Slot(s, r, pg)) then 0 else Slot(s, r, pg);
  }

  // ---- uvm_alloc and uvm_copy ----

  /** What new pages are to be: zeroed, with given flags; or copies of the pages of space o. */
  datatype Goal = Zeroed(flag: nat) | CopyOf(o: nat)

  predicate Wanted(s: Frames, goal: Goal, pg: Page) { goal.Zeroed? || IsV(Slot(s, goal.o, pg)) }

  function GoalFlags(s: Frames, goal: Goal, pg: Page): nat {
    if goal.Zeroed? then goal.flag else PteFlags(Slot(s, goal.o, pg))
  }

  function GoalData(s: Frames, goal: Goal, pg: Page): seq<nat> {
    if goal.Zeroed? then Fill(0)
    else if PTE2PA(Slot(s, goal.o, pg)) in s.data then s.data[PTE2PA(Slot(s, goal.o, pg))] else []
  }

  /** Page pg has been given a frame that was free, with the contents and exactly the flags it is to have. */
  predicate NewPage(s: Frames, g: Frames, r: nat, pg: Page, goal: Goal) {
    var w := Slot(g, r, pg);
    var f := PTE2PA(w);
    && IsV(w) && IsU(w) && PteFlags(w) == GoalFlags(s, goal, pg)
    && f in s.own && s.own[f] == Free && f in g.data && g.data[f] == GoalData(s, goal, pg)
  }

  predicate OwnAlloc(s: Frames, g: Frames, r: nat, v: nat, m: nat, f: nat)
    requires f in s.own && f in g.own
  {
    || g.own[f] == s.own[f]
    || (s.own[f] == Free && (g.own[f].Table? || (g.own[f].User? && g.own[f].r == r && In(g.own[f].pg, v, m))))
  }

  predicate Due(s: Frames, goal: Goal, pg: Page, v: nat, m: nat) { In(pg, v, m) && Wanted(s, goal, pg) }

  /** The wanted ones of the m pages from v on are new; every other translation and every page in use before is as
      before. */
  ghost predicate AllocTo(s: Frames, g: Frames, r: nat, v: nat, m: nat, goal: Goal) {
    && (forall pg {:trigger NewPage(s, g, r, pg, goal)} {:trigger Slot(g, r, pg)} :: Due(s, goal, pg, v, m) ==>
       NewPage(s, g, r, pg, goal))
    && (forall q, pg {:trigger Slot(g, q, pg)} :: !(q == r && Due(s, goal, pg, v, m)) ==>
       Slot(g, q, pg) == Slot(s, q, pg))
    && (forall k {:trigger k in s.at} {:trigger k in g.at} :: k in s.at ==> k in g.at && g.at[k] == s.at[k])
    && g.own.Keys == s.own.Keys
    && (forall f {:trigger OwnAlloc(s, g, r, v, m, f)} {:trigger g.own[f]} :: f in s.own ==> OwnAlloc(s, g, r, v, m, f))
    && (forall f {:trigger f in g.data} {:trigger f in s.data} :: f in s.own && s.own[f] != Free && f in s.data ==>
          f in g.data && g.data[f] == s.data[f])
  }

  lemma AllocNone(s: Frames, r: nat, v: nat, goal: Goal)
    ensures AllocTo(s, s, r, v, 0, goal)
  {}

  /** kalloc and a memset or memmove of the new frame. */
  function Fresh(g: Frames, bytes: seq<nat>): Frames
    requires |g.free| > 0
  {
    Taken(g).(data := g.data[g.free[|g.free| - 1] := bytes])
  }

  function GoalFresh(s: Frames, g: Frames, goal: Goal, va: nat, m: nat): Frames
    requires |g.free| > 0
  {
    Fresh(g, GoalData(s, goal, PageOf(va + PGSIZE * m)))
  }

  /** One page more. */
  ghost predicate CanAlloc(s: Frames, g: Frames, h: Frames, r: nat, va: nat, m: nat, flag: nat, goal: Goal) {
    && Ok(g) && Ok(h) && AllocTo(s, g, r, va / PGSIZE, m, goal) && |g.free| > 0 && flag < 1024 && Bit(flag, PTE_U)
    && va % PGSIZE == 0 && va + PGSIZE * m <= VA_MAX
    && (if flag % 2 == 1 then flag else flag + 1) == GoalFlags(s, goal, PageOf(va + PGSIZE * m))
    && Wanted(s, goal, PageOf(va + PGSIZE * m))
    && MappedTo(GoalFresh(s, g, goal, va, m), h, r, va + PGSIZE * m, g.free[|g.free| - 1], flag, 1)
  }

  lemma FreshIsFree(s: Frames, g: Frames, r: nat, v: nat, m: nat, goal: Goal)
    requires Ok(g) && AllocTo(s, g, r, v, m, goal) && |g.free| > 0
    ensures var f := g.free[|g.free| - 1];
            FrameOk(f) && f in g.own && g.own[f] == Free && f in s.own && s.own[f] == Free
  {
    hide Slot, In, NewPage, FrameOk, Due;
    var f := g.free[|g.free| - 1];
    assert f == Nth(g, |g.free| - 1) && OwnOk(g, f);
    assert f in s.own.Keys && OwnAlloc(s, g, r, v, m, f);
  }

  lemma OnePage(va: nat, pg: Page)
    requires va % PGSIZE == 0 && va <= VA_MAX
    ensures PageOk(PageOf(va)) && Vpn(PageOf(va)) == va / PGSIZE && (In(pg, va / PGSIZE, 1) <==> pg == PageOf(va))
  {
    VpnOf(va);
    if In(pg, va / PGSIZE, 1) { VpnInjective(pg, PageOf(va)); }
  }

  lemma AllocStepSlot(s: Frames, g: Frames, h: Frames, r: nat, va: nat, m: nat, flag: nat, goal: Goal, q: nat, pg: Page)
    requires CanAlloc(s, g, h, r, va, m, flag, goal)
    ensures Slot(h, q, pg) == if q == r &&
            pg == PageOf(va + PGSIZE * m) then PteWord(g.free[|g.free| - 1], flag) else Slot(g, q, pg)
  {
    hide Ok, AllocTo, PX, PteWord, Bit, Slot, GoalData;
    OnePage(va + PGSIZE * m, pg);
    var k := GoalFresh(s, g, goal, va, m);
    SlotOfOwn(g, k, q, pg);
    var v := (va + PGSIZE * m) / PGSIZE;
    assert Slot(h, q, pg) ==
           if q == r && In(pg, v, 1) then WordAt(pg, v, g.free[|g.free| - 1], flag) else Slot(k, q, pg);
  }

  lemma AllocStepNew(s: Frames, g: Frames, h: Frames, r: nat, va: nat, m: nat, flag: nat, goal: Goal, pg: Page)
    requires CanAlloc(s, g, h, r, va, m, flag, goal) && Due(s, goal, pg, va / PGSIZE, m + 1)
    ensures NewPage(s, h, r, pg, goal)
  {
    hide Ok, PX, PteWord, Bit, Slot, Vpn, In, PTE2PA, PteFlags, GoalData, GoalFlags, Wanted;
    var f, k := g.free[|g.free| - 1], GoalFresh(s, g, goal, va, m);
    AllocStepSlot(s, g, h, r, va, m, flag, goal, r, pg);
    FreshIsFree(s, g, r, va / PGSIZE, m, goal);
    NextPage(va, m, pg);
    WordOk(f, flag);
    if pg != PageOf(va + PGSIZE * m) {
      assert NewPage(s, g, r, pg, goal);
      var x := PTE2PA(Slot(g, r, pg));
      MappedFrame(g, r, pg);
      assert x in k.data && k.own[x] == g.own[x];
      assert x in h.data && h.data[x] == g.data[x];
    } else {
      assert f in k.data && k.own[f] == Held;
      assert f in h.data && h.data[f] == k.data[f];
    }
  }

  lemma AllocStepOwn(s: Frames, g: Frames, h: Frames, r: nat, va: nat, m: nat, flag: nat, goal: Goal, f: nat)
    requires CanAlloc(s, g, h, r, va, m, flag, goal) && f in s.own && f in h.own && f in g.own
    ensures OwnAlloc(s, h, r, va / PGSIZE, m + 1, f)
  {
    hide Ok, PX, PteWord, Bit, Slot, Vpn, In, NewPage, GoalData, GoalFlags, Wanted;
    var x, k := g.free[|g.free| - 1], GoalFresh(s, g, goal, va, m);
    FreshIsFree(s, g, r, va / PGSIZE, m, goal);
    NextPage(va, m, PageOf(va + PGSIZE * m));
    if g.own[f].User? { NextPage(va, m, g.own[f].pg); }
    assert OwnAlloc(s, g, r, va / PGSIZE, m, f);
    assert f in k.own && OwnAfter(k, h, r, va + PGSIZE * m, x, flag, 1, f);
    if f == x { assert va + PGSIZE * m + (f - x) == va + PGSIZE * m; }
    OwnedFrames(g);
    NextFrame(x, 0, f);
  }

  lemma AllocStep(s: Frames, g: Frames, h: Frames, r: nat, va: nat, m: nat, flag: nat, goal: Goal)
    requires CanAlloc(s, g, h, r, va, m, flag, goal)
    ensures AllocTo(s, h, r, va / PGSIZE, m + 1, goal)
  {
    hide Ok, PX, PteWord, Bit, Slot, Vpn, In, NewPage, OwnAlloc, OwnAfter, GoalData, GoalFlags, Wanted;
    var x, k := g.free[|g.free| - 1], GoalFresh(s, g, goal, va, m);
    FreshIsFree(s, g, r, va / PGSIZE, m, goal);
    assert h.own.Keys == k.own.Keys == g.own.Keys == s.own.Keys;
    var v, n := va / PGSIZE, m + 1;
    forall pg | Due(s, goal, pg, v, n) ensures NewPage(s, h, r, pg, goal) {
      AllocStepNew(s, g, h, r, va, m, flag, goal, pg);
    }
    forall q, pg | !(q == r && Due(s, goal, pg, v, n)) ensures Slot(h, q, pg) == Slot(s, q, pg) {
      AllocStepSlot(s, g, h, r, va, m, flag, goal, q, pg);
      NextPage(va, m, pg);
    }
    forall f | f in s.own ensures OwnAlloc(s, h, r, v, n, f) { AllocStepOwn(s, g, h, r, va, m, flag, goal, f); }
    forall f | f in s.own && s.own[f] != Free && f in s.data ensures f in h.data && h.data[f] == s.data[f] {
      AllocStepData(s, g, h, r, va, m, flag, goal, f);
    }
  }

  lemma AllocStepData(s: Frames, g: Frames, h: Frames, r: nat, va: nat, m: nat, flag: nat, goal: Goal, f: nat)
    requires CanAlloc(s, g, h, r, va, m, flag, goal) && f in s.own && s.own[f] != Free && f in s.data
    ensures f in h.data && h.data[f] == s.data[f]
  {
    hide Ok, PX, PteWord, Bit, Slot, Vpn, In, NewPage, OwnAfter, GoalData, GoalFlags, Wanted;
    var k := GoalFresh(s, g, goal, va, m);
    FreshIsFree(s, g, r, va / PGSIZE, m, goal);
    assert f in g.own.Keys && OwnAlloc(s, g, r, va / PGSIZE, m, f);
    assert f in g.data;
    assert f in k.data && k.own[f] == s.own[f];
  }

  /** The next page is not wanted. */
  lemma AllocSkip(s: Frames, g: Frames, r: nat, va: nat, m: nat, goal: Goal)
    requires AllocTo(s, g, r, va / PGSIZE, m, goal) && va % PGSIZE == 0 && va + PGSIZE * m <= VA_MAX
    requires !Wanted(s, goal, PageOf(va + PGSIZE * m))
    ensures AllocTo(s, g, r, va / PGSIZE, m + 1, goal)
  {
    hide PX, Slot, Vpn, In, NewPage, Wanted;
    var v, n := va / PGSIZE, m + 1;
    forall pg ensures Due(s, goal, pg, v, n) <==> Due(s, goal, pg, v, m) { NextPage(va, m, pg); }
    forall f | f in s.own ensures OwnAlloc(s, g, r, v, n, f) {
      assert f in g.own.Keys && OwnAlloc(s, g, r, v, m, f);
      if g.own[f].User? { NextPage(va, m, g.own[f].pg); }
    }
  }

  /** The new frame could not be mapped and is given back. */
  lemma AllocFail(s: Frames, g: Frames, h: Frames, r: nat, va: nat, m: nat, flag: nat, goal: Goal)
    requires Ok(g) && Ok(h) && AllocTo(s, g, r, va / PGSIZE, m, goal) && |g.free| > 0
    requires MappedTo(GoalFresh(s, g, goal, va, m), h, r, va + PGSIZE * m, g.free[|g.free| - 1], flag, 0)
    ensures var f := g.free[|g.free| - 1];
            && f in h.own && h.own[f] == Held
            && AllocTo(s, Given(h, f).(data := h.data[f := Fill(1)]), r, va / PGSIZE, m, goal)
  {
    hide Ok, PX, PteWord, Bit, Slot, Vpn, In, WordAt, GoalData, GoalFlags, Wanted, PageOf;
    var f, v, j := g.free[|g.free| - 1], va / PGSIZE, GoalFresh(s, g, goal, va, m);
    var k := Given(h, f).(data := h.data[f := Fill(1)]);
    FreshIsFree(s, g, r, v, m, goal);
    assert f in h.own.Keys && OwnAfter(j, h, r, va + PGSIZE * m, f, flag, 0, f);
    forall q, pg ensures Slot(k, q, pg) == Slot(g, q, pg) {
      AllocFailSlot(g, j, h, k, r, va + PGSIZE * m, f, flag, q, pg);
    }
    forall pg | Due(s, goal, pg, v, m) ensures NewPage(s, k, r, pg, goal) {
      assert NewPage(s, g, r, pg, goal);
      var x := PTE2PA(Slot(g, r, pg));
      MappedFrame(g, r, pg);
      assert x in j.data && j.own[x] == g.own[x];
      assert x in h.data;
    }
    forall x | x in s.own ensures OwnAlloc(s, k, r, v, m, x) {
      assert x in g.own.Keys && OwnAlloc(s, g, r, v, m, x);
      assert x in j.own && x in h.own.Keys && OwnAfter(j, h, r, va + PGSIZE * m, f, flag, 0, x);
    }
    forall x | x in s.own && s.own[x] != Free && x in s.data ensures x in k.data && k.data[x] == s.data[x] {
      assert x in g.own.Keys && OwnAlloc(s, g, r, v, m, x);
      assert x in g.data && x in j.data && j.own[x] == g.own[x];
      assert x in h.data;
    }
    assert k.own.Keys == s.own.Keys;
  }

  lemma AllocFailSlot(g: Frames, j: Frames, h: Frames, k: Frames, r: nat, va: nat, f: nat, flag: nat, q: nat, pg: Page)
    requires MappedTo(j, h, r, va, f, flag, 0) && k.tab == h.tab && k.at == h.at && j.tab == g.tab && j.at == g.at
    ensures Slot(k, q, pg) == Slot(g, q, pg)
  {
    hide Slot, WordAt;
    SlotOfOwn(h, k, q, pg);
    SlotOfOwn(g, j, q, pg);
    assert !In(pg, va / PGSIZE, 0);
    assert Slot(h, q, pg) == Slot(j, q, pg);
  }

  /** What an entry means to the machine: nothing, unless it is valid. */
  function Meaning(w: nat): nat { if IsV(w) then w else 0 }

  /** Every translation is as before, and so is every frame, except that tables may have grown out of free frames. */
  ghost predicate Restored(s: Frames, g: Frames) {
    && (forall q, pg {:trigger Slot(g, q, pg)} :: Meaning(Slot(g, q, pg)) == Meaning(Slot(s, q, pg)))
    && (forall k {:trigger k in s.at} {:trigger k in g.at} :: k in s.at ==> k in g.at && g.at[k] == s.at[k])
    && g.own.Keys == s.own.Keys
    && (forall f {:trigger g.own[f]} :: f in s.own ==> g.own[f] == s.own[f] || (s.own[f] == Free && g.own[f].Table?))
    && (forall f {:trigger f in g.data} {:trigger f in s.data} :: f in s.own && s.own[f] != Free && f in s.data ==>
          f in g.data && g.data[f] == s.data[f])
  }

  ghost predicate NothingMapped(s: Frames, r: nat, v: nat, n: nat) {
    forall pg {:trigger Slot(s, r, pg)} :: In(pg, v, n) ==> !IsV(Slot(s, r, pg))
  }

  lemma AllocUndo(s: Frames, g: Frames, h: Frames, r: nat, v: nat, m: nat, goal: Goal)
    requires Ok(s) && Ok(g) && AllocTo(s, g, r, v, m, goal) && UnmappedTo(g, h, r, v, m, true) &&
             NothingMapped(s, r, v, m)
    ensures Restored(s, h)
  {
    hide Ok, Slot, In, IsV, IsU, PTE2PA;
    ZeroInvalid();
    forall q, pg ensures Meaning(Slot(h, q, pg)) == Meaning(Slot(s, q, pg)) {
      assert Slot(h, q, pg) == if q == r && In(pg, v, m) && IsV(Slot(g, q, pg)) then 0 else Slot(g, q, pg);
      if q == r && Due(s, goal, pg, v, m) { assert NewPage(s, g, r, pg, goal) && !IsV(Slot(s, r, pg)); }
    }
    forall f | f in s.own ensures h.own[f] == s.own[f] || (s.own[f] == Free && h.own[f].Table?) {
      assert f in g.own.Keys && OwnAlloc(s, g, r, v, m, f);
      assert f in h.own.Keys && OwnUnmapped(g, h, r, v, m, true, f);
      if s.own[f].User? { NotMapped(s, s.own[f].r, s.own[f].pg, f); }
    }
    forall f | f in s.own && s.own[f] != Free && f in s.data ensures f in h.data && h.data[f] == s.data[f] {
      assert f in g.own.Keys && OwnAlloc(s, g, r, v, m, f);
      assert f in g.data;
      if s.own[f].User? { NotMapped(s, s.own[f].r, s.own[f].pg, f); }
      assert f in h.data;
    }
  }

  /** The bytes of pages play no part in the page tables. */
  lemma SameTables(s: Frames, g: Frames)
    requires Ok(s) && g.tab == s.tab && g.free == s.free && g.own == s.own && g.at == s.at
    ensures Ok(g)
    ensures forall r, pg {:trigger Slot(g, r, pg)} :: Slot(g, r, pg) == Slot(s, r, pg)
  {
    forall k ensures KeyOk(g, k) { assert KeyOk(s, k); }
    forall k, x ensures EntryOk(g, k, x) { assert EntryOk(s, k, x); }
    forall r', q ensures LeafOk(g, r', q) { assert LeafOk(s, r', q); }
    forall x ensures OwnOk(g, x) { assert OwnOk(s, x); }
    forall k | 0 <= k < |g.free| ensures Nth(g, k) == Nth(s, k) {}
  }

  // ---- sizes ----

  /** The number of pages of a process of a given size. */
  function Pages(sz: nat): nat { TrueUp(sz) / PGSIZE }

  lemma Rounds(a: nat)
    requires TrueUp(a) < HALF
    ensures RoundUp(a) == TrueUp(a) == PGSIZE * Pages(a) && a <= TrueUp(a) < a + PGSIZE
  {
    RoundUpExactly(a);
  }

  function Less(a: nat, b: nat): nat { if a < b then 0 else a - b }

  /** The number of pages as the kernel computes it. */
  function PagesOf(sz: nat): nat { RoundUp(sz) / PGSIZE }

  lemma RoundUpPages(sz: nat)
    ensures RoundUp(sz) == PGSIZE * PagesOf(sz) && RoundUp(sz) < HALF
    ensures TrueUp(sz) < HALF ==> PagesOf(sz) == Pages(sz)
  {
    if TrueUp(sz) < HALF { Rounds(sz); }
  }

  lemma MorePages(a: nat, b: nat)
    requires a <= b
    ensures TrueUp(a) <= TrueUp(b) && Pages(a) <= Pages(b)
  {}

  /** The pages from the old size up are those whose address is below the new size. */
  lemma LastPage(a: nat, m: nat, b: nat)
    requires a <= b
    ensures TrueUp(a) + PGSIZE * m < b <==> m < Pages(b) - Pages(a)
  {}

  lemma AlignedPages(a: nat)
    requires a % PGSIZE == 0
    ensures TrueUp(a) == a && Pages(a) == a / PGSIZE && a == PGSIZE * Pages(a)
  {}

  /** A page that has just been allocated can be unmapped. */
  lemma NewCanUnmap(s: Frames, g: Frames, r: nat, v: nat, m: nat, goal: Goal, k: nat)
    requires AllocTo(s, g, r, v, m, goal) && k < m && PGSIZE * (v + k) <= VA_MAX && goal.Zeroed? && goal.flag != PTE_V
    ensures !CannotUnmap(g, r, PGSIZE * (v + k))
  {
    hide PX, Entry;
    var a := PGSIZE * (v + k);
    VpnOf(a);
    assert NewPage(s, g, r, PageOf(a), goal);
    ZeroInvalid();
    assert Low(r, PageOf(a).i, PageOf(a).j) == KeyAt(r, a, 0);
  }

  /** What UvmUnmap leaves untouched can be unmapped as before. */
  lemma CanUnmapStill(g: Frames, h: Frames, r: nat, v: nat, m: nat, freed: bool)
    requires UnmappedTo(g, h, r, v, m, freed) && PGSIZE * (v + m) <= VA_MAX && CannotUnmap(h, r, PGSIZE * (v + m))
    ensures CannotUnmap(g, r, PGSIZE * (v + m))
  {
    hide PX, Slot, IsV;
    VpnOf(PGSIZE * (v + m));
    assert Slot(h, r, PageOf(PGSIZE * (v + m))) == Slot(g, r, PageOf(PGSIZE * (v + m)));
  }

  lemma UserPages(s: Frames, g: Frames, r: nat, v: nat, m: nat, goal: Goal)
    requires AllocTo(s, g, r, v, m, goal) && goal.Zeroed?
    ensures forall pg {:trigger Slot(g, r, pg)} :: PageOk(pg) && v <= Vpn(pg) < v + m && IsV(Slot(g, r, pg)) ==>
            IsU(Slot(g, r, pg))
  {
    hide Slot, Vpn, IsV, IsU;
    forall pg | In(pg, v, m) ensures IsU(Slot(g, r, pg)) { assert NewPage(s, g, r, pg, goal); }
  }

  lemma NextUnmapped(s: Frames, g: Frames, r: nat, va: nat, m: nat, n: nat, goal: Goal)
    requires AllocTo(s, g, r, va / PGSIZE, m, goal) && NothingMapped(s, r, va / PGSIZE, n) && m < n
    requires va % PGSIZE == 0 && va + PGSIZE * m <= VA_MAX
    ensures !IsV(Slot(g, r, PageOf(va + PGSIZE * m)))
  {
    hide PX, Slot, IsV;
    PageAt(va, m);
    assert Slot(g, r, PageOf(va + PGSIZE * m)) == Slot(s, r, PageOf(va + PGSIZE * m));
  }

  lemma AllocUndone(s: Frames, r: nat, v: nat, goal: Goal, g: Frames)
    requires AllocTo(s, g, r, v, 0, goal)
    ensures Restored(s, g)
  {
    hide Slot, IsV;
    forall f | f in s.own ensures g.own[f] == s.own[f] || (s.own[f] == Free && g.own[f].Table?) {
      assert f in g.own.Keys && OwnAlloc(s, g, r, v, 0, f);
    }
  }

  lemma AllocRoot(s: Frames, g: Frames, q: nat, r: nat, v: nat, m: nat, goal: Goal)
    requires AllocTo(s, g, r, v, m, goal) && Root(q) in s.at
    ensures Root(q) in g.at
  {}

  lemma OtherSlot(s: Frames, g: Frames, o: nat, r: nat, v: nat, m: nat, goal: Goal, pg: Page)
    requires AllocTo(s, g, r, v, m, goal) && o != r
    ensures Slot(g, o, pg) == Slot(s, o, pg)
  {}

  /** The page being copied is still there, with its bytes. */
  lemma SourceKept(s: Frames, g: Frames, o: nat, r: nat, v: nat, m: nat, goal: Goal, pg: Page)
    requires Ok(s) && AllocTo(s, g, r, v, m, goal) && o != r && IsV(Slot(s, o, pg)) && IsU(Slot(s, o, pg))
    requires PTE2PA(Slot(s, o, pg)) in s.data
    ensures var f := PTE2PA(Slot(s, o, pg));
            && f in g.own && g.own[f] == s.own[f] && s.own[f] != Free && f in g.data && g.data[f] == s.data[f]
  {
    hide Slot, IsV, IsU, PTE2PA, NewPage;
    MappedFrame(s, o, pg);
    var f := PTE2PA(Slot(s, o, pg));
    assert f in g.own.Keys && OwnAlloc(s, g, r, v, m, f) && f in g.data;
  }

  /** The flags of a valid user entry say that it is one. */
  lemma FlagsOf(w: nat)
    requires IsV(w) && IsU(w)
    ensures PteFlags(w) < 1024 && PteFlags(w) % 2 == 1 && Bit(PteFlags(w), PTE_U)
  {
    var n, m := w / 1024, w % 1024;
    assert w == n * 32 * (2 * PTE_U) + m && w == n * 512 * (2 * PTE_V) + m;
    BitAbove(n * 32, m, PTE_U);
    BitAbove(n * 512, m, PTE_V);
  }

  lemma FewerMapped(s: Frames, r: nat, v: nat, m: nat, n: nat)
    requires NothingMapped(s, r, v, n) && m <= n
    ensures NothingMapped(s, r, v, m)
  {}

  lemma FrameEnd(f: nat)
    requires FrameOk(f)
    ensures f % PGSIZE == 0 && f + PGSIZE <= PA_END
  {}

  // ---- free_walk ----

  /** How freeing a page table ends: uvm_unmap or free_walk may panic, or free_walk may take a page for a table. */
  datatype FreeResult = Freed | UnmapPanic | LeafPanic | Strays

  /** The tables at and below a table, or those below its first x entries. */
  datatype Region = Whole(key: Key) | Part(key: Key, x: nat)

  predicate Within(rg: Region, k: Key) {
    match rg
    case Whole(key) =>
      (match key
       case Root(r) => k.r == r
       case Mid(r, i) => !k.Root? && k.r == r && k.i == i
       case Low(_, _, _) => k == key)
    case Part(key, x) =>
      (match key
       case Root(r) => !k.Root? && k.r == r && k.i < x
       case Mid(r, i) => k.Low? && k.r == r && k.i == i && k.j < x
       case Low(_, _, _) => false)
  }

  predicate OwnDown(s: Frames, g: Frames, rg: Region, f: nat)
    requires f in s.own && f in g.own
  {
    if s.own[f].Table? && Within(rg, s.own[f].key) then g.own[f] == Free else g.own[f] == s.own[f]
  }

  /** The tables of a region are gone and their frames free; every translation and every other page is as before. */
  ghost predicate TornDown(s: Frames, g: Frames, rg: Region) {
    && (forall k {:trigger k in g.at} {:trigger k in s.at} :: k in g.at <==> k in s.at && !Within(rg, k))
    && (forall k {:trigger g.at[k]} {:trigger k in g.at} :: k in g.at ==> g.at[k] == s.at[k])
    && (forall q, pg {:trigger Slot(g, q, pg)} :: Meaning(Slot(g, q, pg)) == Meaning(Slot(s, q, pg)))
    && g.own.Keys == s.own.Keys
    && (forall f {:trigger OwnDown(s, g, rg, f)} {:trigger g.own[f]} :: f in s.own ==> OwnDown(s, g, rg, f))
    && (forall f {:trigger f in g.data} {:trigger f in s.data} ::
          f in s.own && !(s.own[f].Table? && Within(rg, s.own[f].key)) && f in s.data ==>
              f in g.data && g.data[f] == s.data[f])
  }

  ghost predicate NoLeaves(s: Frames, key: Key) {
    forall q: nat, pg: Page {:trigger Slot(s, q, pg)} :: Within(Whole(key), Low(q, pg.i, pg.j)) ==> !IsV(Slot(s, q, pg))
  }

  /** The parent's entry for a table, cleared. */
  function Cut(s: Frames, key: Key): Frames {
    match key
    case Root(_) => s
    case Mid(r, i) =>
      if Root(r) in s.at && IsTable(s, s.at[Root(r)]) && i < 512 then
        var p := s.at[Root(r)]; s.(tab := s.tab[p := Put(s.tab[p], i, 0)])
      else s
    case Low(r, i, j) =>
      if Mid(r, i) in s.at && IsTable(s, s.at[Mid(r, i)]) && j < 512 then
        var p := s.at[Mid(r, i)]; s.(tab := s.tab[p := Put(s.tab[p], j, 0)])
      else s
  }

  lemma DownNone(s: Frames, key: Key)
    ensures TornDown(s, s, Part(key, 0))
  {}

  lemma TableAt(s: Frames, key: Key)
    requires Ok(s) && key in s.at
    ensures IsTable(s, s.at[key])
  {
    assert KeyOk(s, key);
  }

  lemma TabPteShape(f: nat)
    ensures TabPte(f) / PTE_R % 8 == 0
  {
    Halved(f / 4096);
  }

  lemma Halved(n: nat)
    ensures (n * 1024 + 1) / 2 % 8 == 0
  {
    var m := n * 64;
    assert n * 1024 + 1 == 2 * (8 * m) + 1;
    assert (2 * (8 * m) + 1) / 2 == 8 * m;
  }

  /** A valid entry of an upper table is a child table; the entries of a lowest table are those of pages. */
  lemma EntryLeads(s: Frames, key: Key, x: nat)
    requires Ok(s) && key in s.at && x < 512 && IsTable(s, s.at[key])
    ensures var w := s.tab[s.at[key]][x];
            if key.Low? then Slot(s, key.r, Page(key.i, key.j, x)) == w
            else IsV(w) ==> Bare(w) && Child(key, x) in s.at && s.at[Child(key, x)] == PTE2PA(w)
  {
    hide IsV, PTE2PA, TabPte;
    var w := s.tab[s.at[key]][x];
    assert w == Entry(s, s.at[key], x);
    if !key.Low? && IsV(w) {
      assert EntryOk(s, key, x) && KeyOk(s, Child(key, x));
      TabPteOk(s.at[Child(key, x)]);
      TabPteShape(s.at[Child(key, x)]);
    }
  }

  /** free_walk takes a valid entry without PTE_R, PTE_W and PTE_X for a table. */
  predicate Bare(w: nat) { w / PTE_R % 8 == 0 }

  /** A page under `key` is mapped with neither PTE_R, PTE_W nor PTE_X. */
  ghost predicate BareLeaf(s: Frames, key: Key) {
    exists q: nat, pg: Page {:trigger Slot(s, q, pg)} ::
      Within(Whole(key), Low(q, pg.i, pg.j)) && IsV(Slot(s, q, pg)) && Bare(Slot(s, q, pg))
  }

  /** The index of a page in the table `key` above it. */
  function Index(key: Key, pg: Page): nat { if key.Root? then pg.i else if key.Mid? then pg.j else pg.l }

  /** No page under the first x entries of `key` is mapped. */
  ghost predicate ClearTo(s: Frames, key: Key, x: nat) {
    forall q: nat, pg: Page {:trigger Slot(s, q, pg)} ::
      Within(Whole(key), Low(q, pg.i, pg.j)) && Index(key, pg) < x ==> !IsV(Slot(s, q, pg))
  }

  /** An entry of a table being freed that is a leaf. */
  lemma MetLeaf(s: Frames, key: Key, x: nat)
    requires Ok(s) && key in s.at && x < 512 && IsTable(s, s.at[key]) && IsV(s.tab[s.at[key]][x])
    requires key.Low? || !Bare(s.tab[s.at[key]][x])
    ensures !NoLeaves(s, key) && (Bare(s.tab[s.at[key]][x]) ==> BareLeaf(s, key))
  {
    hide IsV, Bare, Ok, Slot;
    EntryLeads(s, key, x);
    assert Within(Whole(key), Low(key.r, key.i, key.j));
    assert Slot(s, key.r, Page(key.i, key.j, x)) == s.tab[s.at[key]][x];
  }

  lemma ClearNone(s: Frames, key: Key)
    ensures ClearTo(s, key, 0)
  {}

  /** A mapped page has indices below 512. */
  lemma SlotInRange(s: Frames, q: nat, pg: Page)
    requires Ok(s) && IsV(Slot(s, q, pg))
    ensures pg.i < 512 && pg.j < 512 && pg.l < 512
  {
    hide IsV, TabPte;
    ZeroInvalid();
    assert KeyOk(s, Low(q, pg.i, pg.j)) && KeyOk(s, Mid(q, pg.i));
  }

  lemma ClearAll(s: Frames, key: Key)
    requires Ok(s) && ClearTo(s, key, 512)
    ensures NoLeaves(s, key)
  {
    hide Ok, IsV, Slot, Within;
    forall q: nat, pg: Page | Within(Whole(key), Low(q, pg.i, pg.j)) ensures !IsV(Slot(s, q, pg)) {
      if IsV(Slot(s, q, pg)) { SlotInRange(s, q, pg); }
    }
  }

  /** An entry of a lowest table that is not valid, or an upper entry without a table. */
  lemma ClearSkip(s: Frames, key: Key, x: nat)
    requires Ok(s) && key in s.at && x < 512 && IsTable(s, s.at[key]) && ClearTo(s, key, x)
    requires !IsV(s.tab[s.at[key]][x])
    ensures ClearTo(s, key, x + 1)
  {
    hide IsV, Ok;
    ZeroInvalid();
    forall q: nat, pg: Page | Within(Whole(key), Low(q, pg.i, pg.j)) && Index(key, pg) < x + 1
      ensures !IsV(Slot(s, q, pg))
    {
      if Index(key, pg) == x && !key.Low? { NoneUnder(s, key, x, Low(q, pg.i, pg.j)); }
    }
  }

  /** The subtree of entry x is gone and had no leaves. */
  lemma ClearChild(s: Frames, g: Frames, key: Key, x: nat)
    requires !key.Low? && TornDown(s, g, Whole(Child(key, x))) && ClearTo(s, key, x) && NoLeaves(s, Child(key, x))
    ensures ClearTo(g, key, x + 1)
  {
    hide Slot, IsV, Meaning;
    forall q: nat, pg: Page | Within(Whole(key), Low(q, pg.i, pg.j)) && Index(key, pg) < x + 1
      ensures !IsV(Slot(g, q, pg))
    {
      SameValid(Slot(g, q, pg), Slot(s, q, pg));
      assert Index(key, pg) == x ==> Within(Whole(Child(key, x)), Low(q, pg.i, pg.j));
    }
  }

  /** What a subtree has, the tree has, and had before parts without leaves were taken down. */
  lemma LeavesWere(s: Frames, g: Frames, rg: Region, key: Key, kid: Key)
    requires TornDown(s, g, rg) && (kid == key || (!key.Low? && exists x :: kid == Child(key, x)))
    ensures !NoLeaves(g, kid) ==> !NoLeaves(s, key)
    ensures BareLeaf(g, kid) ==> BareLeaf(s, key)
  {
    hide Slot, IsV, Bare;
    ZeroInvalid();
    forall q: nat, pg: Page ensures IsV(Slot(g, q, pg)) ==> Slot(g, q, pg) == Slot(s, q, pg) {
      assert Meaning(Slot(g, q, pg)) == Meaning(Slot(s, q, pg));
    }
  }

  lemma SameValid(v: nat, w: nat)
    requires Meaning(v) == Meaning(w)
    ensures IsV(v) <==> IsV(w)
  {
    ZeroInvalid();
  }

  lemma LeavesStay(s: Frames, g: Frames, rg: Region, key: Key)
    requires TornDown(s, g, rg)
    ensures NoLeaves(g, key) <==> NoLeaves(s, key)
  {
    hide Slot, IsV, Meaning;
    forall q: nat, pg: Page ensures IsV(Slot(g, q, pg)) <==> IsV(Slot(s, q, pg)) {
      assert Meaning(Slot(g, q, pg)) == Meaning(Slot(s, q, pg));
      SameValid(Slot(g, q, pg), Slot(s, q, pg));
    }
    forall q: nat, pg: Page | NoLeaves(g, key) && Within(Whole(key), Low(q, pg.i, pg.j)) ensures !IsV(Slot(s, q, pg)) {
      assert !IsV(Slot(g, q, pg));
    }
  }

  /** Freeing a child leaves its parent in place; what is left to do is to clear the entry. */
  lemma CutFields(g: Frames, s: Frames, key: Key, x: nat)
    requires !key.Low? && x < 512 && key in g.at
    requires Ok(Cut(s, Child(key, x))) && TornDown(g, Cut(s, Child(key, x)), Whole(Child(key, x)))
    ensures key in s.at && s.at[key] == g.at[key] && IsTable(s, s.at[key])
    ensures Cut(s, Child(key, x)) == s.(tab := s.tab[s.at[key] := Put(s.tab[s.at[key]], x, 0)])
  {
    var h := Cut(s, Child(key, x));
    assert h.at == s.at && key in h.at && KeyOk(h, key);
  }

  lemma DownStepOwn(s: Frames, g: Frames, h: Frames, key: Key, x: nat, f: nat)
    requires !key.Low? && f in s.own && f in g.own && f in h.own
    requires OwnDown(s, g, Part(key, x), f) && OwnDown(g, h, Whole(Child(key, x)), f)
    ensures OwnDown(s, h, Part(key, x + 1), f)
  {}

  lemma DownStep(s: Frames, g: Frames, h: Frames, key: Key, x: nat)
    requires !key.Low? && TornDown(s, g, Part(key, x)) && TornDown(g, h, Whole(Child(key, x)))
    ensures TornDown(s, h, Part(key, x + 1))
  {
    hide Slot, IsV, OwnDown, Meaning;
    forall f | f in s.own ensures OwnDown(s, h, Part(key, x + 1), f) {
      assert f in g.own.Keys && f in h.own.Keys && OwnDown(s, g, Part(key, x), f) &&
             OwnDown(g, h, Whole(Child(key, x)), f);
      DownStepOwn(s, g, h, key, x, f);
    }
    forall f | f in s.own && !(s.own[f].Table? && Within(Part(key, x + 1), s.own[f].key)) && f in s.data
      ensures f in h.data && h.data[f] == s.data[f] {
      DownStepData(s, g, h, key, x, f);
    }
    forall q, pg ensures Meaning(Slot(h, q, pg)) == Meaning(Slot(s, q, pg)) {
      assert Meaning(Slot(g, q, pg)) == Meaning(Slot(s, q, pg));
    }
  }

  lemma DownStepData(s: Frames, g: Frames, h: Frames, key: Key, x: nat, f: nat)
    requires !key.Low? && TornDown(s, g, Part(key, x)) && TornDown(g, h, Whole(Child(key, x)))
    requires f in s.own && !(s.own[f].Table? && Within(Part(key, x + 1), s.own[f].key)) && f in s.data
    ensures f in h.data && h.data[f] == s.data[f]
  {
    hide Slot, IsV, Meaning;
    assert f in g.own.Keys && OwnDown(s, g, Part(key, x), f);
    assert f in g.data;
  }

  /** Below an entry that is not valid there is no table. */
  lemma NoneUnder(g: Frames, key: Key, x: nat, k: Key)
    requires Ok(g) && key in g.at && x < 512 && IsTable(g, g.at[key]) && !IsV(g.tab[g.at[key]][x])
    requires !key.Low? && Within(Whole(Child(key, x)), k)
    ensures k !in g.at
  {
    hide IsV, TabPte;
    assert KeyOk(g, k) && KeyOk(g, Child(key, x));
    assert g.tab[g.at[key]][x] == Entry(g, g.at[key], x);
    if Child(key, x) in g.at { TabPteOk(g.at[Child(key, x)]); }
  }

  lemma DownSkip(s: Frames, g: Frames, key: Key, x: nat)
    requires Ok(s) && Ok(g) && TornDown(s, g, Part(key, x)) && key in g.at && x < 512
    requires IsTable(g, g.at[key]) && !IsV(g.tab[g.at[key]][x])
    ensures TornDown(s, g, Part(key, x + 1))
  {
    hide Slot, IsV, Meaning, Entry;
    if !key.Low? {
      forall k | k in s.at ensures Within(Part(key, x), k) <==> Within(Part(key, x + 1), k) {
        if Within(Whole(Child(key, x)), k) { NoneUnder(g, key, x, k); }
      }
      forall f | f in s.own ensures OwnDown(s, g, Part(key, x + 1), f) {
        assert OwnOk(s, f) && f in g.own.Keys && OwnDown(s, g, Part(key, x), f);
      }
    } else {
      forall f | f in s.own ensures OwnDown(s, g, Part(key, x + 1), f) {
        assert f in g.own.Keys && OwnDown(s, g, Part(key, x), f);
      }
    }
  }

  /** The last act of free_walk: the table itself is freed. */
  function Dropped(g: Frames, key: Key): Frames
    requires key in g.at
  {
    var t := g.at[key];
    Given(g.(at := g.at - {key}, own := g.own[t := Held]), t).(data := g.data[t := Fill(1)])
  }

  lemma DroppedIs(g: Frames, key: Key)
    requires Ok(g) && key in g.at && KeyOk(g, key)
    ensures Cut(Dropped(g, key), key) == Given(Pruned(g, key), g.at[key]).(data := g.data[g.at[key] := Fill(1)])
  {
    if key.Mid? { assert KeyOk(g, Root(key.r)); }
    if key.Low? { assert KeyOk(g, Mid(key.r, key.i)); }
  }

  /** A table whose children are gone and that has no leaves has no valid entry. */
  lemma AllSwept(s: Frames, g: Frames, key: Key, i: nat)
    requires Ok(g) && TornDown(s, g, Part(key, 512)) && key in g.at && NoLeaves(g, key)
    ensures !IsV(Entry(g, g.at[key], i))
  {
    hide IsV, TabPte;
    ZeroInvalid();
    if key.Low? {
      assert Slot(g, key.r, Page(key.i, key.j, i)) == Entry(g, g.at[key], i);
    } else {
      assert EntryOk(g, key, i);
      assert i < 512 ==> Within(Part(key, 512), Child(key, i));
    }
  }

  lemma DownAllOk(s: Frames, g: Frames, key: Key)
    requires Ok(s) && Ok(g) && TornDown(s, g, Part(key, 512)) && key in g.at && NoLeaves(g, key)
    ensures KeyOk(g, key) && Ok(Cut(Dropped(g, key), key))
    ensures forall q: nat, pg: Page {:trigger Slot(Cut(Dropped(g, key), key), q, pg)} ::
              Meaning(Slot(Cut(Dropped(g, key), key), q, pg)) == Meaning(Slot(g, q, pg))
  {
    hide Slot, IsV, TornDown, FreeOk;
    assert KeyOk(g, key);
    var t := g.at[key];
    forall i ensures !IsV(Entry(g, t, i)) { AllSwept(s, g, key, i); }
    PrunedOk(g, key);
    GivenOk(Pruned(g, key), t);
    var h := Given(Pruned(g, key), t);
    var k := h.(data := g.data[t := Fill(1)]);
    SameTables(h, k);
    DroppedIs(g, key);
    ZeroInvalid();
    forall q: nat, pg: Page ensures Meaning(Slot(k, q, pg)) == Meaning(Slot(g, q, pg)) {
      SlotOfOwn(Pruned(g, key), k, q, pg);
      assert Slot(Pruned(g, key), q, pg) == if key == Low(q, pg.i, pg.j) then 0 else Slot(g, q, pg);
    }
  }

  lemma WholeIs(s: Frames, key: Key, k: Key)
    requires Ok(s) && k in s.at
    ensures Within(Whole(key), k) <==> Within(Part(key, 512), k) || k == key
  {
    hide Slot, FreeOk, TabPte;
    assert KeyOk(s, k);
    if k.Low? { assert KeyOk(s, Mid(k.r, k.i)); }
  }

  /** What owns a table is its place in the tree. */
  lemma TableOwner(s: Frames, f: nat)
    requires Ok(s) && f in s.own && s.own[f].Table?
    ensures s.own[f].key in s.at && s.at[s.own[f].key] == f
  {
    assert OwnOk(s, f);
  }

  lemma DownAll(s: Frames, g: Frames, key: Key)
    requires Ok(s) && Ok(g) && TornDown(s, g, Part(key, 512)) && key in g.at && NoLeaves(g, key)
    ensures Ok(Cut(Dropped(g, key), key)) && TornDown(s, Cut(Dropped(g, key), key), Whole(key))
  {
    hide Ok, Slot, IsV, Meaning, Within;
    DownAllOk(s, g, key);
    var h, t := Cut(Dropped(g, key), key), g.at[key];
    assert h.at == g.at - {key} && h.own == g.own[t := Free] && h.data == g.data[t := Fill(1)];
    assert t in g.own && g.own[t] == Table(key);
    assert key in s.at && t in s.own.Keys && OwnDown(s, g, Part(key, 512), t);
    forall k | k in s.at ensures Within(Whole(key), k) <==>
        Within(Part(key, 512), k) || k == key { WholeIs(s, key, k); }
    forall q, pg ensures Meaning(Slot(h, q, pg)) == Meaning(Slot(s, q, pg)) {
      assert Meaning(Slot(g, q, pg)) == Meaning(Slot(s, q, pg));
    }
    forall f | f in s.own ensures OwnDown(s, h, Whole(key), f) {
      if s.own[f].Table? { TableOwner(s, f); }
      assert f in g.own.Keys && OwnDown(s, g, Part(key, 512), f);
    }
    forall f | f in s.own && !(s.own[f].Table? && Within(Whole(key), s.own[f].key)) && f in s.data
      ensures f in h.data && h.data[f] == s.data[f] {
      if s.own[f].Table? { TableOwner(s, f); }
      assert f in g.own.Keys && OwnDown(s, g, Part(key, 512), f) && f in g.data;
    }
    assert h.own.Keys == s.own.Keys;
  }

  // ---- uvm_free ----

  predicate OwnReleased(s: Frames, g: Frames, r: nat, f: nat)
    requires f in s.own && f in g.own
  {
    if (s.own[f].Table? && s.own[f].key.r == r) || (s.own[f].User? && s.own[f].r == r) then g.own[f] == Free
    else g.own[f] == s.own[f]
  }

  /** Space r is gone, every table and user page of it is on the free list, and every other space, frame and page is
      as before. */
  ghost predicate Released(s: Frames, g: Frames, r: nat) {
    && (forall k {:trigger k in g.at} {:trigger k in s.at} :: k in g.at <==> k in s.at && k.r != r)
    && (forall q, pg {:trigger Slot(g, q, pg)} :: q != r ==> Meaning(Slot(g, q, pg)) == Meaning(Slot(s, q, pg)))
    && g.own.Keys == s.own.Keys
    && (forall f {:trigger OwnReleased(s, g, r, f)} {:trigger g.own[f]} :: f in s.own ==> OwnReleased(s, g, r, f))
    && (forall f {:trigger f in g.data} {:trigger f in s.data} ::
          f in s.own && g.own[f] == s.own[f] && s.own[f] != Free && f in s.data ==>
            f in g.data && g.data[f] == s.data[f])
  }

  /** Every mapped page of r is one of the first n. */
  ghost predicate AllBelow(s: Frames, r: nat, n: nat) {
    forall pg: Page {:trigger Slot(s, r, pg)} :: IsV(Slot(s, r, pg)) ==> In(pg, 0, n)
  }

  lemma NothingToUnmap(s: Frames, r: nat)
    ensures PagesOf(0) == 0 && Unmappable(s, r, 0, 0)
  {}

  lemma CutRoot(s: Frames, r: nat)
    ensures Cut(s, Root(r)) == s
  {}

  lemma UnmappedAll(s: Frames, g: Frames, r: nat, n: nat)
    requires Ok(s) && Ok(g) && UnmappedTo(s, g, r, 0, n, true) && Root(r) in s.at
    ensures Root(r) in g.at && g.at[Root(r)] == r && (NoLeaves(g, Root(r)) <==> AllBelow(s, r, n))
    ensures BareLeaf(g, Root(r)) ==> BareLeaf(s, Root(r))
  {
    hide Slot, IsV;
    ZeroInvalid();
    assert KeyOk(s, Root(r));
    forall pg: Page ensures Slot(g, r, pg) == if In(pg, 0, n) && IsV(Slot(s, r, pg)) then 0 else Slot(s, r, pg) {}
    if NoLeaves(g, Root(r)) {
      forall pg: Page | IsV(Slot(s, r, pg)) ensures In(pg, 0, n) {
        assert Within(Whole(Root(r)), Low(r, pg.i, pg.j)) && !IsV(Slot(g, r, pg));
      }
    }
  }

  lemma ReleasedAll(s: Frames, g: Frames, h: Frames, r: nat, n: nat)
    requires Ok(s) && UnmappedTo(s, g, r, 0, n, true) && TornDown(g, h, Whole(Root(r))) && AllBelow(s, r, n)
    ensures Released(s, h, r)
  {
    hide Slot, IsV, Ok, In, Meaning;
    forall q: nat, pg: Page | q != r ensures Meaning(Slot(h, q, pg)) == Meaning(Slot(s, q, pg)) {
      assert Meaning(Slot(h, q, pg)) == Meaning(Slot(g, q, pg));
      assert Slot(g, q, pg) == Slot(s, q, pg);
    }
    forall f | f in s.own ensures OwnReleased(s, h, r, f) {
      assert f in g.own.Keys && OwnUnmapped(s, g, r, 0, n, true, f);
      assert f in h.own.Keys && OwnDown(g, h, Whole(Root(r)), f);
      if s.own[f].User? { NotMapped(s, s.own[f].r, s.own[f].pg, f); }
    }
    forall f | f in s.own && h.own[f] == s.own[f] && s.own[f] != Free && f in s.data ensures f in h.data &&
        h.data[f] == s.data[f] {
      assert OwnReleased(s, h, r, f) && f in g.own.Keys && OwnUnmapped(s, g, r, 0, n, true, f);
      assert f in g.data;
    }
  }

  // ---- uvm_clear ----

  /** uvm_clear drops PTE_V of an entry. Every frame stays accounted for exactly if no user page was mapped there. */
  lemma ClearKeeps(s: Frames, r: nat, pg: Page)
    requires Ok(s) && Low(r, pg.i, pg.j) in s.at && pg.l < 512
    ensures IsTable(s, s.at[Low(r, pg.i, pg.j)])
    ensures var w := Slot(s, r, pg);
            Ok(SetLeaf(s, r, pg, if IsV(w) then w - PTE_V else w)) <==> !(IsV(w) && IsU(w))
  {
    hide IsU, PTE2PA, TabPte, FrameOk, Bit;
    assert KeyOk(s, Low(r, pg.i, pg.j));
    var w := Slot(s, r, pg);
    ClearedBit(w);
    var w': nat := if IsV(w) then w - PTE_V else w;
    var g := SetLeaf(s, r, pg, w');
    SetLeafSlots(s, r, pg, w');
    if IsV(w) && IsU(w) {
      MappedFrame(s, r, pg);
      assert !OwnOk(g, PTE2PA(w));
    } else {
      ClearedTables(s, r, pg, w');
      forall q, x ensures LeafOk(g, q, x) { assert LeafOk(s, q, x); }
      forall x ensures OwnOk(g, x) { assert OwnOk(s, x); }
      forall k | 0 <= k < |g.free| ensures Nth(g, k) == Nth(s, k) {}
    }
  }

  lemma ClearedBit(w: nat)
    ensures IsV(w) ==> w >= PTE_V && !IsV(w - PTE_V)
  {}

  lemma ClearedTables(s: Frames, r: nat, pg: Page, w: nat)
    requires Ok(s) && Low(r, pg.i, pg.j) in s.at && pg.l < 512 && IsTable(s, s.at[Low(r, pg.i, pg.j)])
    ensures forall k {:trigger KeyOk(SetLeaf(s, r, pg, w), k)} :: KeyOk(SetLeaf(s, r, pg, w), k)
    ensures forall k, x {:trigger EntryOk(SetLeaf(s, r, pg, w), k, x)} :: EntryOk(SetLeaf(s, r, pg, w), k, x)
  {
    hide IsV, IsU, PTE2PA, TabPte, FrameOk;
    var g := SetLeaf(s, r, pg, w);
    forall k ensures KeyOk(g, k) {
      assert KeyOk(s, k) && KeyOk(s, Low(r, pg.i, pg.j));
      if k.Mid? { assert KeyOk(s, Root(k.r)); }
      if k.Low? { assert KeyOk(s, Mid(k.r, k.i)); }
    }
    forall k, x ensures EntryOk(g, k, x) { assert EntryOk(s, k, x) && KeyOk(s, k) && KeyOk(s, Low(r, pg.i, pg.j)); }
  }
}
