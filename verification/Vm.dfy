/** The frame allocator, page tables and user memory of the kernel. */
module Vm {

  import opened Paging
  import opened Tables
  import opened Spaces
  import opened Budget
  import opened UserMem

  class Memory {
    var tab: map<nat, seq<nat>>
    var free: seq<nat>
    var data: map<nat, seq<nat>>
    ghost var own: map<nat, Owner>
    ghost var at: map<Key, nat>

    ghost function S(): Frames
      reads this
    {
      Frames(tab, free, own, at, data)
    }

    /** kinit: the frames from the end of the kernel to the end of memory are freed in turn; there are no tables. */
    constructor (end: nat, top: nat)
      requires 0 < RoundUp(end) && top <= PA_END
      ensures Ok(S()) && Backed(S()) && at == map[]
      ensures forall f: nat {:trigger f in own} :: f in own <==> FrameOk(f) && RoundUp(end) <= f && f + PGSIZE <= top
      ensures forall f {:trigger own[f]} :: f in own ==> own[f] == Free
      ensures |free| == Less(top, RoundUp(end)) / PGSIZE
    {
      tab, free, data, own, at := map[], [], map[], map[], map[];
      new;
      NoFramesOk();
      RoundUpPages(end);
      hide Ok, RoundUp;
      var p := RoundUp(end);
      while p + PGSIZE <= top
        invariant RoundUp(end) <= p && p % PGSIZE == 0 && Ok(S()) && at == map[]
        invariant forall f: nat {:trigger f in own} ::
                    f in own <==> FrameOk(f) && RoundUp(end) <= f < p && f + PGSIZE <= top
        invariant forall f {:trigger own[f]} :: f in own ==> own[f] == Free
        invariant p == RoundUp(end) + PGSIZE * |free| && (|free| > 0 ==> p <= top)
      {
        HeldMore(S(), p);
        own := own[p := Held];
        Kfree(p);
        p := p + PGSIZE;
      }
      NoSlots(S());
    }

    method Kfree(f: nat)
      requires f in own && own[f] == Held
      modifies this`free, this`own, this`data
      ensures S() == Given(old(S()), f).(data := old(data)[f := Fill(1)]) && (old(Ok(S())) ==> Ok(S()))
    {
      if Ok(S()) { GivenOk(S(), f); }
      data := data[f := Fill(1)];
      free, own := free + [f], own[f := Free];
      if old(Ok(S())) { SameTables(Given(old(S()), f), S()); }
    }

    method Kalloc() returns (f: nat)
      requires Ok(S())
      modifies this`free, this`own, this`data
      ensures Ok(S()) && (f == 0 <==> old(free) == []) && (f == 0 ==> S() == old(S()))
      ensures f != 0 ==>
        && FrameOk(f) && old(free) != [] && f == old(free)[|old(free)| - 1] && f in old(own) && old(own)[f] == Free
        && S() == Taken(old(S())).(data := old(data)[f := Fill(5)])
    {
      if free == [] { return 0; }
      f := free[|free| - 1];
      TakenOk(S());
      assert OwnOk(S(), f);
      free, own := free[..|free| - 1], own[f := Held];
      data := data[f := Fill(5)];
      SameTables(Taken(old(S())), S());
    }

    /** Finds, or with `alloc` makes, the lowest-level entry of an address. */
    method Walk(r: nat, va: nat, alloc: bool) returns (ok: bool, p: nat, l: nat)
      requires Ok(S()) && Root(r) in at && va <= VA_MAX
      modifies this
      ensures Ok(S()) && Grew(old(S()), S())
      ensures ok ==> KeyAt(r, va, 0) in at && p == at[KeyAt(r, va, 0)] && l == PX(0, va)
      ensures !alloc ==> S() == old(S()) && (ok <==> KeyAt(r, va, 0) in at)
      ensures alloc && !ok ==> free == [] && KeyAt(r, va, 0) !in at
      ensures old(at).Keys <= at.Keys <= old(at).Keys + Path(r, va) && |free| + |at| == old(|free| + |at|)
      ensures ok ==> Path(r, va) <= at.Keys
    {
      hide Ok, Grew, PX;
      RootIs(S(), r);
      GrewNone(S());
      p, l, ok := r, PX(0, va), false;
      var level := 2;
      while level > 0
        invariant 0 <= level <= 2 && Ok(S()) && Grew(old(S()), S())
        invariant KeyAt(r, va, level) in at && p == at[KeyAt(r, va, level)]
        invariant !alloc ==> S() == old(S())
        invariant old(at).Keys <= at.Keys <= old(at).Keys + Path(r, va) && |free| + |at| == old(|free| + |at|)
        invariant level < 2 ==> KeyAt(r, va, 1) in at
      {
        Descend(S(), r, va, level);
        var w := tab[p][PX(level, va)];
        if Bit(w, PTE_V) {
          p := PTE2PA(w);
        } else {
          if !alloc {
            NoneBelow(S(), r, va, level - 1);
            return;
          }
          ghost var s1 := S();
          var more;
          more, p := Extend(r, va, level, p);
          GrewMore(old(S()), s1, S());
          if !more {
            NoneBelow(S(), r, va, level - 1);
            return;
          }
        }
        level := level - 1;
      }
      ok := true;
    }

    /** Adds exactly the pages va, va + 4096, .. with frames pa, pa + 4096, ..; m of them if memory runs out, or if
        page m is already mapped or out of range. */
    method MapPages(r: nat, va: nat, pa: nat, size: nat, flag: nat) returns (res: MapResult, ghost m: nat)
      requires Ok(S()) && Root(r) in at && flag < 1024
      requires 0 < pa && pa % PGSIZE == 0 && pa + size <= PA_END
      requires Bit(flag, PTE_U) ==>
                 forall k: nat {:trigger HeldAt(S(), pa, k)} :: PGSIZE * k < size ==> HeldAt(S(), pa, k)
      modifies this
      ensures Ok(S()) && MappedTo(old(S()), S(), r, va, pa, flag, m)
      ensures res == BadCall <==> va % PGSIZE != 0 || size % PGSIZE != 0 || size == 0
      ensures if res == AllMapped then m == size / PGSIZE else if res == BadCall then m == 0 else m < size / PGSIZE
      ensures res == TooHigh ==> va + PGSIZE * m > VA_MAX
      ensures res == NoMemory ==> free == [] && KeyAt(r, va + PGSIZE * m, 0) !in at
      ensures |free| + |at| == old(|free| + |at|) && old(at).Keys + Paths(r, va, m) <= at.Keys
      ensures at.Keys <= old(at).Keys + Paths(r, va, if res == AllMapped then m else m + 1)
      ensures res == Remap ==> IsV(Slot(S(), r, PageOf(va + PGSIZE * m)))
    {
      hide Ok, MappedTo, PageOf, KeyAt, Bit, Slot, PX, Path, Paths;
      m := 0;
      PathsMore(r, va, 0);
      OwnedFrames(S());
      MappedNone(S(), r, va, pa, flag);
      if va % PGSIZE != 0 { return BadCall, 0; }
      if size % PGSIZE != 0 { return BadCall, 0; }
      if size == 0 { return BadCall, 0; }
      var a, p, last := va, pa, va + size - PGSIZE;
      while true
        invariant a == va + PGSIZE * m && p == pa + PGSIZE * m && PGSIZE * m < size
        invariant Ok(S()) && Root(r) in at && MappedTo(old(S()), S(), r, va, pa, flag, m)
        invariant |free| + |at| == old(|free| + |at|) && at.Keys == old(at).Keys + Paths(r, va, m)
        decreases size - PGSIZE * m
      {
        FramesFrom(pa, size, m);
        PathsMore(r, va, m);
        assert Bit(flag, PTE_U) ==> HeldAt(old(S()), pa, m);
        res := MapNext(old(S()), r, va, pa, m, a, p, flag);
        if res != AllMapped { return; }
        m := m + 1;
        if a == last { return; }
        a, p := a + PGSIZE, p + PGSIZE;
      }
    }

    /** One round of map_pages. */
    method MapNext(ghost s: Frames, r: nat, ghost va: nat, ghost pa: nat, ghost m: nat, a: nat, p: nat, flag: nat)
      returns (res: MapResult)
      requires Ok(S()) && Root(r) in at && flag < 1024 && MappedTo(s, S(), r, va, pa, flag, m)
      requires a == va + PGSIZE * m && p == pa + PGSIZE * m && va % PGSIZE == 0 && pa % PGSIZE == 0
      requires FrameOk(p) && (Bit(flag, PTE_U) ==> HeldAt(s, pa, m))
      requires forall f {:trigger f in s.own} :: f in s.own ==> FrameOk(f)
      modifies this
      ensures Ok(S()) && Root(r) in at && MappedTo(s, S(), r, va, pa, flag, if res == AllMapped then m + 1 else m)
      ensures old(at).Keys <= at.Keys <= old(at).Keys + Path(r, a) && |free| + |at| == old(|free| + |at|)
      ensures res == AllMapped ==> Path(r, a) <= at.Keys
      ensures res == NoMemory ==> free == [] && KeyAt(r, a, 0) !in at
      ensures res == Remap ==> IsV(Slot(S(), r, PageOf(a)))
      ensures res != BadCall && (res == TooHigh <==> a > VA_MAX)
    {
      hide Ok, MappedTo, Grew, PageOf, KeyAt, Bit, IsTable, Slot, PX, Put, Path;
      if a > VA_MAX { return TooHigh; }
      ghost var s1 := S();
      var ok, t, l := Walk(r, a, true);
      MappedGrew(s, s1, S(), r, va, pa, flag, m);
      GrewRoot(s1, S(), r);
      if !ok { return NoMemory; }
      LowTable(S(), r, a);
      if Bit(tab[t][l], PTE_V) { return Remap; }
      MappedOne(s, S(), r, va, pa, flag, m);
      ghost var s2 := S();
      tab := tab[t := Put(tab[t], l, PteWord(p, flag))];
      own := Mapped(s2, r, PageOf(a), PteWord(p, flag)).own;
      return AllMapped;
    }

    /** map_pages on one page that is not mapped. */
    method MapOne(r: nat, a: nat, f: nat, flag: nat) returns (done: bool)
      requires Ok(S()) && Root(r) in at && flag < 1024 && a % PGSIZE == 0 && a <= VA_MAX
      requires FrameOk(f) && (Bit(flag, PTE_U) ==> f in own && own[f] == Held) && !IsV(Slot(S(), r, PageOf(a)))
      modifies this
      ensures Ok(S()) && MappedTo(old(S()), S(), r, a, f, flag, if done then 1 else 0)
      ensures old(at).Keys <= at.Keys <= old(at).Keys + Path(r, a) && |free| + |at| == old(|free| + |at|)
      ensures if done then Path(r, a) <= at.Keys else free == [] && KeyAt(r, a, 0) !in at
    {
      hide Ok, MappedTo, Slot, PageOf, PX, Path, Paths;
      FrameEnd(f);
      forall k: nat | Bit(flag, PTE_U) && PGSIZE * k < PGSIZE ensures HeldAt(S(), f, k) {}
      PathsMore(r, a, 0);
      var res, n := MapPages(r, a, f, PGSIZE, flag);
      if res != AllMapped { NotRemap(old(S()), S(), r, a, f, flag); }
      done := res == AllMapped;
    }

    /** Unmaps exactly the mapped pages of a range; panics, after m pages, exactly where it cannot. */
    method UvmUnmap(r: nat, va: nat, npages: nat, freed: bool) returns (ok: bool, ghost m: nat)
      requires Ok(S()) && Root(r) in at
      requires freed ==> forall pg {:trigger Slot(S(), r, pg)} ::
                 In(pg, va / PGSIZE, npages) && IsV(Slot(S(), r, pg)) ==> IsU(Slot(S(), r, pg))
      modifies this
      ensures Ok(S()) && UnmappedTo(old(S()), S(), r, va / PGSIZE, m, freed)
      ensures if ok then va % PGSIZE == 0 && m == npages
              else if va % PGSIZE != 0 then m == 0
              else m < npages && CannotUnmap(S(), r, va + PGSIZE * m)
      ensures ok <==> va % PGSIZE == 0 && Unmappable(old(S()), r, va, npages)
      ensures Unmappable(old(S()), r, va, m) && (va % PGSIZE == 0 && m < npages ==> CannotAt(old(S()), r, va, m))
      ensures old(Backed(S())) ==> Backed(S())
    {
      hide Ok, UnmappedTo, PageOf, KeyAt, IsTable, Slot, PX, Put, In, Vpn, PTE2PA, Backed, CannotAt;
      m, ok := 0, false;
      UnmappedNone(S(), r, va / PGSIZE, freed);
      if va % PGSIZE != 0 { return; }
      var a := va;
      while a < va + npages * PGSIZE
        invariant a == va + PGSIZE * m && m <= npages
        invariant Ok(S()) && Root(r) in at && UnmappedTo(old(S()), S(), r, va / PGSIZE, m, freed)
        invariant Unmappable(old(S()), r, va, m)
      {
        ghost var s1 := S();
        ObstacleStays(old(S()), s1, r, va, m, freed);
        UnmapBacked(old(S()), s1, r, va / PGSIZE, m, freed);
        if a > VA_MAX { return; }
        PageAt(va, m);
        var found, t, l := Walk(r, a, false);
        if !found { return; }
        LowTable(S(), r, a);
        var w := tab[t][l];
        if !Bit(w, PTE_V) {
          SkipInvalid(old(S()), S(), r, va / PGSIZE, m, freed, PageOf(a));
        } else {
          if PteFlags(w) == PTE_V { return; }
          StillUser(old(S()), S(), r, va / PGSIZE, m, freed, PageOf(a), npages);
          UnmapStepOk(old(S()), S(), r, va / PGSIZE, m, freed, PageOf(a));
          if Bit(w, PTE_U) { MappedFrame(S(), r, PageOf(a)); }
          own := Unmapped(s1, r, PageOf(a)).own;
          if freed { Kfree(PTE2PA(w)); }
          tab := tab[t := Put(tab[t], l, 0)];
        }
        m := m + 1;
        a := a + PGSIZE;
      }
      UnmapBacked(old(S()), S(), r, va / PGSIZE, m, freed);
      ok := true;
    }

    /** uvm_create: an empty space, or 0 when there is no frame left. */
    method UvmCreate() returns (r: nat)
      requires Ok(S())
      modifies this
      ensures Ok(S()) && (r == 0 <==> old(free) == []) && (r == 0 ==> S() == old(S()))
      ensures r != 0 ==>
        && Root(r) !in old(at) && at == old(at)[Root(r) := r] && r in old(own) && old(own)[r] == Free
        && own == old(own)[r := Table(Root(r))] && |free| == |old(free)| - 1
        && (forall f {:trigger f in data} :: f in old(data) && f != r ==> f in data && data[f] == old(data)[f])
        && forall q, pg {:trigger Slot(S(), q, pg)} :: Slot(S(), q, pg) == Slot(old(S()), q, pg)
    {
      ghost var s0 := S();
      r := Kalloc();
      if r == 0 { return; }
      ghost var s1 := S();
      RootedOk(s1, r);
      tab := tab[r := Zeros()];
      at, own := at[Root(r) := r], own[r := Table(Root(r))];
      forall q, pg ensures Slot(S(), q, pg) == Slot(s0, q, pg) { SlotOfOwn(s0, s1, q, pg); }
    }

    /** Shrinks a space from oldsz to newsz bytes; panics only where uvm_unmap does. */
    method UvmDealloc(r: nat, oldsz: nat, newsz: nat) returns (sz: nat, ok: bool, ghost m: nat)
      requires Ok(S()) && Root(r) in at
      requires forall pg {:trigger Slot(S(), r, pg)} ::
                 PageOk(pg) && PagesOf(newsz) <= Vpn(pg) < PagesOf(oldsz) && IsV(Slot(S(), r, pg)) ==>
                   IsU(Slot(S(), r, pg))
      modifies this
      ensures Ok(S()) && (newsz >= oldsz ==> ok && sz == oldsz && S() == old(S()))
      ensures newsz < oldsz ==> UnmappedTo(old(S()), S(), r, PagesOf(newsz), m, true)
      ensures newsz < oldsz && ok ==> sz == newsz && m == Less(PagesOf(oldsz), PagesOf(newsz))
      ensures newsz < oldsz && !ok ==>
        m < Less(PagesOf(oldsz), PagesOf(newsz)) && CannotUnmap(S(), r, PGSIZE * (PagesOf(newsz) + m))
      ensures old(Backed(S())) ==> Backed(S())
    {
      hide Ok, UnmappedTo, PageOf, KeyAt, IsTable, Slot, PX, Vpn, RoundUp, PagesOf, Backed;
      m := 0;
      if newsz >= oldsz { return oldsz, true, 0; }
      RoundUpPages(oldsz);
      RoundUpPages(newsz);
      UnmappedNone(S(), r, PagesOf(newsz), true);
      ok := true;
      if RoundUp(newsz) < RoundUp(oldsz) {
        var npages := (RoundUp(oldsz) - RoundUp(newsz)) / PGSIZE;
        ok, m := UvmUnmap(r, RoundUp(newsz), npages, true);
      }
      sz := newsz;
    }

    /** Grows a space from oldsz to newsz bytes with zeroed pages; when memory runs out it returns 0 and every
        translation is as before. */
    method UvmAlloc(r: nat, oldsz: nat, newsz: nat, xperm: nat) returns (sz: nat, ghost ok: bool)
      requires Ok(S()) && Root(r) in at && TrueUp(newsz) < HALF && xperm in {0, PTE_W, PTE_X, PTE_W + PTE_X}
      requires oldsz <= newsz ==> NothingMapped(S(), r, Pages(oldsz), Pages(newsz) - Pages(oldsz))
      modifies this
      ensures Ok(S()) && (oldsz > newsz ==> ok && sz == oldsz && S() == old(S()))
      ensures oldsz <= newsz && ok ==>
        sz == newsz && AllocTo(old(S()), S(), r, Pages(oldsz), Pages(newsz) - Pages(oldsz),
            Zeroed(PTE_V + PTE_R + PTE_U + xperm))
      ensures oldsz <= newsz ==>
        (ok <==> |old(free)| >= Cost(old(S()), Zeroed(PTE_V + PTE_R + PTE_U + xperm), r, PGSIZE * Pages(oldsz),
            Pages(newsz) - Pages(oldsz)))
      ensures oldsz <= newsz && ok ==>
        |free| + Cost(old(S()), Zeroed(PTE_V + PTE_R + PTE_U + xperm), r, PGSIZE * Pages(oldsz),
            Pages(newsz) - Pages(oldsz)) == |old(free)|
      ensures !ok ==> sz == 0 && Restored(old(S()), S())
      ensures old(Backed(S())) ==> Backed(S())
    {
      hide Ok, AllocTo, MappedTo, Restored, NothingMapped, Slot, PX, Vpn, TrueUp, RoundUp, Spent, Cost, Paid, Backed;
      if oldsz > newsz { return oldsz, true; }
      MorePages(oldsz, newsz);
      Rounds(newsz);
      Rounds(oldsz);
      var start, flag := RoundUp(oldsz), PTE_R + PTE_U + xperm;
      ghost var m := 0;
      AllocNone(S(), r, Pages(oldsz), Zeroed(flag + 1));
      SpentNone(S(), Zeroed(flag + 1), r, start);
      var a := start;
      while a < newsz
        invariant a == start + PGSIZE * m && m <= Pages(newsz) - Pages(oldsz)
        invariant Ok(S()) && AllocTo(old(S()), S(), r, Pages(oldsz), m, Zeroed(flag + 1))
        invariant Spent(old(S()), S(), Zeroed(flag + 1), r, start, m)
        decreases Pages(newsz) - Pages(oldsz) - m
      {
        LastPage(oldsz, m, newsz);
        AlignedPages(start);
        NextUnmapped(old(S()), S(), r, start, m, Pages(newsz) - Pages(oldsz), Zeroed(flag + 1));
        ghost var g := S();
        var done := AllocPage(old(S()), r, start, m, a, flag);
        PaidFor(old(S()), g, S(), Zeroed(flag + 1), r, start, m, Pages(newsz) - Pages(oldsz), done);
        if !done {
          FewerMapped(old(S()), r, Pages(oldsz), m, Pages(newsz) - Pages(oldsz));
          Undo(old(S()), r, start, m, a, flag);
          if old(Backed(S())) { RestoredBacked(old(S()), S()); }
          return 0, false;
        }
        m := m + 1;
        a := a + PGSIZE;
      }
      LastPage(oldsz, m, newsz);
      SpentIs(old(S()), S(), Zeroed(flag + 1), r, start, m);
      if old(Backed(S())) { AllocBacked(old(S()), S(), r, Pages(oldsz), m, Zeroed(flag + 1)); }
      return newsz, true;
    }

    /** One round of uvm_alloc's loop. */
    method AllocPage(ghost s: Frames, r: nat, start: nat, ghost m: nat, a: nat, flag: nat) returns (done: bool)
      requires Ok(S()) && Root(r) in s.at && AllocTo(s, S(), r, start / PGSIZE, m, Zeroed(flag + 1))
      requires start % PGSIZE == 0 && a == start + PGSIZE * m && a <= VA_MAX && !IsV(Slot(S(), r, PageOf(a)))
      requires flag < 1023 && flag % 2 == 0 && Bit(flag, PTE_U)
      modifies this
      ensures Ok(S()) && AllocTo(s, S(), r, start / PGSIZE, if done then m + 1 else m, Zeroed(flag + 1))
      ensures Paid(old(S()), S(), r, a, done)
    {
      hide Ok, AllocTo, MappedTo, Slot, PageOf, PX, Path;
      ghost var g := S();
      AllocRoot(s, g, r, r, start / PGSIZE, m, Zeroed(flag + 1));
      var f := Kalloc();
      if f == 0 { return false; }
      FreshIsFree(s, g, r, start / PGSIZE, m, Zeroed(flag + 1));
      ghost var s1 := S();
      data := data[f := Fill(0)];
      SameTables(s1, S());
      assert S() == GoalFresh(s, g, Zeroed(flag + 1), start, m);
      SlotOfOwn(g, S(), r, PageOf(a));
      done := MapOne(r, a, f, flag);
      if !done {
        AllocFail(s, g, S(), r, start, m, flag, Zeroed(flag + 1));
        Kfree(f);
        return;
      }
      AllocStep(s, g, S(), r, start, m, flag, Zeroed(flag + 1));
    }

    /** uvm_alloc's way back when memory runs out. */
    method Undo(ghost s: Frames, r: nat, start: nat, ghost m: nat, a: nat, flag: nat)
      requires Ok(s) && Ok(S()) && Root(r) in s.at && AllocTo(s, S(), r, start / PGSIZE, m, Zeroed(flag + 1))
      requires start % PGSIZE == 0 && a == start + PGSIZE * m && a < HALF &&
               NothingMapped(s, r, start / PGSIZE, m) && flag > 0
      modifies this
      ensures Ok(S()) && Restored(s, S())
    {
      hide Ok, AllocTo, UnmappedTo, Restored, NothingMapped, Slot, PageOf, PX, TrueUp, RoundUp, PagesOf, CannotUnmap;
      ghost var g := S();
      AllocRoot(s, g, r, r, start / PGSIZE, m, Zeroed(flag + 1));
      UserPages(s, g, r, start / PGSIZE, m, Zeroed(flag + 1));
      AlignedPages(start);
      AlignedPages(a);
      RoundUpPages(start);
      RoundUpPages(a);
      var sz, ok, n := UvmDealloc(r, a, start);
      if start < a {
        if !ok {
          CanUnmapStill(g, S(), r, start / PGSIZE, n, true);
          NewCanUnmap(s, g, r, start / PGSIZE, m, Zeroed(flag + 1), n);
          assert false;
        }
        AllocUndo(s, g, S(), r, start / PGSIZE, m, Zeroed(flag + 1));
      } else {
        AllocUndone(s, r, start / PGSIZE, Zeroed(flag + 1), g);
      }
    }

    /** Frees the tables at and below `key`, which is at frame t. Its parent's entry is left to the caller. Panics on a
        leaf: it gets through exactly if there is none. At level 0 an entry that looks like a table is a page. */
    method FreeWalk(ghost key: Key, t: nat, level: nat) returns (res: FreeResult)
      requires Ok(S()) && key in at && at[key] == t
      requires level == if key.Root? then 2 else if key.Mid? then 1 else 0
      modifies this
      ensures res == Freed ==> Ok(Cut(S(), key)) && TornDown(old(S()), Cut(S(), key), Whole(key))
      ensures res != UnmapPanic && (res == Freed <==> NoLeaves(old(S()), key))
      ensures res == Strays ==> BareLeaf(old(S()), key)
      decreases level
    {
      hide Ok, TornDown, Cut, NoLeaves, ClearTo, BareLeaf, Slot, PTE2PA, Pruned;
      DownNone(S(), key);
      ClearNone(S(), key);
      var x := 0;
      while x < 512
        invariant 0 <= x <= 512 && Ok(S()) && key in at && at[key] == t
        invariant TornDown(old(S()), S(), Part(key, x)) && ClearTo(S(), key, x)
      {
        TableAt(S(), key);
        ghost var g := S();
        var pte := tab[t][x];
        EntryLeads(S(), key, x);
        if Bit(pte, PTE_V) && pte / PTE_R % 8 == 0 {
          if level == 0 {
            MetLeaf(g, key, x);
            LeavesWere(old(S()), g, Part(key, x), key, key);
            return Strays;
          }
          res := FreeWalk(Child(key, x), PTE2PA(pte), level - 1);
          if res != Freed {
            LeavesWere(old(S()), g, Part(key, x), key, Child(key, x));
            return;
          }
          CutFields(g, S(), key, x);
          tab := tab[t := Put(tab[t], x, 0)];
          ClearChild(g, S(), key, x);
          DownStep(old(S()), g, S(), key, x);
        } else if Bit(pte, PTE_V) {
          MetLeaf(g, key, x);
          LeavesWere(old(S()), g, Part(key, x), key, key);
          return LeafPanic;
        } else {
          ClearSkip(S(), key, x);
          DownSkip(old(S()), S(), key, x);
        }
        x := x + 1;
      }
      ghost var g := S();
      ClearAll(g, key);
      LeavesStay(old(S()), g, Part(key, 512), key);
      DownAll(old(S()), g, key);
      at, own := at - {key}, own[t := Held];
      Kfree(t);
      res := Freed;
    }

    /** Frees a whole space: its sz bytes of user pages, then its tables. Panics exactly where uvm_unmap does, or if a
        page is mapped above. */
    method UvmFree(r: nat, sz: nat) returns (res: FreeResult)
      requires Ok(S()) && Root(r) in at
      requires forall pg {:trigger Slot(S(), r, pg)} :: In(pg, 0, PagesOf(sz)) && IsV(Slot(S(), r, pg)) ==>
               IsU(Slot(S(), r, pg))
      modifies this
      ensures res == Freed ==> Ok(S()) && Released(old(S()), S(), r)
      ensures res == UnmapPanic <==> !Unmappable(old(S()), r, 0, PagesOf(sz))
      ensures res != UnmapPanic ==> (res == Freed <==> AllBelow(old(S()), r, PagesOf(sz)))
      ensures res == Strays ==> BareLeaf(old(S()), Root(r))
    {
      hide Ok, UnmappedTo, TornDown, Released, NoLeaves, BareLeaf, AllBelow, Unmappable, Slot, PX, RoundUp, Cut;
      ghost var s := S();
      ghost var n := 0;
      RoundUpPages(sz);
      UnmappedNone(s, r, 0, true);
      var ok := true;
      if sz > 0 { ok, n := UvmUnmap(r, 0, RoundUp(sz) / PGSIZE, true); } else { NothingToUnmap(s, r); }
      if !ok { return UnmapPanic; }
      ghost var g := S();
      UnmappedAll(s, g, r, n);
      res := FreeWalk(Root(r), r, 2);
      if res == Freed {
        ReleasedAll(s, g, Cut(S(), Root(r)), r, n);
        CutRoot(S(), r);
      }
    }

    /** Copies the first sz bytes of space o into the empty space r. On success each page of o that was mapped has a
        copy in a frame of its own, with the same contents and flags. It succeeds exactly if every page has a lowest
        table in o and there are enough free frames. A failure for want of memory, at page m, unmaps from page m on and
        so leaves every copied page mapped: some page exactly if there were frames for the first mapped one. It loses
        the frame taken for page m exactly if there was one. */
    method UvmCopy(o: nat, r: nat, sz: nat) returns (res: CopyResult, ghost m: nat)
      requires Ok(S()) && Root(o) in at && Root(r) in at && o != r && TrueUp(sz) < HALF
      requires NothingMapped(S(), r, 0, Pages(sz))
      requires forall pg {:trigger Slot(S(), r, pg)} :: In(pg, Pages(sz), Pages(sz)) && IsV(Slot(S(), r, pg)) ==>
                 IsU(Slot(S(), r, pg))
      requires forall pg {:trigger Slot(S(), o, pg)} :: In(pg, 0, Pages(sz)) && IsV(Slot(S(), o, pg)) ==>
                 IsU(Slot(S(), o, pg)) && PTE2PA(Slot(S(), o, pg)) in data
      modifies this
      ensures Ok(S()) && (res == Copied ==> AllocTo(old(S()), S(), r, 0, Pages(sz), CopyOf(o)))
      ensures res == Copied <==>
                HasTables(old(S()), o, Pages(sz)) && |old(free)| >= Cost(old(S()), CopyOf(o), r, 0, Pages(sz))
      ensures res == NoSource ==>
        && m < Pages(sz) && !HasTable(old(S()), o, m) && AllocTo(old(S()), S(), r, 0, m, CopyOf(o))
        && Cost(old(S()), CopyOf(o), r, 0, m) <= |old(free)|
      ensures res.OutOfMemory? ==> m < Pages(sz) && RanOut(old(S()), S(), o, r, m, Pages(sz))
      ensures res.OutOfMemory? ==> (res.swept <==> Unmappable(S(), r, PGSIZE * m, m))
      ensures res.OutOfMemory? ==>
        (HasPages(S(), r, Pages(sz)) <==>
         |old(free)| >= Cost(old(S()), CopyOf(o), r, 0, First(old(S()), CopyOf(o), 0, Pages(sz)) + 1))
      ensures res == Copied && old(Backed(S())) ==> Backed(S())
    {
      hide Ok, AllocTo, NothingMapped, Slot, PX, Vpn, TrueUp, PteFlags, PTE2PA, PageOf, Spent, Cost, Paid, HasTable,
           RanOut, HasPages, Unmappable, First, Backed, KeyAt;
      ghost var s := S();
      Rounds(sz);
      AlignedPages(0);
      AllocNone(s, r, 0, CopyOf(o));
      SpentNone(s, CopyOf(o), r, 0);
      m := 0;
      var i := 0;
      while i < sz
        invariant i == PGSIZE * m && m <= Pages(sz) && HasTables(s, o, m)
        invariant Ok(S()) && AllocTo(s, S(), r, 0, m, CopyOf(o)) && Spent(s, S(), CopyOf(o), r, 0, m)
        decreases Pages(sz) - m
      {
        LastPage(0, m, sz);
        PageAt(0, m);
        AllocRoot(s, S(), o, r, 0, m, CopyOf(o));
        SourceTable(s, S(), o, r, m);
        HasTableIs(S(), o, m);
        var found, t, l := Walk(o, i, false);
        if !found {
          assert !HasTable(s, o, m);
          SpentIs(s, S(), CopyOf(o), r, 0, m);
          return NoSource, m;
        }
        LowTable(S(), o, i);
        OtherSlot(s, S(), o, r, 0, m, CopyOf(o), PageOf(i));
        var w := tab[t][l];
        if Bit(w, PTE_V) {
          NextUnmapped(s, S(), r, 0, m, Pages(sz), CopyOf(o));
          ghost var g := S();
          var done := CopyPage(s, o, r, m, i, w);
          PaidFor(s, g, S(), CopyOf(o), r, 0, m, m + 1, done);
          if !done {
            CostGrowsAll(s, CopyOf(o), r, 0, m + 1, Pages(sz));
            var swept := GiveUp(s, g, o, r, m, i, Pages(sz));
            return OutOfMemory(swept), m;
          }
        } else {
          AllocSkip(s, S(), r, 0, m, CopyOf(o));
          SpentSkip(s, S(), CopyOf(o), r, 0, m);
        }
        m := m + 1;
        i := i + PGSIZE;
      }
      LastPage(0, m, sz);
      SpentIs(s, S(), CopyOf(o), r, 0, m);
      if Backed(s) { AllocBacked(s, S(), r, 0, m, CopyOf(o)); }
      res := Copied;
    }

    /** uvm_copy's way out when memory runs out at page m, from state g: it unmaps the m pages from page m on. */
    method GiveUp(ghost s: Frames, ghost g: Frames, ghost o: nat, r: nat, ghost m: nat, i: nat, ghost n: nat)
      returns (swept: bool)
      requires Ok(S()) && Root(r) in at && i == PGSIZE * m && m < n && PGSIZE * n <= HALF
      requires Ok(g) && AllocTo(s, g, r, 0, m, CopyOf(o)) && Unmoved(g, S()) && NothingMapped(s, r, 0, n)
      requires Spent(s, g, CopyOf(o), r, 0, m) && Paid(g, S(), r, i, false) && LastHeld(g, S())
      requires Wanted(s, CopyOf(o), PageOf(PGSIZE * m)) && |s.free| < Cost(s, CopyOf(o), r, 0, m + 1)
      requires forall pg {:trigger Slot(s, r, pg)} :: In(pg, n, n) && IsV(Slot(s, r, pg)) ==> IsU(Slot(s, r, pg))
      modifies this
      ensures Ok(S()) && RanOut(s, S(), o, r, m, n) && (swept <==> Unmappable(S(), r, PGSIZE * m, m))
      ensures HasPages(S(), r, n) <==> |s.free| >= Cost(s, CopyOf(o), r, 0, First(s, CopyOf(o), 0, n) + 1)
    {
      hide Ok, AllocTo, NothingMapped, Slot, PX, Vpn, PageOf, Spent, Cost, Paid, LastHeld, Unmoved, UnmappedTo,
           RanOut, HasPages, First, Wanted, Unmappable, CannotAt;
      LaterPages(s, g, S(), r, m, n, CopyOf(o));
      ghost var h := S();
      ghost var k;
      swept, k := UvmUnmap(r, i, i / PGSIZE, true);
      UnmappableAfter(h, S(), r, m, k);
      GaveUp(s, g, h, S(), o, r, m, n, k);
    }

    /** One round of uvm_copy's loop on a mapped page. */
    method CopyPage(ghost s: Frames, ghost o: nat, r: nat, ghost m: nat, a: nat, w: nat) returns (done: bool)
      requires Ok(s) && Ok(S()) && Root(r) in s.at && o != r && AllocTo(s, S(), r, 0, m, CopyOf(o))
      requires a == PGSIZE * m && a <= VA_MAX && !IsV(Slot(S(), r, PageOf(a)))
      requires w == Slot(s, o, PageOf(a)) && IsV(w) && IsU(w) && PTE2PA(w) in s.data
      modifies this
      ensures Ok(S()) && Root(r) in at && Paid(old(S()), S(), r, a, done)
      ensures if done then AllocTo(s, S(), r, 0, m + 1, CopyOf(o))
              else Unmoved(old(S()), S()) && LastHeld(old(S()), S())
    {
      hide Ok, AllocTo, MappedTo, Slot, PageOf, PX, PTE2PA, PteFlags, Path, KeyAt;
      ghost var g, goal := S(), CopyOf(o);
      AllocRoot(s, g, r, r, 0, m, goal);
      SourceKept(s, g, o, r, 0, m, goal, PageOf(a));
      var pa, flags := PTE2PA(w), PteFlags(w);
      FlagsOf(w);
      var f := Kalloc();
      if f == 0 { return false; }
      FreshIsFree(s, g, r, 0, m, goal);
      ghost var s1 := S();
      data := data[f := data[pa]];
      SameTables(s1, S());
      assert S() == GoalFresh(s, g, goal, 0, m);
      SlotOfOwn(g, S(), r, PageOf(a));
      ghost var k := S();
      done := MapOne(r, a, f, flags);
      if done { AllocStep(s, g, S(), r, 0, m, flags, goal); } else { MappedNothing(g, k, S(), r, a, f, flags); }
    }

    /** Writes src at user address dst, page by page; stops at the first page that is not writable. */
    method Copyout(r: nat, dst: nat, src: seq<nat>) returns (ok: bool, ghost n: nat)
      requires Ok(S()) && Root(r) in at && Backed(S()) && dst + |src| < HALF
      modifies this
      ensures Ok(S()) && Backed(S()) && n <= |src| && Written(old(S()), S(), r, dst, src, n) &&
              AllWritable(old(S()), r, dst, n)
      ensures if ok then n == |src| else n < |src| && !Writable(old(S()), r, dst + n)
    {
      hide Ok, Backed, Written, AllWritable, Slot, PageOf, PX, KeyAt, Patch, RoundDown, TrueDown, PTE2PA;
      ghost var s := S();
      WrittenNone(s, r, dst, src);
      assert AllWritable(s, r, dst, 0) by { NoneWritable(s, r, dst); }
      var done := 0;
      n, ok := 0, false;
      while done < |src|
        invariant done == n <= |src| && Written(s, S(), r, dst, src, n) && AllWritable(s, r, dst, n) && S().at == s.at
        invariant Ok(S()) && Backed(S())
      {
        var a := dst + done;
        var va0 := RoundDown(a);
        DownInRange(a);
        PageOfDown(a);
        WrittenOk(s, S(), r, dst, src, n);
        var found, t, l := Walk(r, va0, false);
        if !found {
          NotReadable(S(), r, va0);
          assert Slot(S(), r, PageOf(a)) == Slot(s, r, PageOf(a));
          return;
        }
        LowTable(S(), r, va0);
        var w := tab[t][l];
        assert Slot(S(), r, PageOf(a)) == Slot(s, r, PageOf(a));
        if !Bit(w, PTE_V) || !Bit(w, PTE_U) || !Bit(w, PTE_W) { return; }
        var cnt := PGSIZE - (a - va0);
        if cnt > |src| - done { cnt := |src| - done; }
        assert IsPage(S(), PTE2PA(w)) by { PageBytes(S(), r, PageOf(a)); }
        ghost var g := S();
        data := data[PTE2PA(w) := Patch(data[PTE2PA(w)], a - va0, src[done..done + cnt])];
        WriteStep(s, g, S(), r, dst, src, n, cnt, PTE2PA(w));
        PageWritable(s, r, dst, n, cnt);
        WrittenOk(s, S(), r, dst, src, n + cnt);
        done, n := done + cnt, n + cnt;
      }
      ok := true;
    }

    /** Reads len bytes at user address src; fails exactly if one of them is not mapped for the program. */
    method Copyin(r: nat, src: nat, len: nat) returns (ok: bool, buf: seq<nat>)
      requires Ok(S()) && Root(r) in at && Backed(S()) && src + len < HALF
      modifies this
      ensures S() == old(S()) && (ok <==> AllReadable(S(), r, src, len)) && (ok ==> |buf| == len)
      ensures forall k {:trigger buf[k]} :: 0 <= k < |buf| ==> buf[k] == ByteAt(S(), r, src + k)
    {
      hide Ok, Backed, AllReadable, Slot, PageOf, PX, KeyAt, RoundDown, TrueDown, PTE2PA, ByteAt;
      NoneReadable(S(), r, src);
      buf, ok := [], false;
      while |buf| < len
        invariant |buf| <= len && S() == old(S()) && AllReadable(S(), r, src, |buf|)
        invariant forall k {:trigger buf[k]} :: 0 <= k < |buf| ==> buf[k] == ByteAt(S(), r, src + k)
        decreases len - |buf|
      {
        var a := src + |buf|;
        var va0 := RoundDown(a);
        DownInRange(a);
        PageOfDown(a);
        var pa := WalkAddr(r, va0);
        if pa == 0 {
          NotAllReadable(S(), r, src, len, a, va0);
          return;
        }
        SameReadable(S(), r, va0, a);
        var cnt := PGSIZE - (a - va0);
        if cnt > len - |buf| { cnt := len - |buf|; }
        PageBytes(S(), r, PageOf(a));
        var bytes := data[pa][a - va0..a - va0 + cnt];
        forall k: nat | k < cnt ensures bytes[k] == ByteAt(S(), r, a + k) { BytesOfPage(S(), r, a, cnt, k); }
        PageReadable(S(), r, src, |buf|, cnt);
        Longer(S(), r, src, buf, bytes);
        buf := buf + bytes;
      }
      ok := true;
    }

    /** The frame of a page mapped for the program, or 0. */
    method WalkAddr(r: nat, va: nat) returns (pa: nat)
      requires Ok(S()) && Root(r) in at
      modifies this
      ensures S() == old(S()) && (pa != 0 <==> Readable(S(), r, va))
      ensures pa != 0 ==> pa == PTE2PA(Slot(S(), r, PageOf(va)))
    {
      hide Ok, PageOf, PX, KeyAt, Slot;
      if va > VA_MAX { return 0; }
      var found, t, l := Walk(r, va, false);
      if !found {
        NotReadable(S(), r, va);
        return 0;
      }
      LowTable(S(), r, va);
      if !Bit(tab[t][l], PTE_V) { return 0; }
      if !Bit(tab[t][l], PTE_U) { return 0; }
      OwnedByReader(S(), r, va);
      pa := PTE2PA(tab[t][l]);
    }

    /** Reads a NUL-terminated string of fewer than len bytes at user address src: succeeds exactly if there is a NUL
        before the end and before any byte that is not mapped, and then str is what precedes the first NUL. */
    method Copyinstr(r: nat, src: nat, len: nat) returns (ok: bool, str: seq<nat>)
      requires Ok(S()) && Root(r) in at && Backed(S()) && src + len < HALF
      modifies this
      ensures S() == old(S()) && IsText(S(), r, src, str) && |str| <= len
      ensures ok ==> |str| < len && Readable(S(), r, src + |str|) && ByteAt(S(), r, src + |str|) == 0
      ensures !ok ==> |str| == len || !Readable(S(), r, src + |str|)
    {
      hide Ok, Backed, IsText, Slot, PageOf, PX, KeyAt, RoundDown, TrueDown, PTE2PA, ByteAt;
      str, ok := [], false;
      NoText(S(), r, src);
      var left := len;
      while !ok && left > 0
        invariant |str| + left == len && S() == old(S()) && IsText(S(), r, src, str)
        invariant ok ==> left > 0 && Readable(S(), r, src + |str|) && ByteAt(S(), r, src + |str|) == 0
        decreases !ok, left
      {
        var a := src + |str|;
        var va0 := RoundDown(a);
        DownInRange(a);
        PageOfDown(a);
        var pa := WalkAddr(r, va0);
        SameReadable(S(), r, va0, a);
        if pa == 0 { return; }
        PageBytes(S(), r, PageOf(a));
        var n, p := PGSIZE - (a - va0), a - va0;
        if n > left { n := left; }
        ghost var cnt := n;
        while n > 0
          invariant 0 <= n <= cnt && p == a - va0 + (cnt - n) && |str| + left == len && S() == old(S()) && !ok
          invariant IsText(S(), r, src, str) && src + |str| == a + (cnt - n) && n <= left
          decreases n
        {
          BytesOfPage(S(), r, a, cnt, cnt - n);
          ReadableOn(S(), r, a, cnt, cnt - n);
          if data[pa][p] == 0 {
            ok := true;
            break;
          }
          MoreText(S(), r, src, str, data[pa][p]);
          str := str + [data[pa][p]];
          n, left, p := n - 1, left - 1, p + 1;
        }
      }
    }

    /** The branch of walk that adds a table. */
    method Extend(r: nat, va: nat, level: nat, p: nat) returns (ok: bool, q: nat)
      requires Ok(S()) && 0 < level < 3 && KeyAt(r, va, level) in at && p == at[KeyAt(r, va, level)]
      requires IsTable(S(), p) && !IsV(tab[p][PX(level, va)])
      modifies this
      ensures Ok(S()) && Grew(old(S()), S()) && (!ok ==> free == [] && S() == old(S()))
      ensures ok ==> KeyAt(r, va, level - 1) in at && q == at[KeyAt(r, va, level - 1)]
      ensures ok ==> at.Keys == old(at).Keys + {KeyAt(r, va, level - 1)} && |free| + |at| == old(|free| + |at|)
    {
      ghost var s0 := S();
      q := Kalloc();
      if q == 0 { return false, 0; }
      ghost var s1 := S();
      ghost var key := KeyAt(r, va, level);
      GrownOk(s1, key, PX(level, va), q);
      tab := tab[p := Put(tab[p], PX(level, va), PA2PTE(q) + PTE_V)][q := Zeros()];
      at, own := at[Child(key, PX(level, va)) := q], own[q := Table(Child(key, PX(level, va)))];
      ok := true;
    }
  }
}
