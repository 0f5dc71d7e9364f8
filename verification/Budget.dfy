/** How many frames an allocation takes: one for each new page, and one for each table missing on the way to it. */
module Budget {

  import opened Paging
  import opened Tables
  import opened Spaces

  /** The tables below the root on the way down to an address. */
  function Path(r: nat, va: nat): set<Key> { {KeyAt(r, va, 1), KeyAt(r, va, 0)} }

  /** The tables on the way to the pages va, va + 4096, .. */
  function Paths(r: nat, va: nat, m: nat): set<Key> {
    if m == 0 then {} else Paths(r, va, m - 1) + Path(r, va + PGSIZE * (m - 1))
  }

  lemma PathsMore(r: nat, va: nat, m: nat)
    ensures Paths(r, va, m + 1) == Paths(r, va, m) + Path(r, va + PGSIZE * m) && Paths(r, va, 0) == {}
  {}

  /** Those on the way to the wanted ones of these pages. */
  function Needs(s: Frames, goal: Goal, r: nat, va: nat, m: nat): set<Key> {
    if m == 0 then {}
    else if Wanted(s, goal, PageOf(va + PGSIZE * (m - 1))) then
      Needs(s, goal, r, va, m - 1) + Path(r, va + PGSIZE * (m - 1))
    else Needs(s, goal, r, va, m - 1)
  }

  /** How many of these pages are wanted. */
  function Wants(s: Frames, goal: Goal, va: nat, m: nat): nat {
    if m == 0 then 0
    else Wants(s, goal, va, m - 1) + if Wanted(s, goal, PageOf(va + PGSIZE * (m - 1))) then 1 else 0
  }

  /** The number of frames that giving space r the wanted ones of these pages takes. */
  function Cost(s: Frames, goal: Goal, r: nat, va: nat, m: nat): nat {
    Wants(s, goal, va, m) + |Needs(s, goal, r, va, m) - s.at.Keys|
  }

  /** The first m pages have been paid for, table by table and page by page. */
  ghost predicate Spent(s: Frames, g: Frames, goal: Goal, r: nat, va: nat, m: nat) {
    && |g.free| + |g.at| + Wants(s, goal, va, m) == |s.free| + |s.at|
    && g.at.Keys == s.at.Keys + Needs(s, goal, r, va, m)
  }

  lemma Sizes<T>(a: set<T>, b: set<T>)
    requires a <= b
    ensures |b| == |a| + |b - a| && (a != b ==> |a| < |b|)
  {
    assert b == a + (b - a);
    if a != b { var x :| x in b && x !in a; assert x in b - a; }
  }

  lemma NextCost(s: Frames, goal: Goal, r: nat, va: nat, m: nat)
    ensures var w := Wanted(s, goal, PageOf(va + PGSIZE * m));
            && Wants(s, goal, va, m + 1) == Wants(s, goal, va, m) + (if w then 1 else 0)
            && Needs(s, goal, r, va, m + 1) ==
               Needs(s, goal, r, va, m) + (if w then Path(r, va + PGSIZE * m) else {})
  {}

  lemma {:induction false} CostGrows(s: Frames, goal: Goal, r: nat, va: nat, m: nat, n: nat)
    requires m <= n
    ensures Wants(s, goal, va, m) <= Wants(s, goal, va, n) && Needs(s, goal, r, va, m) <= Needs(s, goal, r, va, n)
    decreases n
  {
    hide Wanted, PageOf, Path, Needs, Wants;
    if m < n {
      CostGrows(s, goal, r, va, m, n - 1);
      NextCost(s, goal, r, va, n - 1);
    }
  }

  /** Fewer tables than are needed for the first m + 1 pages cost less than all n pages do. */
  lemma CostsLess(s: Frames, goal: Goal, r: nat, va: nat, m: nat, n: nat, k: nat)
    requires m <= n && k < Wants(s, goal, va, m) + |Needs(s, goal, r, va, m) - s.at.Keys|
    ensures k < Cost(s, goal, r, va, n)
  {
    hide Needs, Wants;
    CostGrows(s, goal, r, va, m, n);
    var a, b := Needs(s, goal, r, va, m) - s.at.Keys, Needs(s, goal, r, va, n) - s.at.Keys;
    Sizes(a, b);
  }

  lemma {:induction false} NeedsBelow(s: Frames, goal: Goal, r: nat, va: nat, m: nat, k: Key)
    requires k in Needs(s, goal, r, va, m)
    ensures k.r == r
    decreases m
  {
    if !(Wanted(s, goal, PageOf(va + PGSIZE * (m - 1))) && k in Path(r, va + PGSIZE * (m - 1))) {
      NeedsBelow(s, goal, r, va, m - 1, k);
    }
  }

  lemma SpentIs(s: Frames, g: Frames, goal: Goal, r: nat, va: nat, m: nat)
    requires Spent(s, g, goal, r, va, m)
    ensures |s.free| == |g.free| + Cost(s, goal, r, va, m)
  {
    hide Needs, Wants;
    Sizes(s.at.Keys, g.at.Keys);
    assert g.at.Keys - s.at.Keys == Needs(s, goal, r, va, m) - s.at.Keys;
  }

  /** kalloc has failed for a wanted page: there were too few frames. */
  lemma NoneLeft(s: Frames, g: Frames, goal: Goal, r: nat, va: nat, m: nat, n: nat)
    requires Spent(s, g, goal, r, va, m) && g.free == [] && m < n && Wanted(s, goal, PageOf(va + PGSIZE * m))
    ensures |s.free| < Cost(s, goal, r, va, n)
  {
    hide Needs, Wants, Wanted, PageOf, Path;
    SpentIs(s, g, goal, r, va, m);
    NextCost(s, goal, r, va, m);
    Sizes(Needs(s, goal, r, va, m) - s.at.Keys, Needs(s, goal, r, va, m + 1) - s.at.Keys);
    CostsLess(s, goal, r, va, m + 1, n, |s.free|);
  }

  lemma TooFew(at0: set<Key>, at1: set<Key>, need: set<Key>, key: Key)
    requires at0 <= at1 <= at0 + need && key in need && key !in at1
    ensures |at1| < |at0| + |need - at0|
  {
    Sizes(at0, at1);
    assert key in need - at0;
    Sizes(at1 - at0, need - at0);
  }

  /** A table for a wanted page is missing and the last frame is the page's own. */
  lemma NoTableLeft(s: Frames, g: Frames, h: Frames, goal: Goal, r: nat, va: nat, m: nat, n: nat)
    requires Spent(s, g, goal, r, va, m) && m < n && Wanted(s, goal, PageOf(va + PGSIZE * m))
    requires |h.at| + 1 == |g.free| + |g.at|
    requires g.at.Keys <= h.at.Keys <= g.at.Keys + Path(r, va + PGSIZE * m) && KeyAt(r, va + PGSIZE * m, 0) !in h.at
    ensures |s.free| < Cost(s, goal, r, va, n)
  {
    hide Needs, Wants, Wanted, PageOf, Cost;
    NextCost(s, goal, r, va, m);
    TooFew(s.at.Keys, h.at.Keys, Needs(s, goal, r, va, m + 1), KeyAt(r, va + PGSIZE * m, 0));
    CostsLess(s, goal, r, va, m + 1, n, |s.free|);
  }

  /** One more page has been paid for. */
  lemma SpentMore(s: Frames, g: Frames, h: Frames, goal: Goal, r: nat, va: nat, m: nat)
    requires Spent(s, g, goal, r, va, m) && Wanted(s, goal, PageOf(va + PGSIZE * m))
    requires |h.free| + |h.at| + 1 == |g.free| + |g.at| && h.at.Keys == g.at.Keys + Path(r, va + PGSIZE * m)
    ensures Spent(s, h, goal, r, va, m + 1)
  {
    hide Needs, Wants, Wanted, PageOf, Path;
    NextCost(s, goal, r, va, m);
  }

  lemma SpentNone(s: Frames, goal: Goal, r: nat, va: nat)
    ensures Spent(s, s, goal, r, va, 0)
  {}

  /** What a new page takes: a frame and the tables missing on the way; or there is no frame for the page, or none for
      a table once the page has its own. */
  ghost predicate Paid(g: Frames, h: Frames, r: nat, a: nat, done: bool) {
    && g.at.Keys <= h.at.Keys <= g.at.Keys + Path(r, a)
    && (if done then |h.free| + |h.at| + 1 == |g.free| + |g.at| && Path(r, a) <= h.at.Keys
        else if g.free == [] then h == g
        else |h.at| + 1 == |g.free| + |g.at| && KeyAt(r, a, 0) !in h.at)
  }

  lemma PaidFor(s: Frames, g: Frames, h: Frames, goal: Goal, r: nat, va: nat, m: nat, n: nat, done: bool)
    requires Spent(s, g, goal, r, va, m) && Paid(g, h, r, va + PGSIZE * m, done) && m < n
    requires Wanted(s, goal, PageOf(va + PGSIZE * m))
    ensures if done then Spent(s, h, goal, r, va, m + 1) else |s.free| < Cost(s, goal, r, va, n)
  {
    hide Spent, Cost, Path, PageOf, KeyAt, Wanted;
    if done {
      SpentMore(s, g, h, goal, r, va, m);
    } else if g.free == [] {
      NoneLeft(s, g, goal, r, va, m, n);
    } else {
      NoTableLeft(s, g, h, goal, r, va, m, n);
    }
  }

  /** The page that map_pages was to map is not mapped. */
  lemma NotRemap(g: Frames, h: Frames, r: nat, a: nat, pa: nat, flag: nat)
    requires !IsV(Slot(g, r, PageOf(a))) && MappedTo(g, h, r, a, pa, flag, 0)
    ensures !IsV(Slot(h, r, PageOf(a)))
  {
    hide IsV, PageOf;
  }

  // ---- uvm_copy ----

  /** Copied, or out of memory, after which uvm_unmap did or did not get through; or the panic on a source page
      without a lowest table. */
  datatype CopyResult = Copied | OutOfMemory(swept: bool) | NoSource

  predicate HasTable(s: Frames, o: nat, k: nat) { KeyAt(o, PGSIZE * k, 0) in s.at }

  ghost predicate HasTables(s: Frames, o: nat, n: nat) { forall k: nat :: k < n ==> HasTable(s, o, k) }

  /** Copying into r adds no table to o. */
  lemma SourceTable(s: Frames, g: Frames, o: nat, r: nat, m: nat)
    requires Spent(s, g, CopyOf(o), r, 0, m) && o != r
    ensures HasTable(g, o, m) <==> HasTable(s, o, m)
  {
    hide Needs, Wants, PX;
    var k := KeyAt(o, PGSIZE * m, 0);
    if k in Needs(s, CopyOf(o), r, 0, m) { NeedsBelow(s, CopyOf(o), r, 0, m, k); }
  }

  lemma SpentSkip(s: Frames, g: Frames, goal: Goal, r: nat, va: nat, m: nat)
    requires Spent(s, g, goal, r, va, m) && !Wanted(s, goal, PageOf(va + PGSIZE * m))
    ensures Spent(s, g, goal, r, va, m + 1)
  {
    hide Needs, Wants, Wanted, PageOf, Path;
    NextCost(s, goal, r, va, m);
  }

  /** The pages from m on that a failed copy may unmap are those that were there before, if any. */
  lemma LaterPages(s: Frames, g: Frames, h: Frames, r: nat, m: nat, n: nat, goal: Goal)
    requires AllocTo(s, g, r, 0, m, goal) && NothingMapped(s, r, 0, n) && m <= n && Unmoved(g, h)
    requires forall pg {:trigger Slot(s, r, pg)} :: In(pg, n, n) && IsV(Slot(s, r, pg)) ==> IsU(Slot(s, r, pg))
    ensures forall pg {:trigger Slot(h, r, pg)} :: In(pg, m, m) && IsV(Slot(h, r, pg)) ==> IsU(Slot(h, r, pg))
  {
    hide IsV, IsU, Slot, Vpn;
    forall pg | In(pg, m, m) && IsV(Slot(h, r, pg)) ensures IsU(Slot(h, r, pg)) {
      assert Slot(g, r, pg) == Slot(s, r, pg) == Slot(h, r, pg);
    }
  }

  /** Every entry is as before. */
  ghost predicate Unmoved(g: Frames, h: Frames) {
    forall q, pg {:trigger Slot(h, q, pg)} :: Slot(h, q, pg) == Slot(g, q, pg)
  }

  /** A copy that failed at page m of n has left exactly the pages it had copied mapped, with their flags; what it
      unmapped is between m and 2m. */
  ghost predicate LeftMapped(s: Frames, g: Frames, o: nat, r: nat, m: nat, n: nat) {
    && (forall pg {:trigger Slot(g, r, pg)} :: In(pg, 0, n) ==> (IsV(Slot(g, r, pg)) <==> Due(s, CopyOf(o), pg, 0, m)))
    && (forall pg {:trigger Slot(g, r, pg)} :: Due(s, CopyOf(o), pg, 0, m) ==>
          IsU(Slot(g, r, pg)) && PteFlags(Slot(g, r, pg)) == PteFlags(Slot(s, o, pg)))
    && (forall pg {:trigger Slot(g, r, pg)} :: !Due(s, CopyOf(o), pg, 0, m) ==>
          Slot(g, r, pg) == Slot(s, r, pg) || (In(pg, m, m) && Slot(g, r, pg) == 0))
    && (forall q, pg {:trigger Slot(g, q, pg)} :: q != r ==> Slot(g, q, pg) == Slot(s, q, pg))
  }

  lemma StaysMapped(s: Frames, g: Frames, h: Frames, e: Frames, o: nat, r: nat, m: nat, n: nat, k: nat)
    requires AllocTo(s, g, r, 0, m, CopyOf(o)) && Unmoved(g, h) && UnmappedTo(h, e, r, m, k, true) && k <= m <= n
    requires NothingMapped(s, r, 0, n)
    ensures LeftMapped(s, e, o, r, m, n)
  {
    hide IsV, IsU, Slot, Vpn, Wanted, PTE2PA;
    ZeroInvalid();
    forall q, pg
      ensures Slot(e, q, pg) == if q == r && In(pg, m, k) && IsV(Slot(g, q, pg)) then 0 else Slot(g, q, pg)
    {
      assert Slot(h, q, pg) == Slot(g, q, pg);
    }
    forall pg | Due(s, CopyOf(o), pg, 0, m)
      ensures IsV(Slot(e, r, pg)) && IsU(Slot(e, r, pg)) && PteFlags(Slot(e, r, pg)) == PteFlags(Slot(s, o, pg))
    {
      assert NewPage(s, g, r, pg, CopyOf(o));
    }
    forall q, pg | !(q == r && Due(s, CopyOf(o), pg, 0, m)) ensures Slot(g, q, pg) == Slot(s, q, pg) {}
    forall pg | In(pg, 0, n) && !Due(s, CopyOf(o), pg, 0, m) ensures !IsV(Slot(e, r, pg)) {
      assert Slot(g, r, pg) == Slot(s, r, pg) && !IsV(Slot(s, r, pg));
    }
  }

  /** A frame that was free is now neither free nor in use. */
  ghost predicate Leaked(s: Frames, g: Frames) {
    exists f {:trigger g.own[f]} :: f in s.own && f in g.own && s.own[f] == Free && g.own[f] == Held
  }

  lemma NoLeak(s: Frames, g: Frames, e: Frames, r: nat, m: nat, k: nat, goal: Goal)
    requires AllocTo(s, g, r, 0, m, goal) && UnmappedTo(g, e, r, m, k, true)
    ensures !Leaked(s, e)
  {
    hide Slot, In;
    forall f | f in s.own && s.own[f] == Free ensures e.own[f] != Held {
      assert f in g.own.Keys && OwnAlloc(s, g, r, 0, m, f) && OwnUnmapped(g, e, r, m, k, true, f);
    }
  }

  lemma Leak(s: Frames, h: Frames, e: Frames, r: nat, m: nat, k: nat, f: nat)
    requires f in s.own && s.own[f] == Free && f in h.own && h.own[f] == Held && UnmappedTo(h, e, r, m, k, true)
    ensures Leaked(s, e)
  {
    assert f in e.own.Keys && OwnUnmapped(h, e, r, m, k, true, f);
    assert e.own[f] == Held;
  }

  // ---- the first page that is wanted ----

  function First(s: Frames, goal: Goal, va: nat, n: nat): (k: nat)
    ensures k <= n && (k < n ==> Wanted(s, goal, PageOf(va + PGSIZE * k)))
  {
    if n == 0 then 0
    else
      var k := First(s, goal, va, n - 1);
      if k < n - 1 then k else if Wanted(s, goal, PageOf(va + PGSIZE * (n - 1))) then n - 1 else n
  }

  lemma {:induction false} FirstIs(s: Frames, goal: Goal, va: nat, n: nat, j: nat)
    requires j < n && Wanted(s, goal, PageOf(va + PGSIZE * j))
    ensures First(s, goal, va, n) <= j
    decreases n
  {
    hide Wanted, PageOf;
    if j < n - 1 { FirstIs(s, goal, va, n - 1, j); }
  }

  /** A call that stops at page m for want of frames has made a page exactly if the frames suffice for the first. */
  lemma MadeSome(s: Frames, goal: Goal, r: nat, va: nat, m: nat, n: nat)
    requires m < n && Wanted(s, goal, PageOf(va + PGSIZE * m))
    requires Cost(s, goal, r, va, m) <= |s.free| < Cost(s, goal, r, va, m + 1)
    ensures First(s, goal, va, n) <= m
    ensures First(s, goal, va, n) < m <==> |s.free| >= Cost(s, goal, r, va, First(s, goal, va, n) + 1)
  {
    hide Wanted, PageOf, Cost, First;
    FirstIs(s, goal, va, n, m);
    var k := First(s, goal, va, n);
    if k < m { CostGrowsAll(s, goal, r, va, k + 1, m); }
  }

  lemma CostGrowsAll(s: Frames, goal: Goal, r: nat, va: nat, m: nat, n: nat)
    requires m <= n
    ensures Cost(s, goal, r, va, m) <= Cost(s, goal, r, va, n)
  {
    hide Needs, Wants;
    CostGrows(s, goal, r, va, m, n);
    var a, b := Needs(s, goal, r, va, m) - s.at.Keys, Needs(s, goal, r, va, n) - s.at.Keys;
    Sizes(a, b);
  }

  /** One of the first n pages of r is mapped. */
  ghost predicate HasPages(s: Frames, r: nat, n: nat) {
    exists pg {:trigger Slot(s, r, pg)} :: In(pg, 0, n) && IsV(Slot(s, r, pg))
  }

  lemma LeavesPages(s: Frames, g: Frames, o: nat, r: nat, m: nat, n: nat)
    requires LeftMapped(s, g, o, r, m, n) && m < n && PGSIZE * n <= VA_MAX
    ensures HasPages(g, r, n) <==> First(s, CopyOf(o), 0, n) < m
  {
    hide IsV, IsU, Slot, PX, First;
    var k := First(s, CopyOf(o), 0, n);
    if k < m {
      VpnOf(PGSIZE * k);
      assert Due(s, CopyOf(o), PageOf(PGSIZE * k), 0, m);
      assert IsV(Slot(g, r, PageOf(PGSIZE * k)));
    }
    if HasPages(g, r, n) {
      var pg :| In(pg, 0, n) && IsV(Slot(g, r, pg));
      VpnOf(PGSIZE * Vpn(pg));
      VpnInjective(pg, PageOf(PGSIZE * Vpn(pg)));
      FirstIs(s, CopyOf(o), 0, n, Vpn(pg));
    }
  }

  lemma HasTableIs(s: Frames, o: nat, m: nat)
    ensures HasTable(s, o, m) <==> KeyAt(o, PGSIZE * m, 0) in s.at
  {}

  /** map_pages has mapped nothing. */
  lemma MappedNothing(g: Frames, k: Frames, h: Frames, r: nat, a: nat, pa: nat, flag: nat)
    requires k.tab == g.tab && k.at == g.at && MappedTo(k, h, r, a, pa, flag, 0)
    requires pa in k.own && k.own[pa] == Held
    ensures Unmoved(g, h) && pa in h.own && h.own[pa] == Held
  {
    hide Slot, WordAt;
    assert pa in h.own.Keys && OwnAfter(k, h, r, a, pa, flag, 0, pa);
    forall q, pg ensures Slot(h, q, pg) == Slot(g, q, pg) {
      SlotOfOwn(g, k, q, pg);
      assert !In(pg, a / PGSIZE, 0);
    }
  }

  /** The frame that kalloc gave out has not been given back. */
  ghost predicate LastHeld(g: Frames, h: Frames) {
    g.free != [] ==> var f := g.free[|g.free| - 1]; f in h.own && h.own[f] == Held
  }

  /** A copy of n pages has run out of memory at page m: the frames are enough for the first m pages and not for the
      next, and the pages copied so far stay mapped. A frame is lost exactly if one was left for page m. */
  ghost predicate RanOut(s: Frames, e: Frames, o: nat, r: nat, m: nat, n: nat) {
    && Wanted(s, CopyOf(o), PageOf(PGSIZE * m)) && LeftMapped(s, e, o, r, m, n)
    && Cost(s, CopyOf(o), r, 0, m) <= |s.free| < Cost(s, CopyOf(o), r, 0, m + 1)
    && (Leaked(s, e) <==> |s.free| > Cost(s, CopyOf(o), r, 0, m))
    && s.at.Keys <= e.at.Keys && (KeyAt(r, PGSIZE * m, 0) in e.at ==>
                                    KeyAt(r, PGSIZE * m, 0) in s.at.Keys + Needs(s, CopyOf(o), r, 0, m))
  }

  lemma TablesLeft(s: Frames, g: Frames, h: Frames, e: Frames, o: nat, r: nat, m: nat, k: nat)
    requires Spent(s, g, CopyOf(o), r, 0, m) && Paid(g, h, r, PGSIZE * m, false) && UnmappedTo(h, e, r, m, k, true)
    ensures s.at.Keys <= e.at.Keys
    ensures KeyAt(r, PGSIZE * m, 0) in e.at ==> KeyAt(r, PGSIZE * m, 0) in s.at.Keys + Needs(s, CopyOf(o), r, 0, m)
  {
    hide Slot, KeyAt, Needs, Wants, OwnUnmapped;
  }

  /** Whether uvm_unmap has got through can be seen afterwards. */
  lemma UnmappableAfter(h: Frames, e: Frames, r: nat, m: nat, k: nat)
    requires UnmappedTo(h, e, r, m, k, true) && k <= m && Unmappable(h, r, PGSIZE * m, k)
    requires k < m ==> CannotAt(h, r, PGSIZE * m, k)
    ensures k == m <==> Unmappable(e, r, PGSIZE * m, m)
  {
    hide Slot, PX, OwnUnmapped, IsV;
    ZeroInvalid();
    forall x: nat | x < k ensures !CannotAt(e, r, PGSIZE * m, x) {
      assert !CannotAt(h, r, PGSIZE * m, x);
      VpnOf(PGSIZE * m + PGSIZE * x);
      var pg := PageOf(PGSIZE * m + PGSIZE * x);
      assert Slot(e, r, pg) == if In(pg, m, k) && IsV(Slot(h, r, pg)) then 0 else Slot(h, r, pg);
    }
    if k < m {
      ObstacleStays(h, e, r, PGSIZE * m, k, true);
      assert CannotAt(e, r, PGSIZE * m, k);
    }
  }

  lemma NothingPaid(g: Frames, h: Frames, r: nat, a: nat)
    requires Paid(g, h, r, a, false) && g.free == []
    ensures h == g
  {}

  /** A frame is lost exactly if one was left. */
  lemma LosesLast(s: Frames, g: Frames, h: Frames, e: Frames, o: nat, r: nat, m: nat, k: nat)
    requires Ok(g) && AllocTo(s, g, r, 0, m, CopyOf(o)) && UnmappedTo(h, e, r, m, k, true)
    requires Spent(s, g, CopyOf(o), r, 0, m) && Paid(g, h, r, PGSIZE * m, false) && LastHeld(g, h)
    ensures Leaked(s, e) <==> |s.free| > Cost(s, CopyOf(o), r, 0, m)
    ensures Cost(s, CopyOf(o), r, 0, m) <= |s.free|
  {
    hide Ok, AllocTo, Spent, Cost, UnmappedTo, Leaked, Paid;
    SpentIs(s, g, CopyOf(o), r, 0, m);
    if g.free == [] {
      NothingPaid(g, h, r, PGSIZE * m);
      NoLeak(s, g, e, r, m, k, CopyOf(o));
    } else {
      FreshIsFree(s, g, r, 0, m, CopyOf(o));
      Leak(s, h, e, r, m, k, g.free[|g.free| - 1]);
    }
  }

  /** What a copy that gives up at page m leaves: g is the state before that page, h that after it, and e the last. */
  lemma GaveUp(s: Frames, g: Frames, h: Frames, e: Frames, o: nat, r: nat, m: nat, n: nat, k: nat)
    requires Ok(g) && AllocTo(s, g, r, 0, m, CopyOf(o)) && Unmoved(g, h) && NothingMapped(s, r, 0, n)
    requires Spent(s, g, CopyOf(o), r, 0, m) && Paid(g, h, r, PGSIZE * m, false) && LastHeld(g, h)
    requires Wanted(s, CopyOf(o), PageOf(PGSIZE * m)) && |s.free| < Cost(s, CopyOf(o), r, 0, m + 1)
    requires UnmappedTo(h, e, r, m, k, true) && k <= m < n && PGSIZE * n <= VA_MAX
    ensures RanOut(s, e, o, r, m, n)
    ensures HasPages(e, r, n) <==> |s.free| >= Cost(s, CopyOf(o), r, 0, First(s, CopyOf(o), 0, n) + 1)
  {
    hide Ok, AllocTo, NothingMapped, Spent, Cost, Needs, LeftMapped, Unmoved, UnmappedTo, Leaked, HasPages, First,
         Wanted, PageOf, KeyAt, Paid, LastHeld;
    StaysMapped(s, g, h, e, o, r, m, n, k);
    LosesLast(s, g, h, e, o, r, m, k);
    TablesLeft(s, g, h, e, o, r, m, k);
    MadeSome(s, CopyOf(o), r, 0, m, n);
    LeavesPages(s, e, o, r, m, n);
  }
}
