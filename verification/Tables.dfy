/** Page tables as trees of frames, and who owns each frame. */
module Tables {

  import opened Paging

  /** A table page: the root of space r, a middle table below it, or a lowest table. */
  datatype Key = Root(r: nat) | Mid(r: nat, i: nat) | Low(r: nat, i: nat, j: nat)

  /** Held frames have been handed out by kalloc and are in no page table. */
  datatype Owner = Free | Held | Table(key: Key) | User(r: nat, pg: Page)

  /** tab: the 512 words of each table page; free: the free list, its head last; data: the bytes of the other pages.
      own and at are the ownership of frames and its inverse on tables. */
  datatype Frames = Frames(tab: map<nat, seq<nat>>, free: seq<nat>, own: map<nat, Owner>, at: map<Key, nat>,
                 data: map<nat, seq<nat>>)

  function TabPte(f: nat): nat { PA2PTE(f) + PTE_V }
  predicate IsV(w: nat) { Bit(w, PTE_V) }
  predicate IsU(w: nat) { Bit(w, PTE_U) }

  function Child(key: Key, i: nat): Key
    requires !key.Low?
  {
    if key.Root? then Mid(key.r, i) else Low(key.r, key.i, i)
  }

  predicate IsTable(s: Frames, f: nat) { f in s.tab && |s.tab[f]| == 512 }

  function Entry(s: Frames, f: nat, i: nat): nat { if IsTable(s, f) && i < 512 then s.tab[f][i] else 0 }

  /** A table is owned by its place in the tree and its parent points to it. */
  predicate KeyOk(s: Frames, key: Key) {
    key in s.at ==>
      var f := s.at[key];
      && FrameOk(f) && IsTable(s, f) && f in s.own && s.own[f] == Table(key)
      && match key
         case Root(r) => f == r
         case Mid(r, i) => i < 512 && Root(r) in s.at && Entry(s, s.at[Root(r)], i) == TabPte(f)
         case Low(r, i, j) => j < 512 && Mid(r, i) in s.at && Entry(s, s.at[Mid(r, i)], j) == TabPte(f)
  }

  /** A valid entry above the lowest level is a table of the tree. */
  predicate EntryOk(s: Frames, key: Key, i: nat) {
    key in s.at && !key.Low? && IsV(Entry(s, s.at[key], i)) ==> Child(key, i) in s.at
  }

  /** The lowest-level entry of a page, 0 where there is no lowest table. */
  function Slot(s: Frames, r: nat, pg: Page): nat {
    if Low(r, pg.i, pg.j) in s.at then Entry(s, s.at[Low(r, pg.i, pg.j)], pg.l) else 0
  }

  /** A user page is owned by the one place that maps it. */
  predicate LeafOk(s: Frames, r: nat, pg: Page) {
    var w := Slot(s, r, pg);
    IsV(w) && IsU(w) ==> PTE2PA(w) in s.own && s.own[PTE2PA(w)] == User(r, pg)
  }

  /** No frame is lost: a free frame is on the list, a table is in its tree, a user page is mapped. */
  predicate OwnOk(s: Frames, f: nat) {
    f in s.own ==>
      && FrameOk(f)
      && match s.own[f]
         case Free => f in s.free
         case Held => true
         case Table(key) => key in s.at && s.at[key] == f
         case User(r, pg) => IsV(Slot(s, r, pg)) && IsU(Slot(s, r, pg)) && PTE2PA(Slot(s, r, pg)) == f
  }

  function Nth(s: Frames, k: nat): nat
    requires k < |s.free|
  {
    s.free[k]
  }

  predicate FreeOk(s: Frames) {
    && (forall k {:trigger Nth(s, k)} :: 0 <= k < |s.free| ==> Nth(s, k) in s.own && s.own[Nth(s, k)] == Free)
    && (forall j, k {:trigger Nth(s, j), Nth(s, k)} :: 0 <= j < k < |s.free| ==> Nth(s, j) != Nth(s, k))
  }

  ghost predicate Ok(s: Frames) {
    && (forall key {:trigger KeyOk(s, key)} :: KeyOk(s, key))
    && (forall key, i {:trigger EntryOk(s, key, i)} :: EntryOk(s, key, i))
    && (forall r, pg {:trigger LeafOk(s, r, pg)} :: LeafOk(s, r, pg))
    && (forall f {:trigger OwnOk(s, f)} :: OwnOk(s, f))
    && FreeOk(s)
  }

  lemma ZeroInvalid()
    ensures !IsV(0)
  {}

  lemma TabPteOk(f: nat)
    requires FrameOk(f)
    ensures IsV(TabPte(f)) && !IsU(TabPte(f)) && PTE2PA(TabPte(f)) == f
  {
    TableEntry(f);
  }

  // ---- kalloc and kfree ----

  function Taken(s: Frames): Frames
    requires |s.free| > 0
  {
    var f := s.free[|s.free| - 1];
    s.(free := s.free[..|s.free| - 1], own := s.own[f := Held])
  }

  lemma TakenOk(s: Frames)
    requires Ok(s) && |s.free| > 0
    ensures Ok(Taken(s)) && s.free[|s.free| - 1] in s.own && s.own[s.free[|s.free| - 1]] == Free
  {
    var f, g := s.free[|s.free| - 1], Taken(s);
    assert f == Nth(s, |s.free| - 1) && OwnOk(s, f);
    forall key ensures KeyOk(g, key) { assert KeyOk(s, key); }
    forall key, i ensures EntryOk(g, key, i) { assert EntryOk(s, key, i); }
    forall r, pg ensures LeafOk(g, r, pg) { assert LeafOk(s, r, pg); }
    forall x ensures OwnOk(g, x) { assert OwnOk(s, x); }
    forall k | 0 <= k < |g.free| ensures Nth(g, k) == Nth(s, k) {}
  }

  /** A frame that nothing refers to. */
  lemma HeldMore(s: Frames, f: nat)
    requires Ok(s) && FrameOk(f) && f !in s.own
    ensures Ok(s.(own := s.own[f := Held]))
  {
    var g := s.(own := s.own[f := Held]);
    forall key ensures KeyOk(g, key) { assert KeyOk(s, key); }
    forall key, i ensures EntryOk(g, key, i) { assert EntryOk(s, key, i); }
    forall r, pg ensures LeafOk(g, r, pg) { assert LeafOk(s, r, pg); }
    forall x ensures OwnOk(g, x) { assert OwnOk(s, x); }
    forall k | 0 <= k < |g.free| ensures Nth(g, k) == Nth(s, k) {}
  }

  lemma NoFramesOk()
    ensures Ok(Frames(map[], [], map[], map[], map[]))
  {
    ZeroInvalid();
  }

  function Given(s: Frames, f: nat): Frames { s.(free := s.free + [f], own := s.own[f := Free]) }

  lemma GivenOk(s: Frames, f: nat)
    requires Ok(s) && f in s.own && s.own[f] == Held
    ensures Ok(Given(s, f))
  {
    var g := Given(s, f);
    assert OwnOk(s, f);
    forall key ensures KeyOk(g, key) { assert KeyOk(s, key); }
    forall key, i ensures EntryOk(g, key, i) { assert EntryOk(s, key, i); }
    forall r, pg ensures LeafOk(g, r, pg) { assert LeafOk(s, r, pg); }
    forall x ensures OwnOk(g, x) { assert OwnOk(s, x); }
    forall k | 0 <= k < |g.free| ensures Nth(g, k) == if k < |s.free| then Nth(s, k) else f {}
  }

  // ---- tables ----

  function Zeros(): (z: seq<nat>)
    ensures |z| == 512 && forall i :: 0 <= i < 512 ==> z[i] == 0
  {
    seq(512, i => 0)
  }

  function Put(t: seq<nat>, i: nat, w: nat): seq<nat>
    requires i < |t|
  {
    t[i := w]
  }

  /** uvm_create's use of a zeroed frame. */
  function Rooted(s: Frames, f: nat): Frames {
    s.(tab := s.tab[f := Zeros()], at := s.at[Root(f) := f], own := s.own[f := Table(Root(f))])
  }

  lemma RootedOk(s: Frames, f: nat)
    requires Ok(s) && f in s.own && s.own[f] == Held
    ensures Ok(Rooted(s, f)) && Root(f) !in s.at
    ensures forall r, pg {:trigger Slot(Rooted(s, f), r, pg)} :: Slot(Rooted(s, f), r, pg) == Slot(s, r, pg)
  {
    hide IsV, IsU, TabPte, PTE2PA, FrameOk;
    var g := Rooted(s, f);
    assert OwnOk(s, f) && KeyOk(s, Root(f));
    ZeroInvalid();
    forall r, pg ensures Slot(g, r, pg) == Slot(s, r, pg) { assert KeyOk(s, Low(r, pg.i, pg.j)); }
    forall key ensures KeyOk(g, key) {
      assert KeyOk(s, key);
      if key.Mid? { assert KeyOk(s, Root(key.r)); }
      if key.Low? { assert KeyOk(s, Mid(key.r, key.i)); }
    }
    forall key, i ensures EntryOk(g, key, i) { assert EntryOk(s, key, i) && KeyOk(s, key); }
    forall r, pg ensures LeafOk(g, r, pg) { assert LeafOk(s, r, pg); }
    forall x ensures OwnOk(g, x) { assert OwnOk(s, x); }
    forall k | 0 <= k < |g.free| ensures Nth(g, k) == Nth(s, k) {}
  }

  /** walk's use of a zeroed frame: the missing table below entry i of table `key`. */
  function Grown(s: Frames, key: Key, i: nat, f: nat): Frames
    requires !key.Low? && key in s.at && IsTable(s, s.at[key]) && i < 512
  {
    var p := s.at[key];
    s.(tab := s.tab[p := Put(s.tab[p], i, TabPte(f))][f := Zeros()], at := s.at[Child(key, i) := f],
       own := s.own[f := Table(Child(key, i))])
  }

  lemma GrownSlots(s: Frames, key: Key, i: nat, f: nat)
    requires Ok(s) && f in s.own && s.own[f] == Held
    requires !key.Low? && key in s.at && IsTable(s, s.at[key]) && i < 512 && !IsV(Entry(s, s.at[key], i))
    ensures Child(key, i) !in s.at
    ensures forall r, pg {:trigger Slot(Grown(s, key, i, f), r, pg)} ::
              Slot(Grown(s, key, i, f), r, pg) == Slot(s, r, pg)
  {
    hide IsV, IsU, PTE2PA, TabPte, LeafOk;
    var g := Grown(s, key, i, f);
    assert OwnOk(s, f) && KeyOk(s, key) && KeyOk(s, Child(key, i));
    TabPteOk(s.at[if Child(key, i) in s.at then Child(key, i) else key]);
    forall r, pg ensures Slot(g, r, pg) == Slot(s, r, pg) { assert KeyOk(s, Low(r, pg.i, pg.j)); }
  }

  lemma GrownOk(s: Frames, key: Key, i: nat, f: nat)
    requires Ok(s) && f in s.own && s.own[f] == Held
    requires !key.Low? && key in s.at && IsTable(s, s.at[key]) && i < 512 && !IsV(Entry(s, s.at[key], i))
    ensures Ok(Grown(s, key, i, f)) && Child(key, i) !in s.at
    ensures forall r, pg {:trigger Slot(Grown(s, key, i, f), r, pg)} ::
              Slot(Grown(s, key, i, f), r, pg) == Slot(s, r, pg)
  {
    hide IsV, IsU, TabPte, PTE2PA, FrameOk, Slot;
    var g := Grown(s, key, i, f);
    assert OwnOk(s, f) && KeyOk(s, key);
    ZeroInvalid();
    GrownSlots(s, key, i, f);
    forall k ensures KeyOk(g, k) {
      assert KeyOk(s, k);
      if k.Mid? { assert KeyOk(s, Root(k.r)); }
      if k.Low? { assert KeyOk(s, Mid(k.r, k.i)); }
    }
    forall k, x ensures EntryOk(g, k, x) { assert EntryOk(s, k, x) && KeyOk(s, k); }
    forall r, pg ensures LeafOk(g, r, pg) { assert LeafOk(s, r, pg); }
    forall x ensures OwnOk(g, x) { assert OwnOk(s, x); }
    forall k | 0 <= k < |g.free| ensures Nth(g, k) == Nth(s, k) {}
  }

  // ---- leaves ----

  function SetLeaf(s: Frames, r: nat, pg: Page, w: nat): Frames
    requires Low(r, pg.i, pg.j) in s.at && IsTable(s, s.at[Low(r, pg.i, pg.j)]) && pg.l < 512
  {
    var f := s.at[Low(r, pg.i, pg.j)];
    s.(tab := s.tab[f := Put(s.tab[f], pg.l, w)])
  }

  /** Writing a leaf changes the one slot and nothing else. */
  lemma SetLeafSlots(s: Frames, r: nat, pg: Page, w: nat)
    requires Ok(s) && Low(r, pg.i, pg.j) in s.at && IsTable(s, s.at[Low(r, pg.i, pg.j)]) && pg.l < 512
    ensures forall r', q {:trigger Slot(SetLeaf(s, r, pg, w), r', q)} ::
              Slot(SetLeaf(s, r, pg, w), r', q) == if r' == r && q == pg then w else Slot(s, r', q)
  {
    hide LeafOk, EntryOk, OwnOk, FrameOk, TabPte;
    var g := SetLeaf(s, r, pg, w);
    assert KeyOk(s, Low(r, pg.i, pg.j));
    forall r', q ensures Slot(g, r', q) == if r' == r && q == pg then w else Slot(s, r', q) {
      assert KeyOk(s, Low(r', q.i, q.j));
    }
  }

  /** map_pages on one page: a user frame becomes the space's. */
  function Mapped(s: Frames, r: nat, pg: Page, w: nat): Frames
    requires Low(r, pg.i, pg.j) in s.at && IsTable(s, s.at[Low(r, pg.i, pg.j)]) && pg.l < 512
  {
    var g := SetLeaf(s, r, pg, w);
    if IsU(w) then g.(own := s.own[PTE2PA(w) := User(r, pg)]) else g
  }

  lemma MappedOk(s: Frames, r: nat, pg: Page, w: nat)
    requires Ok(s) && Low(r, pg.i, pg.j) in s.at && IsTable(s, s.at[Low(r, pg.i, pg.j)]) && pg.l < 512
    requires IsV(w) && !IsV(Slot(s, r, pg)) && (IsU(w) ==> PTE2PA(w) in s.own && s.own[PTE2PA(w)] == Held)
    ensures Ok(Mapped(s, r, pg, w))
  {
    var g := Mapped(s, r, pg, w);
    hide IsV, IsU, TabPte, PTE2PA, FrameOk;
    SetLeafSlots(s, r, pg, w);
    assert forall r', q :: Slot(g, r', q) == Slot(SetLeaf(s, r, pg, w), r', q);
    forall k ensures KeyOk(g, k) {
      assert KeyOk(s, k) && KeyOk(s, Low(r, pg.i, pg.j));
      if k.Mid? { assert KeyOk(s, Root(k.r)); }
      if k.Low? { assert KeyOk(s, Mid(k.r, k.i)); }
    }
    forall k, x ensures EntryOk(g, k, x) { assert EntryOk(s, k, x) && KeyOk(s, k) && KeyOk(s, Low(r, pg.i, pg.j)); }
    forall r', q ensures LeafOk(g, r', q) { assert LeafOk(s, r', q); }
    forall x ensures OwnOk(g, x) { assert OwnOk(s, x); }
    forall k | 0 <= k < |g.free| ensures Nth(g, k) == Nth(s, k) {}
  }

  /** uvm_unmap on one valid page: a user frame is given up by the space. */
  function Unmapped(s: Frames, r: nat, pg: Page): Frames
    requires Low(r, pg.i, pg.j) in s.at && IsTable(s, s.at[Low(r, pg.i, pg.j)]) && pg.l < 512
  {
    var w, g := Slot(s, r, pg), SetLeaf(s, r, pg, 0);
    if IsU(w) then g.(own := s.own[PTE2PA(w) := Held]) else g
  }

  lemma UnmappedOk(s: Frames, r: nat, pg: Page)
    requires Ok(s) && Low(r, pg.i, pg.j) in s.at && IsTable(s, s.at[Low(r, pg.i, pg.j)]) && pg.l < 512
    requires IsV(Slot(s, r, pg))
    ensures Ok(Unmapped(s, r, pg))
  {
    var g := Unmapped(s, r, pg);
    hide IsV, IsU, TabPte, PTE2PA, FrameOk;
    ZeroInvalid();
    SetLeafSlots(s, r, pg, 0);
    assert LeafOk(s, r, pg);
    assert forall r', q :: Slot(g, r', q) == Slot(SetLeaf(s, r, pg, 0), r', q);
    forall k ensures KeyOk(g, k) {
      assert KeyOk(s, k) && KeyOk(s, Low(r, pg.i, pg.j));
      if k.Mid? { assert KeyOk(s, Root(k.r)); }
      if k.Low? { assert KeyOk(s, Mid(k.r, k.i)); }
    }
    forall k, x ensures EntryOk(g, k, x) { assert EntryOk(s, k, x) && KeyOk(s, k) && KeyOk(s, Low(r, pg.i, pg.j)); }
    forall r', q ensures LeafOk(g, r', q) { assert LeafOk(s, r', q); }
    forall x ensures OwnOk(g, x) { assert OwnOk(s, x); }
    forall k | 0 <= k < |g.free| ensures Nth(g, k) == Nth(s, k) {}
  }

  // ---- taking a tree down ----

  /** A table with no valid entry is taken out of the tree and its parent's entry cleared. */
  function Pruned(s: Frames, key: Key): Frames
    requires key in s.at && KeyOk(s, key)
  {
    var f := s.at[key];
    var g := s.(at := s.at - {key}, own := s.own[f := Held]);
    match key
    case Root(_) => g
    case Mid(r, i) =>
      var p := s.at[Root(r)];
      if IsTable(s, p) then g.(tab := s.tab[p := Put(s.tab[p], i, 0)]) else g
    case Low(r, i, j) =>
      var p := s.at[Mid(r, i)];
      if IsTable(s, p) then g.(tab := s.tab[p := Put(s.tab[p], j, 0)]) else g
  }

  lemma PrunedOk(s: Frames, key: Key)
    requires Ok(s) && key in s.at && KeyOk(s, key) &&
             forall i {:trigger Entry(s, s.at[key], i)} :: !IsV(Entry(s, s.at[key], i))
    ensures Ok(Pruned(s, key))
    ensures forall r, q {:trigger Slot(Pruned(s, key), r, q)} ::
              Slot(Pruned(s, key), r, q) == if key == Low(r, q.i, q.j) then 0 else Slot(s, r, q)
  {
    hide IsV, IsU, TabPte, PTE2PA, FrameOk;
    var g := Pruned(s, key);
    ZeroInvalid();
    assert OwnOk(s, s.at[key]);
    forall r, q ensures Slot(g, r, q) == if key == Low(r, q.i, q.j) then 0 else Slot(s, r, q) {
      assert KeyOk(s, Low(r, q.i, q.j));
      if key.Mid? { assert KeyOk(s, Root(key.r)); }
      if key.Low? { assert KeyOk(s, Mid(key.r, key.i)); }
    }
    PrunedTree(s, key);
    forall r, q ensures LeafOk(g, r, q) { assert LeafOk(s, r, q); }
    forall x ensures OwnOk(g, x) { assert OwnOk(s, x); }
    forall k | 0 <= k < |g.free| ensures Nth(g, k) == Nth(s, k) {}
  }

  lemma PrunedTree(s: Frames, key: Key)
    requires Ok(s) && key in s.at && KeyOk(s, key) &&
             forall i {:trigger Entry(s, s.at[key], i)} :: !IsV(Entry(s, s.at[key], i))
    ensures forall k {:trigger KeyOk(Pruned(s, key), k)} :: KeyOk(Pruned(s, key), k)
    ensures forall k, x {:trigger EntryOk(Pruned(s, key), k, x)} :: EntryOk(Pruned(s, key), k, x)
  {
    hide IsV, IsU, TabPte, PTE2PA, LeafOk;
    var g := Pruned(s, key);
    ZeroInvalid();
    if key.Mid? { assert KeyOk(s, Root(key.r)); }
    if key.Low? { assert KeyOk(s, Mid(key.r, key.i)); }
    forall k ensures KeyOk(g, k) {
      assert KeyOk(s, k);
      if k in s.at { TabPteOk(s.at[k]); }
      if k.Mid? { assert KeyOk(s, Root(k.r)); }
      if k.Low? { assert KeyOk(s, Mid(k.r, k.i)); }
    }
    forall k, x ensures EntryOk(g, k, x) { assert EntryOk(s, k, x) && KeyOk(s, k); }
  }
}
