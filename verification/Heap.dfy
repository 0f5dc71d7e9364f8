/** The user heap: a circular free list in address order, first fit, merging with both neighbours on free.
    Addresses are bytes; a header takes UNIT bytes and sizes count units, the header included. */
module Heap {

  const UNIT := 16            // sizeof(Header)
  const BASE: nat := 16       // where the static header `base` lives, below everything sbrk returns
  const NALLOC := 4096

  /** Header fields, by header address. `ring` is the free list from `base` on, `live` the headers of blocks
      handed out, and `own` gives for each byte obtained from sbrk the header of the block it lies in. */
  datatype H = H(ptr: map<nat, nat>, size: map<nat, nat>, ring: seq<nat>, live: set<nat>, own: map<nat, nat>)

  function Succ(i: nat, n: nat): nat { if i + 1 < n then i + 1 else 0 }

  /** ring[i]; named so that the order is instantiated only where two positions are compared. */
  function Nth(ring: seq<nat>, i: nat): nat
    requires i < |ring|
  {
    ring[i]
  }

  /** One past the last byte of a block. */
  function End(h: H, b: nat): nat
    requires b in h.size
  {
    b + UNIT * h.size[b]
  }

  predicate Link(h: H, i: nat)
    requires i < |h.ring|
  {
    h.ring[i] in h.ptr && h.ptr[h.ring[i]] == h.ring[Succ(i, |h.ring|)]
  }

  predicate Sizes(h: H) {
    && BASE in h.size && h.size[BASE] == 0
    && (forall i {:trigger h.ring[i]} :: 0 <= i < |h.ring| ==> h.ring[i] in h.size)
    && (forall i {:trigger h.ring[i]} :: 1 <= i < |h.ring| ==> h.size[h.ring[i]] >= 1 && h.ring[i] >= BASE + UNIT)
    && (forall b {:trigger b in h.live} :: b in h.live ==>
       b in h.size && h.size[b] >= 1 && b >= BASE + UNIT && b !in h.ring)
  }

  /** The free list is one cycle in address order: blocks do not overlap, and the only descent is from the
      last block back to `base`. */
  predicate Ring(h: H) {
    && h.ring != [] && h.ring[0] == BASE && Sizes(h)
    && (forall i {:trigger Link(h, i)} :: 0 <= i < |h.ring| ==> Link(h, i))
    && (forall i, j {:trigger Nth(h.ring, i), Nth(h.ring, j)} :: 0 <= i < j < |h.ring| ==>
       End(h, h.ring[i]) <= h.ring[j])
  }

  /** Block i of the list ends where the next one begins. */
  predicate Touching(h: H, i: nat)
    requires i + 1 < |h.ring| && h.ring[i] in h.size
  {
    End(h, h.ring[i]) == h.ring[i + 1]
  }

  predicate Separated(h: H)
    requires Sizes(h)
  {
    forall i {:trigger Touching(h, i)} :: 0 <= i < |h.ring| - 1 ==> !Touching(h, i)
  }

  predicate IsBlock(h: H, b: nat) { b in h.live || (b in h.ring && b != BASE) }

  /** The byte's owner is a block that contains it. */
  predicate Owned(h: H, u: nat)
    requires u in h.own
  {
    IsBlock(h, h.own[u]) && h.own[u] in h.size && h.own[u] <= u < End(h, h.own[u])
  }

  /** If block b contains byte u, then b owns it. */
  predicate Covers(h: H, b: nat, u: nat) {
    IsBlock(h, b) && b in h.size && b <= u < End(h, b) ==> u in h.own && h.own[u] == b
  }

  /** The free and the live blocks tile the bytes obtained from sbrk: every byte is in exactly one block. */
  ghost predicate Tiled(h: H)
    requires Sizes(h)
  {
    && (forall u: nat {:trigger Owned(h, u)} :: u in h.own ==> Owned(h, u))
    && (forall b: nat, u: nat {:trigger Covers(h, b, u)} :: Covers(h, b, u))
  }

  /** What holds between calls. */
  ghost predicate HeapOk(h: H) { Ring(h) && Separated(h) && Tiled(h) }

  lemma Order(h: H, i: nat, j: nat)
    requires Ring(h) && i < j < |h.ring|
    ensures End(h, h.ring[i]) <= h.ring[j] && h.ring[i] < h.ring[j]
  {
    assert Nth(h.ring, i) == h.ring[i] && Nth(h.ring, j) == h.ring[j];
  }

  // ---- putting a live block on the list ----

  function Insert(ring: seq<nat>, q: nat, b: nat): (r: seq<nat>)
    requires q < |ring|
    ensures |r| == |ring| + 1
  {
    seq(|ring| + 1, i requires 0 <= i <= |ring| => if i <= q then ring[i] else if i == q + 1 then b else ring[i - 1])
  }

  /** The block's own bytes do not meet any other block. */
  lemma Apart(h: H, b: nat, c: nat)
    requires Ring(h) && Tiled(h) && IsBlock(h, b) && IsBlock(h, c) && b in h.size && c in h.size && b < c
    ensures End(h, b) <= c
  {
    assert Covers(h, b, c) && Covers(h, c, c);
  }

  /** Position q of the list is where block b belongs. */
  predicate Place(h: H, q: nat, b: nat) {
    q < |h.ring| && h.ring[q] < b && (q + 1 < |h.ring| ==> b < h.ring[q + 1])
  }

  function Linked(h: H, q: nat, b: nat): H
    requires q < |h.ring| && h.ring[q] in h.ptr
  {
    h.(ptr := h.ptr[b := h.ptr[h.ring[q]]][h.ring[q] := b], ring := Insert(h.ring, q, b), live := h.live - {b})
  }

  lemma LinkedRing(h: H, q: nat, b: nat)
    requires Ring(h) && Tiled(h) && b in h.live && Place(h, q, b) && Link(h, q)
    ensures Ring(Linked(h, q, b))
  {
    var g := Linked(h, q, b);
    forall i | 0 <= i < |g.ring| ensures Link(g, i) {
      if i < q { assert Link(h, i); Order(h, i, q); }
      if i > q + 1 { assert Link(h, i - 1); Order(h, q, i - 1); }
    }
    forall i, j | 0 <= i < j < |g.ring| ensures End(g, g.ring[i]) <= g.ring[j] {
      LinkedOrder(h, q, b, i, j);
    }
  }

  lemma LinkedOrder(h: H, q: nat, b: nat, i: nat, j: nat)
    requires Ring(h) && Tiled(h) && b in h.live && Place(h, q, b) && h.ring[q] in h.ptr && i < j <= |h.ring|
    ensures var g := Linked(h, q, b); g.ring[i] in g.size && End(g, g.ring[i]) <= g.ring[j]
  {
    if i == q + 1 {
      var c := h.ring[j - 1];
      if q + 1 < j - 1 { Order(h, q + 1, j - 1); }
      Apart(h, b, c);
    } else if j == q + 1 {
      var c := h.ring[i];
      if i < q { Order(h, i, q); }
      if i > 0 { Apart(h, c, b); }
    } else {
      Order(h, if i <= q then i else i - 1, if j <= q then j else j - 1);
    }
  }

  /** Only block b changes sides; bytes and sizes stay. */
  lemma LinkedTiled(h: H, q: nat, b: nat)
    requires Ring(h) && Tiled(h) && b in h.live && Place(h, q, b) && h.ring[q] in h.ptr && Sizes(Linked(h, q, b))
    ensures Tiled(Linked(h, q, b))
  {
    var g := Linked(h, q, b);
    assert g.ring[q + 1] == b;
    forall c: nat ensures IsBlock(g, c) == IsBlock(h, c) {
      if c in h.ring {
        var i :| 0 <= i < |h.ring| && h.ring[i] == c;
        assert g.ring[if i <= q then i else i + 1] == c;
      }
    }
    forall u: nat | u in g.own ensures Owned(g, u) { assert Owned(h, u); }
    forall c: nat, u: nat ensures Covers(g, c, u) { assert Covers(h, c, u); }
  }

  /** Touching pairs can only be next to the new block. */
  lemma LinkedSeparated(h: H, q: nat, b: nat)
    requires Ring(h) && Separated(h) && b in h.live && Place(h, q, b) && h.ring[q] in h.ptr && Sizes(Linked(h, q, b))
    ensures var g := Linked(h, q, b);
      forall i {:trigger Touching(g, i)} :: 0 <= i < |g.ring| - 1 && i != q && i != q + 1 ==> !Touching(g, i)
  {
    var g := Linked(h, q, b);
    forall i | 0 <= i < |g.ring| - 1 && i != q && i != q + 1 ensures !Touching(g, i) {
      assert !Touching(h, if i < q then i else i - 1);
    }
  }

  // ---- merging two touching list entries ----

  function Removed(ring: seq<nat>, p: nat): (r: seq<nat>)
    requires p < |ring|
    ensures |r| == |ring| - 1
  {
    seq(|ring| - 1, j requires 0 <= j < |ring| - 1 => ring[if j < p then j else j + 1])
  }

  function Reowned(own: map<nat, nat>, b: nat, c: nat): map<nat, nat> {
    map u | u in own :: if own[u] == b then c else own[u]
  }

  /** List entry i takes over entry i+1. */
  function Merged(h: H, i: nat): H
    requires i + 1 < |h.ring| && h.ring[i] in h.size && h.ring[i + 1] in h.size && h.ring[i + 1] in h.ptr
  {
    var p, b := h.ring[i], h.ring[i + 1];
    h.(ptr := h.ptr[p := h.ptr[b]], size := h.size[p := h.size[p] + h.size[b]],
       ring := Removed(h.ring, i + 1), own := Reowned(h.own, b, p))
  }

  lemma MergedRing(h: H, i: nat)
    requires Ring(h) && 0 < i && i + 1 < |h.ring| && Touching(h, i) && h.ring[i + 1] in h.ptr
    ensures Ring(Merged(h, i))
  {
    var g := Merged(h, i);
    forall j | 0 <= j < |g.ring| ensures Link(g, j) {
      assert Link(h, if j <= i then j else j + 1) && Link(h, i + 1);
      if j < i { Order(h, j, i); }
      if j > i { Order(h, i, j + 1); }
    }
    assert Sizes(g) by {
      forall j | 1 <= j < |g.ring| ensures g.size[g.ring[j]] >= 1 && g.ring[j] >= BASE + UNIT {
        if j < i { Order(h, j, i); }
        if j > i { Order(h, i, j + 1); }
      }
      Order(h, 0, i);
    }
    forall j, k | 0 <= j < k < |g.ring| ensures End(g, g.ring[j]) <= g.ring[k] {
      MergedOrder(h, i, j, k);
    }
  }

  lemma MergedOrder(h: H, i: nat, j: nat, k: nat)
    requires Ring(h) && 0 < i && i + 1 < |h.ring| && Touching(h, i) && h.ring[i + 1] in h.ptr && j < k < |h.ring| - 1
    ensures var g := Merged(h, i); g.ring[j] in g.size && End(g, g.ring[j]) <= g.ring[k]
  {
    Order(h, if j <= i then j else j + 1, if k <= i then k else k + 1);
    if j == i { Order(h, i + 1, k + 1); }
    if j < i { Order(h, j, i); }
    if j > i { Order(h, i, j + 1); }
  }

  lemma MergedBlocks(h: H, i: nat)
    requires Ring(h) && i + 1 < |h.ring| && h.ring[i + 1] in h.ptr
    ensures forall c: nat {:trigger IsBlock(Merged(h, i), c)} {:trigger IsBlock(h, c)} ::
      IsBlock(Merged(h, i), c) <==> IsBlock(h, c) && c != h.ring[i + 1]
  {
    var g := Merged(h, i);
    forall c: nat ensures IsBlock(g, c) <==> IsBlock(h, c) && c != h.ring[i + 1] {
      if c in g.ring {
        var j :| 0 <= j < |g.ring| && g.ring[j] == c;
        if j < i + 1 { Order(h, j, i + 1); } else { Order(h, i + 1, j + 1); }
      }
      if c in h.ring {
        var j :| 0 <= j < |h.ring| && h.ring[j] == c;
        if j != i + 1 { assert g.ring[if j <= i then j else j - 1] == c; }
      }
    }
  }

  lemma MergedTiled(h: H, i: nat)
    requires Ring(h) && Tiled(h) && 0 < i && i + 1 < |h.ring| && Touching(h, i) && h.ring[i + 1] in h.ptr &&
             Sizes(Merged(h, i))
    ensures Tiled(Merged(h, i))
  {
    var g := Merged(h, i);
    var p, b := h.ring[i], h.ring[i + 1];
    Order(h, i, i + 1);
    assert IsBlock(h, p) && IsBlock(h, b);
    MergedBlocks(h, i);
    assert IsBlock(g, p);
    forall u: nat | u in g.own ensures Owned(g, u) { assert Owned(h, u); }
    forall c: nat, u: nat ensures Covers(g, c, u) { assert Covers(h, c, u) && Covers(h, b, u); }
  }

  lemma MergedSeparated(h: H, i: nat, j: nat)
    requires Ring(h) && 0 < i && i + 1 < |h.ring| && Touching(h, i) && h.ring[i + 1] in h.ptr && Sizes(Merged(h, i))
    requires j < |h.ring| - 2 && (j <= i - 1 ==> !Touching(h, j)) && (j >= i ==> !Touching(h, j + 1))
    ensures !Touching(Merged(h, i), j)
  {
    if j < i { Order(h, j, i); }
    if j > i { Order(h, i, j + 1); }
  }

  // ---- free ----

  /** The list after `free` puts live block b after entry q and merges it with its neighbours. */
  ghost function MergedNext(h: H, q: nat, b: nat): H
    requires Ring(h) && Tiled(h) && b in h.live && Place(h, q, b)
    ensures Ring(MergedNext(h, q, b)) && q + 1 < |MergedNext(h, q, b).ring|
  {
    assert Link(h, q);
    LinkedRing(h, q, b);
    var g := Linked(h, q, b);
    if q + 2 < |g.ring| && Touching(g, q + 1) then
      assert Link(g, q + 2);
      MergedRing(g, q + 1);
      Merged(g, q + 1)
    else g
  }

  ghost function Freed(h: H, q: nat, b: nat): H
    requires Ring(h) && Tiled(h) && b in h.live && Place(h, q, b)
  {
    var g := MergedNext(h, q, b);
    assert Link(g, q + 1);
    if Touching(g, q) then Merged(g, q) else g
  }

  lemma MergedNextOk(h: H, q: nat, b: nat)
    requires HeapOk(h) && b in h.live && Place(h, q, b)
    ensures var g := MergedNext(h, q, b);
      && Tiled(g) && g.ring[q] == h.ring[q] && g.ring[q + 1] == b
      && forall i {:trigger Touching(g, i)} :: 0 <= i < |g.ring| - 1 && i != q ==> !Touching(g, i)
  {
    assert Link(h, q);
    LinkedRing(h, q, b);
    var l := Linked(h, q, b);
    LinkedTiled(h, q, b);
    LinkedSeparated(h, q, b);
    if q + 2 < |l.ring| && Touching(l, q + 1) {
      assert Link(l, q + 2);
      MergedRing(l, q + 1);
      MergedTiled(l, q + 1);
      var m := Merged(l, q + 1);
      forall i | 0 <= i < |l.ring| - 2 && i != q ensures !Touching(m, i) {
        MergedSeparated(l, q + 1, i);
      }
    }
  }

  /** `free` keeps the heap in order: one ascending cycle, no two free blocks touching, and the bytes still
      tiled; block b is free now and every other live block keeps its bytes. */
  lemma FreedOk(h: H, q: nat, b: nat)
    requires HeapOk(h) && b in h.live && Place(h, q, b)
    ensures var g := Freed(h, q, b);
      && HeapOk(g) && g.live == h.live - {b} && g.own.Keys == h.own.Keys && q < |g.ring| &&
         g.ring[q] == h.ring[q] >= BASE
      && forall c {:trigger c in g.live} :: c in g.live ==> g.size[c] == h.size[c]
  {
    MergedNextOk(h, q, b);
    var g := MergedNext(h, q, b);
    assert Link(g, q + 1);
    if Touching(g, q) {
      MergedRing(g, q);
      MergedTiled(g, q);
      var m := Merged(g, q);
      forall i | 0 <= i < |g.ring| - 2 ensures !Touching(m, i) {
        MergedSeparated(g, q, i);
      }
    }
  }

  // ---- malloc ----

  /** A free block of exactly the wanted size leaves the list. */
  function Taken(h: H, i: nat): H
    requires 0 < i < |h.ring| && h.ring[i] in h.ptr
  {
    h.(ptr := h.ptr[h.ring[i - 1] := h.ptr[h.ring[i]]], ring := Removed(h.ring, i), live := h.live + {h.ring[i]})
  }

  lemma TakenRing(h: H, i: nat)
    requires Ring(h) && 0 < i < |h.ring| && h.ring[i] in h.ptr
    ensures Ring(Taken(h, i))
  {
    var g := Taken(h, i);
    forall j | 0 <= j < |g.ring| ensures Link(g, j) {
      assert Link(h, if j < i then j else j + 1) && Link(h, i);
      if j < i - 1 { Order(h, j, i - 1); }
      if j >= i { Order(h, i - 1, j + 1); }
    }
    assert h.ring[i] !in g.ring by {
      forall j | 0 <= j < |g.ring| ensures g.ring[j] != h.ring[i] {
        if j < i { Order(h, j, i); } else { Order(h, i, j + 1); }
      }
    }
    forall j, k | 0 <= j < k < |g.ring| ensures End(g, g.ring[j]) <= g.ring[k] {
      Order(h, if j < i then j else j + 1, if k < i then k else k + 1);
    }
  }

  lemma TakenOk(h: H, i: nat)
    requires HeapOk(h) && 0 < i < |h.ring| && h.ring[i] in h.ptr
    ensures HeapOk(Taken(h, i))
  {
    TakenRing(h, i);
    var g := Taken(h, i);
    TakenBlocks(h, i);
    forall u: nat | u in g.own ensures Owned(g, u) { assert Owned(h, u); }
    forall c: nat, u: nat ensures Covers(g, c, u) { assert Covers(h, c, u); }
    forall j | 0 <= j < |g.ring| - 1 ensures !Touching(g, j) {
      if j == i - 1 {
        Order(h, i - 1, i);
        Order(h, i, i + 1);
      } else {
        assert !Touching(h, if j < i then j else j + 1);
      }
    }
  }

  lemma TakenBlocks(h: H, i: nat)
    requires Ring(h) && 0 < i < |h.ring| && h.ring[i] in h.ptr
    ensures forall c: nat {:trigger IsBlock(Taken(h, i), c)} {:trigger IsBlock(h, c)} :: IsBlock(Taken(h, i), c) <==>
            IsBlock(h, c)
  {
    var g := Taken(h, i);
    forall c: nat ensures IsBlock(g, c) <==> IsBlock(h, c) {
      if c in h.ring {
        var j :| 0 <= j < |h.ring| && h.ring[j] == c;
        if j != i { assert g.ring[if j < i then j else j - 1] == c; }
      }
      Order(h, 0, i);
    }
  }

  /** The last n units of a larger free block become a block of their own. */
  function Split(h: H, i: nat, n: nat): H
    requires 0 < i < |h.ring| && h.ring[i] in h.size && n < h.size[h.ring[i]]
  {
    var p := h.ring[i];
    var c := p + UNIT * (h.size[p] - n);
    h.(size := h.size[p := h.size[p] - n][c := n], live := h.live + {c},
       own := map u | u in h.own :: if h.own[u] == p && u >= c then c else h.own[u])
  }

  /** The new block starts inside the old one, so its address was not a block. */
  lemma SplitFresh(h: H, i: nat, n: nat)
    requires HeapOk(h) && 0 < i < |h.ring| && h.ring[i] in h.size && 0 < n < h.size[h.ring[i]]
    ensures var p := h.ring[i]; var c := p + UNIT * (h.size[p] - n);
      p < c < End(h, p) && !IsBlock(h, c) && c != BASE && c !in h.live && c !in h.ring
  {
    var p := h.ring[i];
    var c := p + UNIT * (h.size[p] - n);
    assert IsBlock(h, p);
    assert Covers(h, p, c) && Covers(h, c, c);
    Order(h, 0, i);
  }

  lemma SplitRing(h: H, i: nat, n: nat)
    requires HeapOk(h) && 0 < i < |h.ring| && h.ring[i] in h.size && 0 < n < h.size[h.ring[i]]
    ensures Ring(Split(h, i, n)) && Separated(Split(h, i, n))
  {
    var g := Split(h, i, n);
    SplitFresh(h, i, n);
    forall j | 0 <= j < |g.ring| ensures Link(g, j) { assert Link(h, j); }
    forall j | 0 <= j < |g.ring| ensures g.ring[j] in g.size &&
        g.size[g.ring[j]] == if j == i then h.size[h.ring[i]] - n else h.size[h.ring[j]] {
      if j < i { Order(h, j, i); }
      if j > i { Order(h, i, j); }
    }
    forall j, k | 0 <= j < k < |g.ring| ensures End(g, g.ring[j]) <= g.ring[k] { Order(h, j, k); }
    forall j | 0 <= j < |g.ring| - 1 ensures !Touching(g, j) {
      assert !Touching(h, j);
      Order(h, j, j + 1);
    }
  }

  lemma SplitOk(h: H, i: nat, n: nat)
    requires HeapOk(h) && 0 < i < |h.ring| && h.ring[i] in h.size && 0 < n < h.size[h.ring[i]]
    ensures HeapOk(Split(h, i, n))
  {
    SplitRing(h, i, n);
    SplitFresh(h, i, n);
    var g := Split(h, i, n);
    var p := h.ring[i];
    var c := p + UNIT * (h.size[p] - n);
    assert IsBlock(h, p) && IsBlock(g, p) && IsBlock(g, c);
    forall u: nat | u in g.own ensures Owned(g, u) { assert Owned(h, u); }
    forall b: nat, u: nat ensures Covers(g, b, u) { assert Covers(h, b, u) && Covers(h, p, u); }
  }

  ghost function Range(lo: nat, hi: nat): (r: set<nat>)
    ensures forall u: nat {:trigger u in r} :: u in r <==> lo <= u < hi
  {
    set u: nat {:trigger Same(u)} | lo <= u < hi && Same(u)
  }

  predicate Same(u: nat) { true }

  /** A region obtained from sbrk, seen as a block handed out. */
  ghost function Granted(h: H, p: nat, n: nat): H {
    h.(size := h.size[p := n], live := h.live + {p},
       own := map u | u in h.own.Keys + Range(p, p + UNIT * n) :: if u in Range(p, p + UNIT * n) then p else h.own[u])
  }

  lemma GrantedOk(h: H, p: nat, n: nat)
    requires HeapOk(h) && n > 0 && p >= BASE + UNIT && forall u: nat {:trigger u in h.own} :: u in h.own ==> u < p
    ensures HeapOk(Granted(h, p, n)) && Granted(h, p, n).own.Keys == h.own.Keys + Range(p, p + UNIT * n)
  {
    var g := Granted(h, p, n);
    forall b: nat | IsBlock(h, b) ensures b < p {
      assert Covers(h, b, b);
    }
    assert !IsBlock(h, p);
    forall i | 0 <= i < |g.ring| ensures Link(g, i) { assert Link(h, i); }
    forall j, k | 0 <= j < k < |g.ring| ensures End(g, g.ring[j]) <= g.ring[k] { Order(h, j, k); }
    forall j | 0 <= j < |g.ring| - 1 ensures !Touching(g, j) { assert !Touching(h, j); }
    GrantedTiled(h, p, n);
  }

  lemma GrantedTiled(h: H, p: nat, n: nat)
    requires HeapOk(h) && n > 0 && Sizes(Granted(h, p, n)) && forall u: nat {:trigger u in h.own} :: u in h.own ==>
             u < p
    ensures Tiled(Granted(h, p, n))
  {
    var g := Granted(h, p, n);
    forall u: nat | u in g.own ensures Owned(g, u) {
      if u < p { assert Owned(h, u) && Covers(h, h.own[u], h.own[u]); }
    }
    forall b: nat, u: nat ensures Covers(g, b, u) {
      assert Covers(h, b, u);
      assert u in h.own || u in Range(p, p + UNIT * n) ==> u in h.own.Keys + Range(p, p + UNIT * n);
      if b == p && b <= u < p + UNIT * n { assert u in Range(p, p + UNIT * n); }
    }
  }

  // ---- searching the list ----

  /** There is a place for every live block. */
  lemma PlaceExists(h: H, b: nat) returns (q: nat)
    requires Ring(h) && b in h.live
    ensures Place(h, q, b)
  {
    q := 0;
    while q + 1 < |h.ring| && h.ring[q + 1] < b
      invariant q < |h.ring| && h.ring[q] < b
    {
      q := q + 1;
    }
  }

  lemma PlaceUnique(h: H, b: nat, p: nat, q: nat)
    requires Ring(h) && Place(h, p, b) && Place(h, q, b)
    ensures p == q
  {
    if p < q { if p + 1 < q { Order(h, p + 1, q); } }
    if q < p { if q + 1 < p { Order(h, q + 1, p); } }
  }

  /** The two tests that end the search loop of `free`, at list entry i. */
  predicate Between(p: nat, next: nat, b: nat) { b > p && b < next }
  predicate AtDescent(p: nat, next: nat, b: nat) { p >= next && (b > p || b < next) }

  /** The search stops at entry i exactly when the block belongs there. */
  lemma StopsAtPlace(h: H, b: nat, i: nat)
    requires Ring(h) && b in h.live && i < |h.ring|
    ensures var p := h.ring[i]; var next := h.ring[Succ(i, |h.ring|)];
      Between(p, next, b) || AtDescent(p, next, b) <==> Place(h, i, b)
  {
    if i + 1 < |h.ring| { Order(h, i, i + 1); }
    if i > 0 { Order(h, 0, i); }
  }

  /** Entry number d of the list, counted from entry f round the circle. */
  function At(f: nat, d: nat, n: nat): nat
    requires f < n && d <= n
    ensures At(f, d, n) < n
  {
    if f + d < n then f + d else f + d - n
  }

  /** Some free block is large enough. */
  predicate Fits(h: H, n: nat)
    requires Sizes(h)
  {
    exists i {:trigger h.ring[i]} :: 0 <= i < |h.ring| && h.size[h.ring[i]] >= n
  }

  /** A full circle without a fit means there is none. */
  lemma NoFit(h: H, f: nat, n: nat)
    requires Sizes(h) && f < |h.ring|
    requires forall e {:trigger At(f, e, |h.ring|)} :: 1 <= e <= |h.ring| ==> h.size[h.ring[At(f, e, |h.ring|)]] < n
    ensures !Fits(h, n)
  {
    forall i | 0 <= i < |h.ring| ensures h.size[h.ring[i]] < n {
      var e := if i > f then i - f else i + |h.ring| - f;
      assert At(f, e, |h.ring|) == i;
    }
  }

  // ---- what the code does to the header fields ----

  /** The upper half of `free`: the block takes over the one that starts where it ends. */
  function JoinUp(ptr: map<nat, nat>, size: map<nat, nat>, p: nat, b: nat): (map<nat, nat>, map<nat, nat>)
    requires p in ptr && b in size && ptr[p] in size && ptr[p] in ptr
  {
    if b + UNIT * size[b] == ptr[p] then (ptr[b := ptr[ptr[p]]], size[b := size[b] + size[ptr[p]]])
    else (ptr[b := ptr[p]], size)
  }

  /** The lower half: the block is taken over by the one that ends where it starts. */
  function JoinDown(ptr: map<nat, nat>, size: map<nat, nat>, p: nat, b: nat): (map<nat, nat>, map<nat, nat>)
    requires p in size && b in size && b in ptr
  {
    if p + UNIT * size[p] == b then (ptr[p := ptr[b]], size[p := size[p] + size[b]])
    else (ptr[p := b], size)
  }

  lemma MergedNextFields(h: H, q: nat, b: nat)
    requires HeapOk(h) && b in h.live && Place(h, q, b)
    ensures var p := h.ring[q]; var g := MergedNext(h, q, b);
      && p in h.ptr && h.ptr[p] in h.size && h.ptr[p] in h.ptr && b in h.size && p in h.size
      && var (ptr1, size1) := JoinUp(h.ptr, h.size, p, b);
      && b in ptr1 && g.ptr == ptr1[p := b] && g.size == size1 && size1[p] == h.size[p]
  {
    hide Tiled, Separated;
    var p := h.ring[q];
    assert Link(h, q) && Link(h, Succ(q, |h.ring|));
    var l := Linked(h, q, b);
    LinkedRing(h, q, b);
    assert l.ring[q + 1] == b && l.ptr == h.ptr[b := h.ptr[p]][p := b];
    if q + 1 < |h.ring| {
      var c := h.ring[q + 1];
      Order(h, q, q + 1);
      assert Link(l, q + 2) && l.ring[q + 2] == c && c != b && c != p;
      if Touching(l, q + 1) {
        assert l.ptr[b := l.ptr[c]] == h.ptr[b := h.ptr[c]][p := b];
      }
    }
  }

  /** Together they are `Freed`. */
  lemma FreedFields(h: H, q: nat, b: nat)
    requires HeapOk(h) && b in h.live && Place(h, q, b)
    ensures var p := h.ring[q];
      && p in h.ptr && h.ptr[p] in h.size && h.ptr[p] in h.ptr && b in h.size && p in h.size
      && var (ptr1, size1) := JoinUp(h.ptr, h.size, p, b);
      && var (ptr2, size2) := JoinDown(ptr1, size1, p, b);
      && Freed(h, q, b).ptr == ptr2 && Freed(h, q, b).size == size2
  {
    var g := MergedNext(h, q, b);
    MergedNextFields(h, q, b);
    MergedNextOk(h, q, b);
    hide MergedNext, HeapOk;
    assert Link(g, q + 1) && Link(g, q);
  }

  // ---- the allocator ----

  /** Units for nbytes of payload, header included. The C expression is computed in 64 bits. */
  function Units(nbytes: nat): nat { (nbytes + UNIT - 1) / UNIT + 1 }

  /** The payload holds the bytes asked for, and less than one unit more. */
  lemma EnoughUnits(nbytes: nat)
    ensures nbytes <= UNIT * (Units(nbytes) - 1) < nbytes + UNIT
  {}

  /** Conversion of a 64-bit byte count to the int that sbrk takes. */
  function AsInt32(x: nat): int { (x + 0x8000_0000) % 0x1_0000_0000 - 0x8000_0000 }

  const MAX_REQUEST := 0x8000_0000 - 32

  /** morecore asks sbrk for the bytes it needs exactly when the request is at most MAX_REQUEST. */
  lemma RequestExact(nbytes: nat)
    requires nbytes < 0x1_0000_0000
    ensures AsInt32(UNIT * Units(nbytes)) == UNIT * Units(nbytes) <==> nbytes <= MAX_REQUEST
  {
  }

  /** A request that makes morecore ask sbrk to shrink the heap. */
  lemma RequestShrinks()
    ensures AsInt32(UNIT * Units(0xFFFF_FFE0)) == -16
  {
  }

  /** If every block that was live still is, with the same size, then a newly live block has none of their bytes. */
  lemma BytesWereFree(h: H, g: H, p: nat, u: nat)
    requires Sizes(h) && Tiled(h) && Sizes(g) && Tiled(g) && p in g.live && p !in h.live && h.live <= g.live
    requires forall c {:trigger c in h.live} :: c in h.live ==> c in g.size && c in h.size && g.size[c] == h.size[c]
    requires p in g.size && p <= u < End(g, p)
    ensures u in g.own && (u !in h.own || h.own[u] !in h.live)
  {
    assert Covers(g, p, u);
    if u in h.own { assert Owned(h, u) && Covers(g, h.own[u], u); }
  }

  /** Bytes lo .. hi-1 are the heap's, and none of them was in a live block. */
  ghost predicate FromFree(own: map<nat, nat>, live: set<nat>, own': map<nat, nat>, lo: nat, hi: nat) {
    forall u: nat {:trigger u in own'} :: lo <= u < hi ==> u in own' && (u !in own || own[u] !in live)
  }

  lemma WereFree(h: H, g: H, p: nat)
    requires HeapOk(h) && HeapOk(g) && p in g.live && p !in h.live && h.live <= g.live
    requires forall c {:trigger c in h.live} :: c in h.live ==> c in g.size && c in h.size && g.size[c] == h.size[c]
    ensures p in g.size && FromFree(h.own, h.live, g.own, p, End(g, p))
  {
    forall u: nat | p <= u < End(g, p) ensures u in g.own && (u !in h.own || h.own[u] !in h.live) {
      BytesWereFree(h, g, p, u);
    }
  }

  lemma NothingWasLive(g: H, p: nat)
    requires HeapOk(g) && p in g.live
    ensures p in g.size && FromFree(map[], {}, g.own, p, End(g, p))
  {
    forall u: nat | p <= u < End(g, p) ensures u in g.own { assert Covers(g, p, u); }
  }

  /** The free list of h has a block of at least n units. */
  ghost predicate HasFit(h: H, n: nat) { Sizes(h) && Fits(h, n) }

  class Allocator {
    var ptr: map<nat, nat>
    var size: map<nat, nat>
    var freep: nat              // 0 before the first call of malloc
    var brk: nat                // the end of what sbrk has given out
    ghost var ring: seq<nat>
    ghost var live: set<nat>
    ghost var own: map<nat, nat>

    ghost function G(): H
      reads this
    {
      H(ptr, size, ring, live, own)
    }

    ghost predicate Ready()
      reads this
    {
      && HeapOk(G()) && freep in ring && freep != 0
      && brk >= BASE + UNIT && forall u: nat {:trigger u in own} :: u in own ==> u < brk
    }

    ghost predicate Valid()
      reads this
    {
      if freep == 0 then live == {} && own == map[] && brk >= BASE + UNIT else Ready()
    }

    /** A program that has just started, with the end of its data at brk: there is no list yet. */
    constructor (brk: nat)
      requires brk >= BASE + UNIT
      ensures Valid() && freep == 0 && this.brk == brk && live == {} && own == map[]
    {
      ptr, size, freep, ring, live, own := map[], map[], 0, [], {}, map[];
      this.brk := brk;
    }

    /** The search loop of `free`: finds the entry after which the block belongs, from wherever freep is. */
    method Search(b: nat) returns (p: nat, ghost q: nat)
      requires Ready() && b in live
      ensures Place(G(), q, b) && p == ring[q]
    {
      ghost var t := PlaceExists(G(), b);
      p := freep;
      q :| 0 <= q < |ring| && ring[q] == p;
      assert Link(G(), q);
      StopsAtPlace(G(), b, q);
      while !Between(p, ptr[p], b) && !AtDescent(p, ptr[p], b)
        invariant 0 <= q < |ring| && ring[q] == p && Link(G(), q)
        invariant Between(p, ptr[p], b) || AtDescent(p, ptr[p], b) <==> Place(G(), q, b)
        decreases if q <= t then t - q else |ring| - q + t
      {
        p := ptr[p];
        q := Succ(q, |ring|);
        assert Link(G(), q);
        StopsAtPlace(G(), b, q);
      }
    }

    /** free: the block leaves the live ones, joins the list after entry q and merges with its neighbours. */
    method Free(ap: nat) returns (ghost q: nat)
      requires Ready() && ap >= UNIT && ap - UNIT in live
      modifies this`ptr, this`size, this`freep, this`ring, this`live, this`own
      ensures Ready() && live == old(live) - {ap - UNIT} && own.Keys == old(own.Keys)
      ensures forall c {:trigger c in live} :: c in live ==> size[c] == old(size[c])
      ensures Place(old(G()), q, ap - UNIT) && G() == Freed(old(G()), q, ap - UNIT)
    {
      hide Freed, Tiled, Ring, Separated, Sizes, Place;
      var b: nat := ap - UNIT;
      var p: nat;
      p, q := Search(b);
      FreedFields(G(), q, b);
      FreedOk(G(), q, b);
      ghost var g := Freed(G(), q, b);
      if b + UNIT * size[b] == ptr[p] {
        size, ptr := size[b := size[b] + size[ptr[p]]], ptr[b := ptr[ptr[p]]];
      } else {
        ptr := ptr[b := ptr[p]];
      }
      if p + UNIT * size[p] == b {
        size, ptr := size[p := size[p] + size[b]], ptr[p := ptr[b]];
      } else {
        ptr := ptr[p := b];
      }
      freep := p;
      ring, live, own := g.ring, g.live, g.own;
    }

    /** One circle of malloc's loop, from the entry after freep to freep itself. */
    method Scan(n: nat) returns (found: bool, prevp: nat, p: nat, ghost i: nat)
      requires Ready() && n > 0
      ensures found ==> 0 < i < |ring| && prevp == ring[i - 1] && p == ring[i] && p in size && p in ptr && size[p] >= n
      ensures found <==> Fits(G(), n)
    {
      ghost var f :| 0 <= f < |ring| && ring[f] == freep;
      ghost var d := 0;
      prevp := freep;
      assert Link(G(), f);
      p := ptr[prevp];
      i := At(f, 1, |ring|);
      while true
        invariant 0 <= d < |ring| && prevp == ring[At(f, d, |ring|)] && i == At(f, d + 1, |ring|) && p == ring[i]
        invariant forall e {:trigger At(f, e, |ring|)} :: 1 <= e <= d ==> size[ring[At(f, e, |ring|)]] < n
        decreases |ring| - d
      {
        assert Link(G(), i);
        if size[p] >= n {
          return true, prevp, p, i;
        }
        d := d + 1;
        if p == freep {
          CircleDone(G(), f, d);
          NoFit(G(), f, n);
          return false, prevp, p, i;
        }
        assert d < |ring|;
        prevp := p;
        p := ptr[p];
        i := At(f, d + 1, |ring|);
      }
    }

    /** malloc on a block of exactly n units. */
    method TakeWhole(n: nat, prevp: nat, p: nat, ghost i: nat)
      requires Ready() && n > 0 && 0 < i < |ring| && prevp == ring[i - 1] && p == ring[i] && p in size && p in ptr &&
               size[p] == n
      modifies this`ptr, this`freep, this`ring, this`live
      ensures Ready() && p !in old(live) && live == old(live) + {p}
      ensures G() == Taken(old(G()), i) && forall c {:trigger c in live} :: c in live ==> c in size
    {
      assert Link(G(), i) && Link(G(), i - 1);
      TakenOk(G(), i);
      ptr := ptr[prevp := ptr[p]];
      ring, live := Removed(ring, i), live + {p};
      assert ring[i - 1] == prevp;
      freep := prevp;
    }

    /** malloc on a larger block: its last n units. */
    method TakeTail(n: nat, prevp: nat, q: nat, ghost i: nat) returns (p: nat)
      requires Ready() && n > 0 && 0 < i < |ring| && prevp == ring[i - 1] && q == ring[i] && q in size && size[q] > n
      modifies this`size, this`freep, this`live, this`own
      ensures Ready() && p !in old(live) && live == old(live) + {p} && p in size && size[p] == n
      ensures G() == Split(old(G()), i, n) && own.Keys == old(own.Keys)
      ensures forall c {:trigger c in old(live)} :: c in old(live) ==> c in size && size[c] == old(size[c])
    {
      hide Tiled;
      SplitOk(G(), i, n);
      SplitFresh(G(), i, n);
      ghost var g := Split(G(), i, n);
      p := q;
      size := size[p := size[p] - n];
      p := p + UNIT * size[p];
      size := size[p := n];
      live, own := g.live, g.own;
      freep := prevp;
    }

    /** The part of malloc that hands out block ring[i], whole or its last n units. */
    method Carve(n: nat, prevp: nat, q: nat, ghost i: nat) returns (p: nat)
      requires Ready() && n > 0 && 0 < i < |ring| && prevp == ring[i - 1] && q == ring[i] && q in size && q in ptr &&
               size[q] >= n
      modifies this`ptr, this`size, this`freep, this`ring, this`live, this`own
      ensures Ready() && p !in old(live) && live == old(live) + {p} && p in size && size[p] == n
      ensures own.Keys == old(own.Keys)
      ensures forall c {:trigger c in old(live)} :: c in old(live) ==> c in size && size[c] == old(size[c])
    {
      hide Tiled, Ring, Separated;
      if size[q] == n {
        p := q;
        TakeWhole(n, prevp, q, i);
      } else {
        p := TakeTail(n, prevp, q, i);
      }
    }

    /** The first call of malloc makes `base` a list of its own. */
    method Init()
      requires Valid() && freep == 0
      modifies this`ptr, this`size, this`freep, this`ring
      ensures Ready() && ring == [BASE] && live == old(live) && own == old(own)
    {
      ptr, size, freep, ring := map[BASE := BASE], map[BASE := 0], BASE, [BASE];
      assert Link(G(), 0);
      assert forall b: nat {:trigger IsBlock(G(), b)} :: !IsBlock(G(), b);
    }

    /** A fresh region becomes a live block of nu units. */
    method Grow(p: nat, nu: nat)
      requires Ready() && nu > 0 && p >= brk
      modifies this`size, this`live, this`own, this`brk
      ensures Ready() && p !in old(live) && live == old(live) + {p} && p in size && size[p] == nu
      ensures ring == old(ring) && own.Keys == old(own.Keys) + Range(p, p + UNIT * nu)
      ensures forall c {:trigger c in old(live)} :: c in old(live) ==> c in size && size[c] == old(size[c])
    {
      GrantedOk(G(), p, nu);
      FreshAddress(G(), p);
      ghost var g := Granted(G(), p, nu);
      brk := p + UNIT * nu;
      size := size[p := nu];
      live, own := g.live, g.own;
    }

    /** morecore: asks for at least NALLOC units and frees them into the list. `allow` says whether sbrk
        grants the request, `gap` how far others have moved the break since. */
    method Morecore(n: nat, allow: bool, gap: nat) returns (ok: bool)
      requires Ready() && 0 < n < 0x800_0000
      modifies this
      ensures ok == allow && Ready() && live == old(live)
      ensures !ok ==> G() == old(G())
      ensures ok ==> HasFit(G(), n)
      ensures ok ==> own.Keys == old(own.Keys) + Range(old(brk) + gap, old(brk) + gap + UNIT * Max(n, NALLOC))
      ensures forall c {:trigger c in live} :: c in live ==> c in size && c in old(size) && size[c] == old(size[c])
    {
      hide Tiled, Separated, Fits;
      var nu := n;
      if nu < NALLOC {
        nu := NALLOC;
      }
      var len := AsInt32(UNIT * nu);
      assert len == UNIT * nu;
      if !allow {
        return false;
      }
      var p: nat := brk + gap;
      Grow(p, nu);
      ghost var h := G();
      ghost var q := Free(p + UNIT);
      FreedFits(h, q, p, n);
      ok := true;
    }

    /** malloc's loop: circles the list, and asks for more core only when no free block is large enough. After
        that a block is, so it asks at most once. */
    method FindBlock(n: nat, allow: bool, gap: nat) returns (ok: bool, prevp: nat, p: nat, ghost i: nat,
        ghost grown: bool)
      requires Ready() && 0 < n < 0x800_0000
      modifies this
      ensures Ready() && live == old(live)
      ensures ok <==> HasFit(old(G()), n) || allow
      ensures grown <==> ok && !HasFit(old(G()), n)
      ensures !grown ==> G() == old(G())
      ensures grown ==> own.Keys == old(own.Keys) + Range(old(brk) + gap, old(brk) + gap + UNIT * Max(n, NALLOC))
      ensures ok ==> 0 < i < |ring| && prevp == ring[i - 1] && p == ring[i] && p in size && p in ptr && size[p] >= n
      ensures forall c {:trigger c in live} :: c in live ==> c in size && c in old(size) && size[c] == old(size[c])
    {
      hide Tiled, Separated, Fits;
      ok, grown, prevp, p, i := false, false, 0, 0, 0;
      while !ok
        invariant Ready() && live == old(live)
        invariant !grown ==> G() == old(G()) && brk == old(brk)
        invariant !grown && ok ==> HasFit(old(G()), n)
        invariant grown ==> allow && !HasFit(old(G()), n) && HasFit(G(), n)
        invariant grown ==> own.Keys == old(own.Keys) + Range(old(brk) + gap, old(brk) + gap + UNIT * Max(n, NALLOC))
        invariant ok ==> 0 < i < |ring| && prevp == ring[i - 1] && p == ring[i] && p in size && p in ptr && size[p] >= n
        invariant forall c {:trigger c in live} :: c in live ==> c in size && c in old(size) && size[c] == old(size[c])
        decreases !ok, !HasFit(G(), n)
      {
        ok, prevp, p, i := Scan(n);
        if !ok {
          var more := Morecore(n, allow, gap);
          if !more {
            return;
          }
          grown := true;
        }
      }
    }

    /** malloc: 0 exactly when no free block is large enough and sbrk refuses. Otherwise a new live block of
        Units(nbytes) units, made of bytes that no live block has; every other live block keeps its bytes, and
        the heap grows by exactly what morecore obtained. */
    method Malloc(nbytes: nat, allow: bool, gap: nat) returns (r: nat)
      requires Valid() && nbytes <= MAX_REQUEST
      modifies this
      ensures r == 0 <==> !(old(freep) != 0 && HasFit(old(G()), Units(nbytes))) && !allow
      ensures Ready() && (r == 0 ==> live == old(live) && own == old(own))
      ensures r != 0 ==> r >= UNIT && r - UNIT !in old(live) && live == old(live) + {r - UNIT}
      ensures r != 0 ==> r - UNIT in size && size[r - UNIT] == Units(nbytes)
      ensures r != 0 && (old(freep) != 0 && HasFit(old(G()), Units(nbytes))) ==> own.Keys == old(own.Keys)
      ensures r != 0 && !(old(freep) != 0 && HasFit(old(G()), Units(nbytes))) ==>
        own.Keys == old(own.Keys) + Range(old(brk) + gap, old(brk) + gap + UNIT * Max(Units(nbytes), NALLOC))
      ensures r != 0 ==> FromFree(old(own), old(live), own, r - UNIT, r - UNIT + UNIT * Units(nbytes))
      ensures r != 0 ==> r + nbytes <= End(G(), r - UNIT) < r + nbytes + UNIT
      ensures r != 0 ==> FromFree(old(own), old(live), own, r, r + nbytes)
      ensures forall c {:trigger c in old(live)} :: c in old(live) ==>
              c in size && c in old(size) && size[c] == old(size[c])
    {
      hide Tiled, Separated, Fits;
      var n := Units(nbytes);
      if freep == 0 {
        Init();
        NoFitInBase(G(), n);
      }
      var ok, prevp, p, i, grown := FindBlock(n, allow, gap);
      if !ok {
        return 0;
      }
      p := Carve(n, prevp, p, i);
      if old(freep) != 0 {
        WereFree(old(G()), G(), p);
      } else {
        NothingWasLive(G(), p);
      }
      r := p + UNIT;
      EnoughUnits(nbytes);
    }
  }

  lemma NoFitInBase(h: H, n: nat)
    requires Sizes(h) && h.ring == [BASE] && n > 0
    ensures !HasFit(h, n)
  {
  }

  function Max(a: nat, b: nat): (m: nat)
    ensures m >= a && m >= b && (m == a || m == b)
  {
    if a < b then b else a
  }

  lemma FreshAddress(h: H, p: nat)
    requires HeapOk(h) && forall u: nat {:trigger u in h.own} :: u in h.own ==> u < p
    ensures p !in h.live
  {
    assert Covers(h, p, p);
  }

  /** A freed block of at least n units leaves a block of at least n units on the list, merged or not. */
  lemma FreedFits(h: H, q: nat, b: nat, n: nat)
    requires HeapOk(h) && b in h.live && Place(h, q, b) && b in h.size && h.size[b] >= n
    ensures HasFit(Freed(h, q, b), n)
  {
    MergedNextOk(h, q, b);
    MergedNextFields(h, q, b);
    FreedOk(h, q, b);
    var g := MergedNext(h, q, b);
    var f := Freed(h, q, b);
    assert g.size[b] >= n;
    assert Link(g, q + 1);
    if Touching(g, q) {
      assert f.ring[q] == g.ring[q];
    } else {
      assert f.ring[q + 1] == b;
    }
  }

  lemma CircleDone(h: H, f: nat, d: nat)
    requires Ring(h) && f < |h.ring| && 1 <= d <= |h.ring| && h.ring[At(f, d, |h.ring|)] == h.ring[f]
    ensures d == |h.ring|
  {
    var i := At(f, d, |h.ring|);
    if i < f { Order(h, i, f); }
    if i > f { Order(h, f, i); }
  }
}
