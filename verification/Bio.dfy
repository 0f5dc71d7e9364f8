/** The buffer cache: NBUF buffers on one circular doubly linked list, recycled when unreferenced.
    A pointer to a buffer is its index in the static array; index NBUF is the list head. */
module Bio {
  import opened Blocks

  const DEV := 1      // ROOTDEV, the one device the kernel attaches
  const HEAD := NBUF

  datatype Buf = Buf(valid: bool, dev: nat, blockno: nat, refcnt: nat, locked: bool, data: Block)

  /** The next and prev pointers of the buffers and of the head. */
  datatype Links = Links(next: seq<nat>, prev: seq<nat>)

  // ---- the circular list ----

  function Succ(i: nat, n: nat): nat { if i + 1 < n then i + 1 else 0 }

  /** ring[i]; named so that distinctness is instantiated only where two positions are compared. */
  function Nth(ring: seq<nat>, i: nat): nat
    requires i < |ring|
  {
    ring[i]
  }

  predicate Distinct(ring: seq<nat>) {
    forall i, j {:trigger Nth(ring, i), Nth(ring, j)} :: 0 <= i < j < |ring| ==> Nth(ring, i) != Nth(ring, j)
  }

  lemma Different(ring: seq<nat>, i: nat, j: nat)
    requires Distinct(ring) && i < |ring| && j < |ring| && i != j
    ensures ring[i] != ring[j]
  {
    assert Nth(ring, i) == ring[i] && Nth(ring, j) == ring[j];
  }

  predicate Sized(l: Links) { |l.next| == |l.prev| == NBUF + 1 }

  predicate InRange(ring: seq<nat>) { forall i {:trigger ring[i]} :: 0 <= i < |ring| ==> ring[i] <= NBUF }

  /** Position i of the ring and the next one point at each other. */
  predicate Link(l: Links, ring: seq<nat>, i: nat)
    requires i < |ring| && Sized(l) && InRange(ring)
  {
    l.next[ring[i]] == ring[Succ(i, |ring|)] && l.prev[ring[Succ(i, |ring|)]] == ring[i]
  }

  /** The nodes of `ring`, in this order, form one cycle that starts at the head and visits each node once. */
  predicate Ring(l: Links, ring: seq<nat>) {
    && Sized(l) && InRange(ring) && ring != [] && ring[0] == HEAD && Distinct(ring)
    && (forall i {:trigger Link(l, ring, i)} :: 0 <= i < |ring| ==> Link(l, ring, i))
  }

  /** The pointer updates that take node b out of the list. */
  function Unlink(l: Links, b: nat): Links
    requires Sized(l) && b <= NBUF && l.next[b] <= NBUF && l.prev[b] <= NBUF
  {
    var prev := l.prev[l.next[b] := l.prev[b]];
    Links(l.next[prev[b] := l.next[b]], prev)
  }

  /** The pointer updates that put node b right after the head. */
  function PushFront(l: Links, b: nat): Links
    requires Sized(l) && b <= NBUF && b != HEAD && l.next[HEAD] <= NBUF
  {
    var next := l.next[b := l.next[HEAD]];
    var prev := l.prev[b := HEAD];
    Links(next[HEAD := b], prev[next[HEAD] := b])
  }

  lemma PushFrontRing(l: Links, ring: seq<nat>, b: nat)
    requires Ring(l, ring) && b < NBUF && b !in ring
    ensures l.next[HEAD] <= NBUF && Ring(PushFront(l, b), [HEAD, b] + ring[1..])
  {
    assert Link(l, ring, 0);
    var l2 := PushFront(l, b);
    var r2 := [HEAD, b] + ring[1..];
    forall i, j | 0 <= i < j < |r2| ensures Nth(r2, i) != Nth(r2, j) {
      if i != 1 && j != 1 { Different(ring, if i == 0 then 0 else i - 1, j - 1); }
    }
    forall j | 0 <= j < |r2| ensures Link(l2, r2, j) {
      if j >= 2 {
        assert Link(l, ring, j - 1);
        Different(ring, j - 1, 0);
        if j + 1 < |r2| { Different(ring, j, 1); }
      }
    }
  }

  /** The list without the node at position p. */
  function Removed(ring: seq<nat>, p: nat): (r: seq<nat>)
    requires p < |ring|
  {
    seq(|ring| - 1, j requires 0 <= j < |ring| - 1 => ring[if j < p then j else j + 1])
  }

  lemma UnlinkLink(l: Links, ring: seq<nat>, p: nat, j: nat)
    requires Ring(l, ring) && 0 < p < |ring| && j < |ring| - 1
    requires l.next[ring[p]] <= NBUF && l.prev[ring[p]] <= NBUF
    ensures Link(Unlink(l, ring[p]), Removed(ring, p), j)
  {
    var i := if j < p then j else j + 1;
    assert Link(l, ring, p) && Link(l, ring, p - 1) && Link(l, ring, i);
    if i != p - 1 {
      Different(ring, i, p - 1);
      Different(ring, Succ(i, |ring|), Succ(p, |ring|));
    }
  }

  lemma UnlinkRing(l: Links, ring: seq<nat>, p: nat)
    requires Ring(l, ring) && 0 < p < |ring|
    ensures l.next[ring[p]] <= NBUF && l.prev[ring[p]] <= NBUF
    ensures Ring(Unlink(l, ring[p]), Removed(ring, p)) && ring[p] !in Removed(ring, p)
  {
    assert Link(l, ring, p) && Link(l, ring, p - 1);
    var r1 := Removed(ring, p);
    forall i, j | 0 <= i < j < |r1| ensures Nth(r1, i) != Nth(r1, j) {
      Different(ring, if i < p then i else i + 1, if j < p then j else j + 1);
    }
    forall j | 0 <= j < |r1| ensures Link(Unlink(l, ring[p]), r1, j) {
      UnlinkLink(l, ring, p, j);
    }
    forall j | 0 <= j < |r1| ensures r1[j] != ring[p] {
      Different(ring, if j < p then j else j + 1, p);
    }
  }

  /** The list with the node at position p put right after the head. */
  function MovedFront(ring: seq<nat>, p: nat): (r: seq<nat>)
    requires 0 < p < |ring|
    ensures |r| == |ring| && r[0] == ring[0] && r[1] == ring[p]
  {
    seq(|ring|, i requires 0 <= i < |ring| =>
      if i == 0 then ring[0] else if i == 1 then ring[p] else if i <= p then ring[i - 1] else ring[i])
  }

  lemma MovedFrontRing(l: Links, ring: seq<nat>, p: nat)
    requires Ring(l, ring) && 0 < p < |ring| && ring[p] < NBUF
    requires l.next[ring[p]] <= NBUF && l.prev[ring[p]] <= NBUF
    ensures Unlink(l, ring[p]).next[HEAD] <= NBUF
    ensures Ring(PushFront(Unlink(l, ring[p]), ring[p]), MovedFront(ring, p))
    ensures forall x {:trigger x in MovedFront(ring, p)} :: x in ring ==> x in MovedFront(ring, p)
  {
    UnlinkRing(l, ring, p);
    var r1 := Removed(ring, p);
    PushFrontRing(Unlink(l, ring[p]), r1, ring[p]);
    var moved := MovedFront(ring, p);
    assert moved == [HEAD, ring[p]] + r1[1..];
    forall x | x in ring ensures x in moved {
      var j :| 0 <= j < |ring| && ring[j] == x;
      assert moved[if j == p then 1 else if 0 < j < p then j + 1 else j] == x;
    }
  }

  // ---- what the cache keeps ----

  /** The cache contents: buffers, which buffer caches a block, users (between bget and brelse) and pins of
      each buffer, and the disk. */
  datatype Core = Core(buf: seq<Buf>, at: map<nat, nat>, users: seq<nat>, pins: seq<nat>, disk: seq<Block>)

  /** At most one buffer holds any block of the device; `at` says which. */
  predicate MapOk(c: Core) {
    && |c.buf| == NBUF
    && (forall k {:trigger c.at[k]} :: k in c.at ==>
          c.at[k] < NBUF && c.buf[c.at[k]].dev == DEV && c.buf[c.at[k]].blockno == k && k < |c.disk|)
    && (forall i {:trigger c.buf[i]} :: 0 <= i < NBUF && c.buf[i].dev == DEV ==>
          c.buf[i].blockno in c.at && c.at[c.buf[i].blockno] == i)
  }

  /** A reference is a user or a pin; only users lock. */
  predicate RefsOk(c: Core) {
    && |c.buf| == |c.users| == |c.pins| == NBUF
    && (forall i {:trigger c.buf[i]} :: 0 <= i < NBUF ==>
          && c.buf[i].refcnt == c.users[i] + c.pins[i] && (c.buf[i].locked ==> c.users[i] > 0)
          && (c.buf[i].valid || c.buf[i].refcnt > 0 ==> c.buf[i].dev == DEV))
  }

  /** What is in a buffer that is neither locked nor pinned is on disk. */
  predicate CleanOk(c: Core)
    requires MapOk(c) && RefsOk(c)
  {
    forall i {:trigger c.buf[i]} :: 0 <= i < NBUF && c.buf[i].valid && !c.buf[i].locked && c.pins[i] == 0 ==>
      c.buf[i].data == c.disk[c.buf[i].blockno]
  }

  predicate CoreOk(c: Core) { MapOk(c) && RefsOk(c) && CleanOk(c) }

  /** The plain block map: the cached copy of a block where there is a valid one, the disk elsewhere. */
  function View(c: Core): (v: seq<Block>)
    requires MapOk(c)
    ensures |v| == |c.disk|
    ensures forall k {:trigger v[k]} :: 0 <= k < |v| ==>
      v[k] == if k in c.at && c.buf[c.at[k]].valid then c.buf[c.at[k]].data else c.disk[k]
  {
    seq(|c.disk|, k requires 0 <= k < |c.disk| => if k in c.at &&
        c.buf[c.at[k]].valid then c.buf[c.at[k]].data else c.disk[k])
  }

  /** The blocks whose buffer is locked by a caller. */
  function Held(c: Core): set<nat>
    requires MapOk(c)
  {
    set k | k in c.at && c.buf[c.at[k]].locked
  }

  /** The blocks whose buffer is pinned. */
  function Pinned(c: Core): set<nat>
    requires MapOk(c) && RefsOk(c)
  {
    set k | k in c.at && c.pins[c.at[k]] > 0
  }

  /** The caller holds buffer b for block k, as bread returned it. */
  predicate Holds(c: Core, b: nat, k: nat) {
    b < |c.buf| == NBUF && c.buf[b].locked && c.buf[b].valid && c.buf[b].blockno == k && c.buf[b].dev == DEV
  }

  /** Every buffer is referenced: bget finds none to recycle. */
  predicate Busy(c: Core) { forall i {:trigger c.buf[i]} :: 0 <= i < |c.buf| ==> c.buf[i].refcnt > 0 }

  /** Nobody waits for a buffer: its users are its holder. */
  predicate Alone(c: Core) {
    |c.users| == |c.buf| && forall i {:trigger c.buf[i]} :: 0 <= i < |c.buf| ==>
      c.users[i] == if c.buf[i].locked then 1 else 0
  }

  /** Readers see the same, and the same blocks are held and pinned. */
  predicate SameFor(c: Core, d: Core)
    requires CoreOk(c) && CoreOk(d)
  {
    View(c) == View(d) && Held(c) == Held(d) && Pinned(c) == Pinned(d)
  }

  // ---- the updates of the cache operations ----

  function TakeRef(c: Core, b: nat): Core
    requires RefsOk(c) && b < NBUF
  {
    c.(buf := c.buf[b := c.buf[b].(refcnt := c.buf[b].refcnt + 1)], users := c.users[b := c.users[b] + 1])
  }

  lemma TakeRefOk(c: Core, b: nat)
    requires CoreOk(c) && b < NBUF && c.buf[b].dev == DEV
    ensures CoreOk(TakeRef(c, b)) && SameFor(TakeRef(c, b), c)
  {
    var d := TakeRef(c, b);
    assert forall i {:trigger d.buf[i]} :: 0 <= i < NBUF ==> d.buf[i].(refcnt := 0) == c.buf[i].(refcnt := 0);
    assert MapOk(d) && RefsOk(d) && CleanOk(d);
    assert View(d) == View(c);
  }

  /** An unreferenced buffer is given to another block. */
  function Reassign(c: Core, b: nat, blockno: nat): Core
    requires |c.buf| == NBUF && b < NBUF
  {
    c.(at := (if c.buf[b].dev == DEV then c.at - {c.buf[b].blockno} else c.at)[blockno := b],
       buf := c.buf[b := c.buf[b].(dev := DEV, blockno := blockno, valid := false)])
  }

  lemma ReassignKeeps(c: Core, b: nat, blockno: nat)
    requires CoreOk(c) && b < NBUF && c.buf[b].refcnt == 0 && blockno < |c.disk| && blockno !in c.at
    ensures CoreOk(Reassign(c, b, blockno))
  {
    var d := Reassign(c, b, blockno);
    assert MapOk(d);
    assert RefsOk(d);
    assert CleanOk(d);
  }

  /** Recycling a buffer loses nothing: the disk has what the buffer held. */
  lemma ReassignOk(c: Core, b: nat, blockno: nat)
    requires CoreOk(c) && b < NBUF && c.buf[b].refcnt == 0 && blockno < |c.disk| && blockno !in c.at
    ensures CoreOk(Reassign(c, b, blockno)) && SameFor(Reassign(c, b, blockno), c)
  {
    ReassignKeeps(c, b, blockno);
    var d := Reassign(c, b, blockno);
    assert View(d) == View(c);
    assert Held(d) == Held(c);
    assert Pinned(d) == Pinned(c);
  }

  /** A buffer just taken has one user and is not locked yet. */
  ghost predicate AloneBut(d: Core, b: nat) {
    && |d.users| == |d.buf| == NBUF && b < NBUF && d.users[b] == 1 && !d.buf[b].locked
    && forall i {:trigger d.buf[i]} :: 0 <= i < NBUF && i != b ==> d.users[i] == if d.buf[i].locked then 1 else 0
  }

  lemma AloneTake(c: Core, b: nat)
    requires Alone(c) && RefsOk(c) && b < NBUF && !c.buf[b].locked
    ensures AloneBut(TakeRef(c, b), b)
  {}

  lemma AloneLock(d: Core, e: Core, b: nat)
    requires AloneBut(d, b) && |e.buf| == NBUF && e.users == d.users && e.buf[b].locked
    requires forall i {:trigger e.buf[i]} :: 0 <= i < NBUF && i != b ==> e.buf[i] == d.buf[i]
    ensures Alone(e)
  {}

  function SetLock(c: Core, b: nat): Core
    requires b < |c.buf|
  {
    c.(buf := c.buf[b := c.buf[b].(locked := true)])
  }

  lemma SetLockOk(c: Core, b: nat)
    requires CoreOk(c) && b < NBUF && c.buf[b].dev == DEV && c.users[b] > 0
    ensures var d := SetLock(c, b);
      CoreOk(d) && View(d) == View(c) && Pinned(d) == Pinned(c) && Held(d) == Held(c) + {c.buf[b].blockno}
  {
    var d := SetLock(c, b);
    assert MapOk(d) && RefsOk(d) && CleanOk(d);
    assert View(d) == View(c);
    assert Held(d) == Held(c) + {c.buf[b].blockno};
    assert Pinned(d) == Pinned(c);
  }

  /** The buffer receives data `x` and is valid. */
  function Fill(c: Core, b: nat, x: Block): Core
    requires b < |c.buf|
  {
    c.(buf := c.buf[b := c.buf[b].(data := x, valid := true)])
  }

  lemma FillOk(c: Core, b: nat, x: Block)
    requires CoreOk(c) && b < NBUF && c.buf[b].dev == DEV && c.buf[b].locked
    ensures var d := Fill(c, b, x); var k := c.buf[b].blockno;
      CoreOk(d) && k < |c.disk| && View(d) == View(c)[k := x] && Pinned(d) == Pinned(c) && Held(d) == Held(c)
  {
    var d := Fill(c, b, x);
    assert MapOk(d) && RefsOk(d) && CleanOk(d);
    assert View(d) == View(c)[c.buf[b].blockno := x];
    assert Held(d) == Held(c);
    assert Pinned(d) == Pinned(c);
  }

  function PutDisk(c: Core, b: nat): Core
    requires b < |c.buf| && c.buf[b].blockno < |c.disk|
  {
    c.(disk := c.disk[c.buf[b].blockno := c.buf[b].data])
  }

  lemma PutDiskOk(c: Core, b: nat)
    requires CoreOk(c) && b < NBUF && Holds(c, b, c.buf[b].blockno)
    ensures c.buf[b].blockno < |c.disk| && CoreOk(PutDisk(c, b)) && SameFor(PutDisk(c, b), c)
  {
    assert c.at[c.buf[b].blockno] == b;
    var d := PutDisk(c, b);
    assert MapOk(d) && RefsOk(d) && CleanOk(d);
    assert View(d) == View(c);
  }

  /** One more or one fewer pin. */
  function Pin(c: Core, b: nat): Core
    requires RefsOk(c) && b < NBUF
  {
    c.(buf := c.buf[b := c.buf[b].(refcnt := c.buf[b].refcnt + 1)], pins := c.pins[b := c.pins[b] + 1])
  }

  lemma PinOk(c: Core, b: nat)
    requires CoreOk(c) && b < NBUF && c.buf[b].dev == DEV
    ensures var d := Pin(c, b);
      CoreOk(d) && View(d) == View(c) && Held(d) == Held(c) && Pinned(d) == Pinned(c) + {c.buf[b].blockno}
  {
    var d := Pin(c, b);
    assert MapOk(d) && RefsOk(d) && CleanOk(d);
    assert View(d) == View(c);
    assert Held(d) == Held(c);
    assert Pinned(d) == Pinned(c) + {c.buf[b].blockno};
  }

  function Unpin(c: Core, b: nat): Core
    requires RefsOk(c) && b < NBUF && c.pins[b] > 0
  {
    c.(buf := c.buf[b := c.buf[b].(refcnt := c.buf[b].refcnt - 1)], pins := c.pins[b := c.pins[b] - 1])
  }

  lemma UnpinOk(c: Core, b: nat)
    requires CoreOk(c) && b < NBUF && c.pins[b] > 0 && c.buf[b].blockno < |c.disk|
    requires c.pins[b] > 1 || c.buf[b].locked || View(c)[c.buf[b].blockno] == c.disk[c.buf[b].blockno]
    ensures var d := Unpin(c, b);
      && CoreOk(d) && View(d) == View(c) && Held(d) == Held(c)
      && Pinned(d) == if c.pins[b] > 1 then Pinned(c) else Pinned(c) - {c.buf[b].blockno}
  {
    var d := Unpin(c, b);
    assert c.at[c.buf[b].blockno] == b;
    assert MapOk(d) && RefsOk(d) && CleanOk(d);
    assert View(d) == View(c);
    assert Held(d) == Held(c);
    assert Pinned(d) == if c.pins[b] > 1 then Pinned(c) else Pinned(c) - {c.buf[b].blockno};
  }

  /** Unlocks the buffer and drops the reference. */
  function DropRef(c: Core, b: nat): Core
    requires RefsOk(c) && b < NBUF && c.users[b] > 0
  {
    c.(buf := c.buf[b := c.buf[b].(locked := false, refcnt := c.buf[b].refcnt - 1)],
        users := c.users[b := c.users[b] - 1])
  }

  lemma DropRefOk(c: Core, b: nat)
    requires CoreOk(c) && b < NBUF && Holds(c, b, c.buf[b].blockno) && c.buf[b].blockno < |c.disk|
    requires c.buf[b].blockno in Pinned(c) || View(c)[c.buf[b].blockno] == c.disk[c.buf[b].blockno]
    ensures c.users[b] > 0
    ensures var d := DropRef(c, b);
      CoreOk(d) && View(d) == View(c) && Pinned(d) == Pinned(c) && Held(d) == Held(c) - {c.buf[b].blockno}
  {
    assert c.at[c.buf[b].blockno] == b && c.users[b] > 0;
    var d := DropRef(c, b);
    assert MapOk(d) && RefsOk(d) && CleanOk(d);
    assert View(d) == View(c);
    assert Held(d) == Held(c) - {c.buf[b].blockno};
    assert Pinned(d) == Pinned(c);
  }

  class Bcache {
    var buf: seq<Buf>
    var links: Links
    var disk: seq<Block>

    ghost var ring: seq<nat>       // the head, then the buffers in list order
    ghost var at: map<nat, nat>    // which buffer caches a block
    ghost var users: seq<nat>      // callers between bget and brelse, per buffer
    ghost var pins: seq<nat>       // calls of bpin not undone by bupin, per buffer
    ghost var trace: seq<Write>    // every write that reached the disk

    ghost function C(): Core
      reads this`buf, this`at, this`users, this`pins, this`disk
    {
      Core(buf, at, users, pins, disk)
    }

    /** The list is one cycle through the head and every buffer. */
    ghost predicate ListOk()
      reads this`links, this`ring
    {
      Ring(links, ring) && |ring| == NBUF + 1 && forall i {:trigger i in ring} :: 0 <= i <= NBUF ==> i in ring
    }

    ghost predicate Valid()
      reads this`links, this`ring, this`buf, this`at, this`users, this`pins, this`disk
    {
      ListOk() && CoreOk(C())
    }

    /** `init`: each buffer in turn is put right after the head; nothing is cached yet. */
    constructor (image: seq<Block>)
      ensures Valid() && disk == image && View(C()) == image && Held(C()) == {} && Pinned(C()) == {} && trace == []
      ensures Alone(C())
    {
      buf := seq(NBUF, _ => Buf(false, 0, 0, 0, false, Block([])));
      users, pins, at, disk, trace := seq(NBUF, _ => 0), seq(NBUF, _ => 0), map[], image, [];
      links := Links(seq(NBUF + 1, _ => HEAD), seq(NBUF + 1, _ => HEAD));
      ring := [HEAD];
      new;
      assert Link(links, ring, 0);
      ghost var c := C();
      var i := 0;
      while i < NBUF
        invariant 0 <= i <= NBUF && Ring(links, ring) && |ring| == i + 1
        invariant forall j {:trigger ring[j]} :: 1 <= j <= i ==> ring[j] == i - j
        invariant C() == c && trace == []
      {
        PushFrontRing(links, ring, i);
        links := PushFront(links, i);
        ring := [HEAD, i] + ring[1..];
        i := i + 1;
      }
      forall j | 0 <= j <= NBUF ensures j in ring {
        assert ring[if j == NBUF then 0 else NBUF - j] == j;
      }
    }

    /** bget's first loop: the buffer of a cached block, or the head if there is none. */
    method Find(blockno: nat) returns (r: nat)
      requires Valid()
      ensures r <= NBUF
      ensures r < NBUF <==> blockno in at
      ensures r < NBUF ==> r == at[blockno]
    {
      assert Link(links, ring, 0);
      r := links.next[HEAD];
      ghost var i := 1;
      ghost var w := 0;
      if blockno in at {
        assert at[blockno] in ring;
        w :| 0 <= w < |ring| && ring[w] == at[blockno];
      }
      while r != HEAD
        invariant 1 <= i <= |ring| && r == (if i < |ring| then ring[i] else HEAD)
        invariant blockno in at ==> i <= w < |ring| && ring[w] == at[blockno]
        decreases |ring| - i
      {
        if buf[r].dev == DEV && buf[r].blockno == blockno {
          return;
        }
        assert Link(links, ring, i);
        r := links.next[r];
        i := i + 1;
      }
      if i < |ring| { Different(ring, i, 0); }
    }

    /** bget's second loop: the unreferenced buffer nearest the head, which is the one released last. */
    method FirstFree() returns (r: nat, ghost i: nat)
      requires Valid()
      ensures 1 <= i <= |ring| && r == (if i < |ring| then ring[i] else HEAD)
      ensures i < |ring| ==> r < NBUF && buf[r].refcnt == 0
      ensures forall j {:trigger ring[j]} :: 1 <= j < i ==> ring[j] < NBUF && buf[ring[j]].refcnt > 0
    {
      assert Link(links, ring, 0);
      r := links.next[HEAD];
      i := 1;
      while r != HEAD
        invariant 1 <= i <= |ring| && r == (if i < |ring| then ring[i] else HEAD)
        invariant forall j {:trigger ring[j]} :: 1 <= j < i ==> ring[j] < NBUF && buf[ring[j]].refcnt > 0
        decreases |ring| - i
      {
        if buf[r].refcnt == 0 {
          return;
        }
        assert Link(links, ring, i);
        r := links.next[r];
        i := i + 1;
      }
      if i < |ring| { Different(ring, i, 0); }
    }

    /** bget on a cached block: one more reference. */
    method Take(r: nat)
      requires Valid() && r < NBUF && buf[r].dev == DEV
      modifies this`buf, this`users
      ensures Valid() && SameFor(C(), old(C())) && C() == TakeRef(old(C()), r)
      ensures old(Alone(C())) && !old(buf[r].locked) ==> AloneBut(C(), r)
    {
      hide MapOk, CleanOk, View, Held, Pinned, Ring, Alone, AloneBut;
      if Alone(C()) && !buf[r].locked { AloneTake(C(), r); }
      TakeRefOk(C(), r);
      buf := buf[r := buf[r].(refcnt := buf[r].refcnt + 1)];
      users := users[r := users[r] + 1];
    }

    /** bget on an uncached block: an unreferenced buffer changes its block. */
    method Recycle(r: nat, blockno: nat)
      requires Valid() && r < NBUF && buf[r].refcnt == 0 && blockno < |disk| && blockno !in at
      modifies this`at, this`buf
      ensures Valid() && SameFor(C(), old(C())) && C() == Reassign(old(C()), r, blockno)
      ensures old(Alone(C())) ==> Alone(C())
    {
      ReassignOk(C(), r, blockno);
      at := (if buf[r].dev == DEV then at - {buf[r].blockno} else at)[blockno := r];
      buf := buf[r := buf[r].(dev := DEV, blockno := blockno, valid := false)];
    }

    /** bget's critical section: takes a reference to the buffer of a block. If the block is not cached it
        recycles the first unreferenced buffer on the list, and panics exactly when there is none. */
    method Bget(blockno: nat) returns (ok: bool, r: nat)
      requires Valid() && blockno < |disk|
      modifies this`at, this`buf, this`users
      ensures Valid() && SameFor(C(), old(C()))
      ensures ok <==> old(blockno in at || exists i {:trigger buf[i]} :: 0 <= i < NBUF && buf[i].refcnt == 0)
      ensures ok ==> r < NBUF && blockno in at && at[blockno] == r
      ensures ok ==> buf[r].dev == DEV && buf[r].blockno == blockno && users[r] > 0
      ensures ok ==> buf[r].locked == old(buf[r].locked)
      ensures ok ==> (buf[r].locked <==> blockno in Held(old(C())))
      ensures ok ==> forall i {:trigger buf[i]} :: 0 <= i < NBUF && i != r ==> buf[i] == old(buf[i])
      ensures ok && old(blockno in at) ==> C() == TakeRef(old(C()), r)
      ensures ok && old(blockno !in at) ==> old(buf[r].refcnt) == 0 && C() == TakeRef(Reassign(old(C()), r, blockno), r)
      ensures !ok ==> C() == old(C())
      ensures ok && old(Alone(C())) && !buf[r].locked ==> AloneBut(C(), r)
    {
      hide Alone, AloneBut;
      r := Find(blockno);
      if r != HEAD {
        Take(r);
        return true, r;
      }
      ghost var i;
      r, i := FirstFree();
      if r == HEAD {
        AllReferenced(ring, i, buf);
        return false, r;
      }
      Recycle(r, blockno);
      Take(r);
      ok := true;
    }

    /** The buffer's sleep lock, once it is free. */
    method Lock(b: nat)
      requires Valid() && b < NBUF && buf[b].dev == DEV && users[b] > 0 && !buf[b].locked
      modifies this`buf
      ensures Valid() && C() == SetLock(old(C()), b)
      ensures View(C()) == View(old(C())) && Pinned(C()) == Pinned(old(C()))
      ensures Held(C()) == Held(old(C())) + {old(buf[b].blockno)}
    {
      SetLockOk(C(), b);
      buf := buf[b := buf[b].(locked := true)];
    }

    /** Reads the block into its buffer. */
    method ReadIn(b: nat)
      requires Valid() && b < NBUF && buf[b].dev == DEV && buf[b].locked && !buf[b].valid
      modifies this`buf
      ensures Valid() && SameFor(C(), old(C())) && buf[b].valid
      ensures forall i {:trigger buf[i]} :: 0 <= i < NBUF && i != b ==> buf[i] == old(buf[i])
      ensures buf[b].(data := old(buf[b].data), valid := false) == old(buf[b])
    {
      assert at[buf[b].blockno] == b;
      FillOk(C(), b, disk[buf[b].blockno]);
      buf := buf[b := buf[b].(data := disk[buf[b].blockno], valid := true)];
    }

    /** bread: the locked buffer of a block, holding what the plain block map says. */
    method Bread(blockno: nat) returns (ok: bool, r: nat)
      requires Valid() && blockno < |disk| && blockno !in Held(C())
      modifies this`at, this`buf, this`users
      ensures Valid() && View(C()) == View(old(C())) && Pinned(C()) == Pinned(old(C()))
      ensures ok <==> old(blockno in at || exists i {:trigger buf[i]} :: 0 <= i < NBUF && buf[i].refcnt == 0)
      ensures Held(C()) == if ok then Held(old(C())) + {blockno} else Held(old(C()))
      ensures ok ==> r < NBUF && Holds(C(), r, blockno) && buf[r].data == View(C())[blockno]
      ensures ok ==> forall i {:trigger buf[i]} :: 0 <= i < NBUF && old(buf[i].locked) ==>
              i != r && buf[i] == old(buf[i])
      ensures !ok ==> C() == old(C()) && Busy(C())
      ensures old(Alone(C())) ==> Alone(C())
    {
      hide Ring, CleanOk, RefsOk, TakeRef, Reassign;
      ghost var c := C();
      ok, r := Bget(blockno);
      if ok {
        ghost var d := C();
        LockIn(r);
        if Alone(c) { AloneLock(d, C(), r); }
      }
    }

    /** bread after bget: locks the buffer and fills it if it is not valid. */
    method LockIn(b: nat)
      requires Valid() && b < NBUF && buf[b].dev == DEV && users[b] > 0 && !buf[b].locked
      modifies this`buf
      ensures Valid() && View(C()) == View(old(C())) && Pinned(C()) == Pinned(old(C()))
      ensures Held(C()) == Held(old(C())) + {old(buf[b].blockno)}
      ensures Holds(C(), b, old(buf[b].blockno)) && buf[b].blockno < |disk| && buf[b].data == View(C())[buf[b].blockno]
      ensures forall i {:trigger buf[i]} :: 0 <= i < NBUF && i != b ==> buf[i] == old(buf[i])
    {
      Lock(b);
      if !buf[b].valid {
        ReadIn(b);
      }
      assert at[buf[b].blockno] == b;
    }

    /** The holder of a buffer changes its contents; the disk does not see it yet. */
    method Modify(b: nat, x: Block)
      requires Valid() && b < NBUF && Holds(C(), b, buf[b].blockno)
      modifies this`buf
      ensures Valid() && buf == old(buf)[b := old(buf)[b].(data := x)] && buf[b].blockno < |disk|
      ensures View(C()) == View(old(C()))[buf[b].blockno := x]
      ensures Pinned(C()) == Pinned(old(C())) && Held(C()) == Held(old(C()))
    {
      FillOk(C(), b, x);
      buf := buf[b := buf[b].(data := x)];
      assert C() == Fill(old(C()), b, x);
    }

    /** bwrite: the block on disk becomes the buffer's contents. */
    method Bwrite(b: nat)
      requires Valid() && b < NBUF && Holds(C(), b, buf[b].blockno)
      modifies this`disk, this`trace
      ensures Valid() && SameFor(C(), old(C())) && buf[b].blockno < |disk|
      ensures disk == old(disk)[buf[b].blockno := buf[b].data] && disk[buf[b].blockno] == View(C())[buf[b].blockno]
      ensures trace == old(trace) + [Write(buf[b].blockno, buf[b].data)]
    {
      PutDiskOk(C(), b);
      assert at[buf[b].blockno] == b;
      trace := trace + [Write(buf[b].blockno, buf[b].data)];
      disk := disk[buf[b].blockno := buf[b].data];
    }

    method Bpin(b: nat)
      requires Valid() && b < NBUF && Holds(C(), b, buf[b].blockno)
      modifies this`buf, this`pins
      ensures Valid() && C() == Pin(old(C()), b)
      ensures View(C()) == View(old(C())) && Held(C()) == Held(old(C()))
      ensures Pinned(C()) == Pinned(old(C())) + {buf[b].blockno}
    {
      PinOk(C(), b);
      buf := buf[b := buf[b].(refcnt := buf[b].refcnt + 1)];
      pins := pins[b := pins[b] + 1];
    }

    /** bupin: the last pin may only go once the block is on disk, or while somebody holds it. */
    method Bupin(b: nat)
      requires Valid() && b < NBUF && pins[b] > 0 && buf[b].blockno < |disk|
      requires pins[b] > 1 || buf[b].locked || View(C())[buf[b].blockno] == disk[buf[b].blockno]
      modifies this`buf, this`pins
      ensures Valid() && C() == Unpin(old(C()), b)
      ensures View(C()) == View(old(C())) && Held(C()) == Held(old(C()))
      ensures Pinned(C()) == if pins[b] > 0 then Pinned(old(C())) else Pinned(old(C())) - {buf[b].blockno}
    {
      hide MapOk, CleanOk, View, Held, Pinned, Ring;
      UnpinOk(C(), b);
      assert buf[b].refcnt == users[b] + pins[b];
      buf := buf[b := buf[b].(refcnt := buf[b].refcnt - 1)];
      pins := pins[b := pins[b] - 1];
    }

    /** The part of brelse that drops the lock and the reference. */
    method Drop(b: nat)
      requires Valid() && b < NBUF && Holds(C(), b, buf[b].blockno) && buf[b].blockno < |disk|
      requires buf[b].blockno in Pinned(C()) || View(C())[buf[b].blockno] == disk[buf[b].blockno]
      modifies this`buf, this`users
      ensures Valid() && View(C()) == View(old(C())) && Pinned(C()) == Pinned(old(C()))
      ensures Held(C()) == Held(old(C())) - {old(buf[b].blockno)}
      ensures old(users[b]) > 0 && C() == DropRef(old(C()), b)
    {
      hide MapOk, CleanOk, View, Held, Pinned, Ring;
      DropRefOk(C(), b);
      assert buf[b].refcnt == users[b] + pins[b];
      buf := buf[b := buf[b].(locked := false, refcnt := buf[b].refcnt - 1)];
      users := users[b := users[b] - 1];
    }

    /** The part of brelse that moves an unreferenced buffer right after the head. */
    method MoveToFront(b: nat, ghost p: nat)
      requires ListOk() && b < NBUF && 0 < p < |ring| && ring[p] == b
      modifies this`links, this`ring
      ensures ListOk() && ring == MovedFront(old(ring), p)
    {
      UnlinkRing(links, ring, p);
      MovedFrontRing(links, ring, p);
      links := Unlink(links, b);
      links := PushFront(links, b);
      ring := MovedFront(ring, p);
    }

    /** brelse: drops the lock and the reference; a buffer whose last reference goes is moved right after the
        list head. A changed buffer must have been written or pinned before. */
    method Brelse(b: nat)
      requires Valid() && b < NBUF && Holds(C(), b, buf[b].blockno) && buf[b].blockno < |disk|
      requires buf[b].blockno in Pinned(C()) || View(C())[buf[b].blockno] == disk[buf[b].blockno]
      modifies this`buf, this`users, this`links, this`ring
      ensures Valid() && View(C()) == View(old(C())) && Pinned(C()) == Pinned(old(C()))
      ensures Held(C()) == Held(old(C())) - {old(buf[b].blockno)}
      ensures old(users[b]) > 0 && C() == DropRef(old(C()), b) && (old(Alone(C())) ==> Alone(C()))
      ensures buf[b].refcnt > 0 ==> ring == old(ring)
      ensures buf[b].refcnt == 0 ==>
        exists p :: 0 < p < |old(ring)| && old(ring)[p] == b && ring == MovedFront(old(ring), p)
    {
      Drop(b);
      if buf[b].refcnt == 0 {
        assert b in ring;
        ghost var p :| 0 <= p < |ring| && ring[p] == b;
        MoveToFront(b, p);
      }
    }
  }

  lemma AllReferenced(ring: seq<nat>, i: nat, buf: seq<Buf>)
    requires |buf| == NBUF && |ring| == NBUF + 1 && 1 <= i <= |ring| && InRange(ring) && Distinct(ring) &&
             ring[0] == HEAD
    requires i < |ring| ==> ring[i] == HEAD
    requires forall j {:trigger ring[j]} :: 1 <= j < i ==> ring[j] < NBUF && buf[ring[j]].refcnt > 0
    requires forall i {:trigger i in ring} :: 0 <= i <= NBUF ==> i in ring
    ensures forall k {:trigger buf[k]} :: 0 <= k < NBUF ==> buf[k].refcnt > 0
  {
    if i < |ring| { Different(ring, i, 0); }
    forall k | 0 <= k < NBUF ensures buf[k].refcnt > 0 {
      assert k in ring;
    }
  }
}
