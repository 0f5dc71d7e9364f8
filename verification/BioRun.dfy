/** Runs of the block cache: any interleaving of the steps of any number of callers. */
module BioRun {

  import opened Blocks
  import opened Bio

  /** bget finds the block, or recycles a buffer for it; bread locks and fills the buffer; the holder changes it, writes
      it, pins or unpins it; brelse unlocks it and then drops the reference. */
  datatype Event =
    | Hit(b: nat) | Miss(b: nat, blockno: nat) | Lock(b: nat) | ReadIn(b: nat)
    | Modify(b: nat, x: Block) | WriteBack(b: nat) | PinIt(b: nat) | UnpinIt(b: nat)
    | Unlock(b: nat) | Leave(b: nat)

  /** What the code and its callers may do: a buffer is released, or unpinned for good, only if it is pinned or still
      held, or its contents are on disk. */
  predicate Can(c: Core, e: Event)
    requires CoreOk(c)
  {
    && e.b < NBUF
    && match e
       case Hit(b) => c.buf[b].dev == DEV
       case Miss(b, blockno) => c.buf[b].refcnt == 0 && blockno < |c.disk| && blockno !in c.at
       case Lock(b) => c.buf[b].dev == DEV && c.users[b] > 0 && !c.buf[b].locked
       case ReadIn(b) => c.buf[b].dev == DEV && c.buf[b].locked && !c.buf[b].valid && c.buf[b].blockno < |c.disk|
       case Modify(b, _) => Holds(c, b, c.buf[b].blockno)
       case WriteBack(b) => Holds(c, b, c.buf[b].blockno) && c.buf[b].blockno < |c.disk|
       case PinIt(b) => Holds(c, b, c.buf[b].blockno)
       case UnpinIt(b) =>
         && c.pins[b] > 0 && c.buf[b].blockno < |c.disk|
         && (c.pins[b] > 1 || c.buf[b].locked || View(c)[c.buf[b].blockno] == c.disk[c.buf[b].blockno])
       case Unlock(b) =>
         && Holds(c, b, c.buf[b].blockno) && c.buf[b].blockno < |c.disk|
         && (c.buf[b].blockno in Pinned(c) || View(c)[c.buf[b].blockno] == c.disk[c.buf[b].blockno])
       case Leave(b) => c.users[b] > if c.buf[b].locked then 1 else 0
  }

  /** The two halves of brelse. */
  function Unlocked(c: Core, b: nat): Core
    requires b < |c.buf|
  {
    c.(buf := c.buf[b := c.buf[b].(locked := false)])
  }

  function Left(c: Core, b: nat): Core
    requires RefsOk(c) && b < NBUF && c.users[b] > 0
  {
    c.(buf := c.buf[b := c.buf[b].(refcnt := c.buf[b].refcnt - 1)], users := c.users[b := c.users[b] - 1])
  }

  lemma UnlockedOk(c: Core, b: nat)
    requires CoreOk(c) && b < NBUF && Holds(c, b, c.buf[b].blockno) && c.buf[b].blockno < |c.disk|
    requires c.buf[b].blockno in Pinned(c) || View(c)[c.buf[b].blockno] == c.disk[c.buf[b].blockno]
    ensures CoreOk(Unlocked(c, b)) && View(Unlocked(c, b)) == View(c)
  {
    assert c.at[c.buf[b].blockno] == b;
    var d := Unlocked(c, b);
    assert MapOk(d) && RefsOk(d) && CleanOk(d);
    assert View(d) == View(c);
  }

  lemma LeftOk(c: Core, b: nat)
    requires CoreOk(c) && b < NBUF && c.users[b] > if c.buf[b].locked then 1 else 0
    ensures CoreOk(Left(c, b)) && View(Left(c, b)) == View(c)
  {
    var d := Left(c, b);
    assert MapOk(d) && RefsOk(d) && CleanOk(d);
    assert View(d) == View(c);
  }

  /** Done at once, they are what brelse does. */
  lemma ReleaseIs(c: Core, b: nat)
    requires CoreOk(c) && b < NBUF && c.users[b] > 0
    ensures RefsOk(Unlocked(c, b)) && Left(Unlocked(c, b), b) == DropRef(c, b)
  {}

  function Do(c: Core, e: Event): Core
    requires CoreOk(c) && Can(c, e)
  {
    match e
    case Hit(b) => TakeRef(c, b)
    case Miss(b, blockno) => ReassignKeeps(c, b, blockno); TakeRef(Reassign(c, b, blockno), b)
    case Lock(b) => SetLock(c, b)
    case ReadIn(b) => Fill(c, b, c.disk[c.buf[b].blockno])
    case Modify(b, x) => Fill(c, b, x)
    case WriteBack(b) => PutDisk(c, b)
    case PinIt(b) => Pin(c, b)
    case UnpinIt(b) => Unpin(c, b)
    case Unlock(b) => Unlocked(c, b)
    case Leave(b) => Left(c, b)
  }

  /** On a plain block map only Modify does anything. */
  function Plain(c: Core, e: Event, v: seq<Block>): seq<Block>
    requires CoreOk(c) && Can(c, e)
  {
    if e.Modify? && c.buf[e.b].blockno < |v| then v[c.buf[e.b].blockno := e.x] else v
  }

  lemma MissOk(c: Core, b: nat, blockno: nat)
    requires CoreOk(c) && Can(c, Miss(b, blockno)) && RefsOk(Reassign(c, b, blockno))
    ensures CoreOk(TakeRef(Reassign(c, b, blockno), b)) && View(TakeRef(Reassign(c, b, blockno), b)) == View(c)
  {
    hide CleanOk, TakeRef, Reassign;
    ReassignOk(c, b, blockno);
    MissedDev(c, b, blockno);
    TakeRefOk(Reassign(c, b, blockno), b);
  }

  lemma DoOk(c: Core, e: Event)
    requires CoreOk(c) && Can(c, e)
    ensures CoreOk(Do(c, e)) && View(Do(c, e)) == Plain(c, e, View(c))
  {
    hide CleanOk, MapOk, TakeRef, Reassign, SetLock, Fill, Pin, Unpin, Unlocked, Left, PutDisk;
    match e {
      case Hit(b) => TakeRefOk(c, b);
      case Miss(b, blockno) =>
        ReassignKeeps(c, b, blockno);
        MissOk(c, b, blockno);
      case Lock(b) => SetLockOk(c, b);
      case ReadIn(b) =>
        FillOk(c, b, c.disk[c.buf[b].blockno]);
        UncachedView(c, b);
      case Modify(b, x) => FillOk(c, b, x);
      case WriteBack(b) => PutDiskOk(c, b);
      case PinIt(b) => PinOk(c, b);
      case UnpinIt(b) => UnpinOk(c, b);
      case Unlock(b) => UnlockedOk(c, b);
      case Leave(b) => LeftOk(c, b);
    }
  }

  lemma MissedDev(c: Core, b: nat, blockno: nat)
    requires |c.buf| == NBUF && b < NBUF
    ensures Reassign(c, b, blockno).buf[b].dev == DEV
  {}

  /** Where the buffer of a block is not valid, the block map has what is on disk. */
  lemma UncachedView(c: Core, b: nat)
    requires CoreOk(c) && b < NBUF && c.buf[b].dev == DEV && !c.buf[b].valid
    ensures var k := c.buf[b].blockno; k < |c.disk| && View(c)[k := c.disk[k]] == View(c)
  {
    var k := c.buf[b].blockno;
    assert c.at[k] == b;
    assert View(c)[k] == c.disk[k];
  }

  /** v becomes w by the changes made in a run. */
  ghost predicate Runs(c: Core, v: seq<Block>, es: seq<Event>, d: Core, w: seq<Block>)
    decreases |es|
  {
    if es == [] then d == c && w == v
    else CoreOk(c) && Can(c, es[0]) && Runs(Do(c, es[0]), Plain(c, es[0], v), es[1..], d, w)
  }

  /** The cache refines a plain block map: after any run, what it shows is the map that only the changes to buffers
      have touched, so no recycling has lost a change; and whoever holds a buffer sees its block in that map. */
  lemma {:induction false} CacheRefinesMap(c: Core, es: seq<Event>, d: Core, w: seq<Block>)
    requires CoreOk(c) && Runs(c, View(c), es, d, w)
    ensures CoreOk(d) && View(d) == w
    ensures forall b {:trigger d.buf[b]} :: 0 <= b < NBUF && Holds(d, b, d.buf[b].blockno) ==>
              d.buf[b].blockno < |w| && d.buf[b].data == w[d.buf[b].blockno]
    decreases |es|
  {
    if es == [] {
      forall b | 0 <= b < NBUF && Holds(d, b, d.buf[b].blockno)
        ensures d.buf[b].blockno < |w| && d.buf[b].data == w[d.buf[b].blockno] {
        assert d.at[d.buf[b].blockno] == b;
      }
    } else {
      DoOk(c, es[0]);
      CacheRefinesMap(Do(c, es[0]), es[1..], d, w);
    }
  }

  /** What a step adds to the callers that have a reference to buffer b. */
  function Refs(e: Event, b: nat): int {
    if e.b != b then 0 else if e.Hit? || e.Miss? then 1 else if e.Leave? then -1 else 0
  }

  /** What it adds to the pins. */
  function Pins(e: Event, b: nat): int {
    if e.b != b then 0 else if e.PinIt? then 1 else if e.UnpinIt? then -1 else 0
  }

  function Total(es: seq<Event>, count: Event -> int): int {
    if es == [] then 0 else count(es[0]) + Total(es[1..], count)
  }

  lemma DoCounts(c: Core, e: Event, b: nat)
    requires CoreOk(c) && Can(c, e) && b < NBUF
    ensures |Do(c, e).users| == |Do(c, e).pins| == NBUF
    ensures Do(c, e).users[b] == c.users[b] + Refs(e, b) && Do(c, e).pins[b] == c.pins[b] + Pins(e, b)
  {}

  /** In every run, refcnt counts the references taken and not given back and the pins not undone. */
  lemma {:induction false} RefsCounted(c: Core, v: seq<Block>, es: seq<Event>, d: Core, w: seq<Block>, b: nat)
    requires CoreOk(c) && Runs(c, v, es, d, w) && b < NBUF
    ensures CoreOk(d)
    ensures d.users[b] == c.users[b] + Total(es, e => Refs(e, b))
    ensures d.pins[b] == c.pins[b] + Total(es, e => Pins(e, b))
    ensures d.buf[b].refcnt == c.buf[b].refcnt + Total(es, e => Refs(e, b)) + Total(es, e => Pins(e, b))
    decreases |es|
  {
    hide Can, Do, View, MapOk, CleanOk;
    if es != [] {
      DoOk(c, es[0]);
      DoCounts(c, es[0], b);
      RefsCounted(Do(c, es[0]), Plain(c, es[0], v), es[1..], d, w, b);
    }
  }
}
