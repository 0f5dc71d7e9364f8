/** The log on a cache whose pins are never undone: how many blocks it can commit. */
module LogWear {

  import opened Blocks
  import opened Crash
  import opened Bio
  import opened BioPins
  import opened Log
  import LogRun

  /** Different blocks of the disk, none of them in the log. */
  predicate DataBlocks(ks: seq<nat>, a: Area, nblocks: nat) {
    && (forall i {:trigger ks[i]} :: 0 <= i < |ks| ==> ks[i] < nblocks && !InLog(a, ks[i]))
    && Different(ks)
  }

  function Firsts(ks: seq<nat>, n: nat): set<nat>
    requires n <= |ks|
  {
    if n == 0 then {} else Firsts(ks, n - 1) + {ks[n - 1]}
  }

  lemma {:induction false} FirstsAt(ks: seq<nat>, n: nat, k: nat) returns (i: nat)
    requires n <= |ks| && k in Firsts(ks, n)
    ensures i < n && ks[i] == k
    decreases n
  {
    if k == ks[n - 1] { i := n - 1; } else { i := FirstsAt(ks, n - 1, k); }
  }

  predicate Different(ks: seq<nat>) { forall i, j {:trigger ks[i], ks[j]} :: 0 <= i < j < |ks| ==> ks[i] != ks[j] }

  lemma {:induction false} AsManyBlocks(ks: seq<nat>, n: nat)
    requires n <= |ks| && Different(ks)
    ensures |Firsts(ks, n)| == n
    decreases n
  {
    if n > 0 {
      AsManyBlocks(ks, n - 1);
      if ks[n - 1] in Firsts(ks, n - 1) { var i := FirstsAt(ks, n - 1, ks[n - 1]); }
    }
  }

  /** Each buffer that is referenced is held or pinned if nobody waits: together these are NBUF blocks at least. */
  lemma BusyMeans(c: Core)
    requires CoreOk(c) && Busy(c) && Alone(c)
    ensures |Held(c)| + |Pinned(c)| >= NBUF
  {
    hide CleanOk, View;
    var bs := seq(NBUF, i requires 0 <= i < NBUF => c.buf[i].blockno);
    forall i, j | 0 <= i < j < NBUF ensures bs[i] != bs[j] { assert c.at[bs[i]] == i && c.at[bs[j]] == j; }
    AsManyBlocks(bs, NBUF);
    var ks := Firsts(bs, NBUF);
    forall k | k in ks ensures k in Held(c) + Pinned(c) {
      var i := FirstsAt(bs, NBUF, k);
      assert c.buf[i].refcnt > 0 && c.at[k] == i;
    }
    SubsetSize(ks, Held(c) + Pinned(c));
  }

  /** Nothing is going on: no operation, no commit, an empty list, and nobody uses a buffer. */
  ghost predicate AtRest(log: Log, home: seq<Block>)
    reads log, log.bc
  {
    log.Ready(home, NOBODY) && log.n == 0 && log.outstanding == |log.ops| == 0 && !log.committing
  }

  const NOBODY := Others({}, true)

  /** The first part of an operation that replaces block k: begin_op and the change. */
  method Write(log: Log, k: nat, x: Block, ghost home: seq<Block>) returns (ok: bool)
    requires AtRest(log, home) && k < |log.bc.disk| && !InLog(log.area, k) && log.area.size > 1
    modifies log, log.bc
    ensures log.bc.Valid() && |log.bc.disk| == |old(log.bc.disk)| && log.outstanding == |log.ops|
    ensures !ok ==> log.Stopped(false, NOBODY) && Pinned(log.bc.C()) == old(Pinned(log.bc.C()))
    ensures ok ==> log.Ready(home, NOBODY) && !log.committing && |log.ops| == 1 && log.block[..log.n] == [k]
    ensures ok ==> Pinned(log.bc.C()) == old(Pinned(log.bc.C())) + {k} && View(log.bc.C())[k] == x
  {
    hide MapOk, RefsOk, CleanOk, Ring, Idle, TxOk, View, Pinned, Alone;
    var go := log.BeginOp();
    assert log.block[..log.n] == [];
    ok := log.Replace(k, x, home, 0, NOBODY);
  }

  /** One whole operation that replaces block k: begin_op, the change, end_op and the commit. It gets through unless it
      finds every buffer referenced. */
  method Transact(log: Log, k: nat, x: Block, ghost home: seq<Block>) returns (ok: bool, ghost home': seq<Block>)
    requires AtRest(log, home) && k < |log.bc.disk| && !InLog(log.area, k) && log.area.size > 1
    modifies log, log.bc
    ensures log.bc.Valid() && (!ok ==> log.Stopped(false, NOBODY))
    ensures Pinned(log.bc.C()) <= old(Pinned(log.bc.C())) + {k}
    ensures ok ==> AtRest(log, home') && |log.bc.disk| == |old(log.bc.disk)|
    ensures ok ==> Pinned(log.bc.C()) == old(Pinned(log.bc.C())) + {k} && log.bc.disk[k] == x
  {
    hide MapOk, RefsOk, CleanOk, Ring, Idle, TxOk, View, Pinned, Alone;
    home' := home;
    ok := Write(log, k, x, home);
    if !ok { return; }
    var ended, doCommit := log.EndOp(0);
    ghost var n;
    ok, n := log.Commit(home, NOBODY);
    if !ok { return; }
    log.FinishOp();
    home' := log.A().view;
  }

  /** Operations that each replace one of NBUF different data blocks, until one does not get through: one of them finds
      every buffer referenced, but not before the last two; if none does, every buffer is pinned at the end. */
  method WearOut(log: Log, ks: seq<nat>, x: Block, ghost home: seq<Block>) returns (done: nat)
    requires AtRest(log, home) && Pinned(log.bc.C()) == {} && log.area.size > 1
    requires |ks| >= NBUF && DataBlocks(ks, log.area, |log.bc.disk|)
    modifies log, log.bc
    ensures log.bc.Valid() && Busy(log.bc.C()) && NBUF - 2 <= done <= NBUF
    ensures done == NBUF ==> Exhausted(log.bc.C())
  {
    hide AtRest, Busy, Exhausted, Firsts, MapOk, RefsOk, CleanOk, Ring, Pinned;
    ghost var now := home;
    RestValid(log, now);
    AsManyBlocks(ks, 0);
    NoFirsts(ks);
    done := 0;
    while done < NBUF
      invariant 0 <= done <= NBUF && AtRest(log, now) && |log.bc.disk| == |old(log.bc.disk)| && log.bc.Valid()
      invariant Pinned(log.bc.C()) == Firsts(ks, done)
    {
      OneMore(ks, done);
      var ok;
      ok, now := Transact(log, ks[done], x, now);
      if !ok {
        AsManyBlocks(ks, done + 1);
        Stuck(log, Firsts(ks, done + 1), done);
        return;
      }
      RestValid(log, now);
      done := done + 1;
    }
    AsManyBlocks(ks, NBUF);
    ManyPinned(log.bc.C());
    ExhaustedBusy(log.bc.C());
  }

  lemma IdleSize(a: Area, home: seq<Block>, d: seq<Block>)
    requires Idle(a, home, d)
    ensures |d| == |home|
  {}

  lemma NoFirsts(ks: seq<nat>)
    ensures Firsts(ks, 0) == {}
  {}

  lemma OneMore(ks: seq<nat>, n: nat)
    requires n < |ks|
    ensures Firsts(ks, n + 1) == Firsts(ks, n) + {ks[n]}
  {}

  lemma RestValid(log: Log, home: seq<Block>)
    requires AtRest(log, home)
    ensures log.bc.Valid()
  {}

  lemma ExhaustedBusy(c: Core)
    requires CoreOk(c) && Exhausted(c)
    ensures Busy(c)
  {
    ExhaustedNoMiss(c);
  }

  /** An operation stops only when all but one of the buffers are pinned. */
  lemma Stuck(log: Log, ps: set<nat>, done: nat)
    requires log.Stopped(false, NOBODY) && Pinned(log.bc.C()) <= ps && |ps| == done + 1
    ensures Busy(log.bc.C()) && NBUF - 2 <= done
  {
    hide MapOk, RefsOk, CleanOk, Ring, Pinned, Held, Alone, Busy;
    BusyMeans(log.bc.C());
    SubsetSize(Pinned(log.bc.C()), ps);
  }

  /** A machine that boots on any disk with a clean log, and then replaces NBUF different data blocks, each in an
      operation of its own: the panic of bget comes with one of the last two, or every buffer stays pinned. */
  method BootAndWearOut(image: seq<Block>, area: Area, ks: seq<nat>, x: Block) returns (log: Log, done: nat)
    requires Idle(area, image, image) && area.size > 1 && |ks| >= NBUF && DataBlocks(ks, area, |image|)
    ensures log.bc.Valid() && Busy(log.bc.C()) && NBUF - 2 <= done <= NBUF
    ensures done == NBUF ==> Exhausted(log.bc.C())
  {
    hide Idle, MapOk, RefsOk, CleanOk, Ring, Alone, Busy, Exhausted, Recovering, View, Held, Pinned;
    var bc := new Bcache(image);
    log := new Log(bc, area);
    IdleRecovers(area, image, image, []);
    var ok, k := log.Recover(image, Tx([], []), true);
    if !ok {
      BusyMeans(bc.C());
      assert false;
    }
    IdleSize(area, image, bc.disk);
    done := WearOut(log, ks, x, image);
  }
}
