/** The write-ahead log over the buffer cache: absorption, commit and recovery. */
module Log {
  import opened Blocks
  import opened Crash
  import opened Bio
  import LogRun

  /** The listed blocks with the contents a reader sees: what a commit makes durable. */
  function Pending(bs: seq<nat>, view: seq<Block>): (t: Tx)
    requires forall i {:trigger bs[i]} :: 0 <= i < |bs| ==> bs[i] < |view|
  {
    Tx(bs, seq(|bs|, i requires 0 <= i < |bs| => view[bs[i]]))
  }

  /** What the log sees of the cache between its calls: disk, block map, pinned blocks and write trace. */
  datatype Cache = Cache(disk: seq<Block>, view: seq<Block>, pinned: set<nat>, trace: seq<Write>)

  /** Block `at` becomes `x` in the cache and then on disk. */
  function Store(c: Cache, at: nat, x: Block): Cache
    requires at < |c.disk| == |c.view|
  {
    Cache(c.disk[at := x], c.view[at := x], c.pinned, c.trace + [Write(at, x)])
  }

  function Stores(c: Cache, at: nat, x: Block, twice: bool): Cache
    requires at < |c.disk| == |c.view|
  {
    if twice then Store(Store(c, at, x), at, x) else Store(c, at, x)
  }

  /** A block that is neither listed nor held is the same on disk and for readers. */
  predicate SyncedBut(bs: seq<nat>, held: set<nat>, c: Cache) {
    && |c.view| == |c.disk|
    && forall k {:trigger c.view[k]} :: 0 <= k < |c.disk| && k !in bs && k !in held ==> c.view[k] == c.disk[k]
  }

  predicate Synced(bs: seq<nat>, c: Cache) { SyncedBut(bs, {}, c) }

  /** Every listed block is pinned, so its buffer is not recycled before the block is installed. */
  predicate AllPinned(bs: seq<nat>, c: Cache) {
    forall i {:trigger bs[i]} :: 0 <= i < |bs| ==> bs[i] in c.pinned
  }

  /** `commit` of `t` has issued its first k writes since `c0`, and readers of home blocks saw no change. */
  predicate Reached(a: Area, h: Block, t: Tx, c0: Cache, c: Cache, k: nat)
    requires |t.bs| == |t.ds| <= LOGSIZE && k <= |CommitWrites(a, h, t)|
  {
    && c.disk == After(c0.disk, CommitWrites(a, h, t), k)
    && c.trace == c0.trace + CommitWrites(a, h, t)[..k]
    && c.pinned == c0.pinned && Synced(t.bs, c) && |c0.view| == |c.view|
    && forall b {:trigger c.view[b]} :: 0 <= b < |c.view| && !InLog(a, b) ==> c.view[b] == c0.view[b]
  }

  /** Storing what write number k of `commit` says takes it one write further. */
  lemma ReachedStep(a: Area, h: Block, t: Tx, c0: Cache, c: Cache, k: nat)
    requires TxOk(a, |c.disk|, t) && k < |CommitWrites(a, h, t)| && Reached(a, h, t, c0, c, k)
    requires var w := CommitWrite(a, h, t, k); w.at < |c.disk| && (!InLog(a, w.at) ==> w.data == c.view[w.at])
    ensures var w := CommitWrite(a, h, t, k); Reached(a, h, t, c0, Store(c, w.at, w.data), k + 1)
  {
    var ws := CommitWrites(a, h, t);
    assert ws[..k + 1] == ws[..k] + [ws[k]];
  }

  /** `commit` of the pending contents `t`, begun from cache `c0` over the home blocks `home`, has issued k
      writes and cache `c` is the result. */
  ghost predicate Progress(a: Area, home: seq<Block>, t: Tx, c0: Cache, c: Cache, k: nat) {
    && |c.disk| == |c.view| == |c0.view| && TxOk(a, |c.disk|, t) && t.bs != []
    && Idle(a, home, c0.disk)
    && t == Pending(t.bs, c0.view) && AllPinned(t.bs, c0)
    && k <= 2 * |t.bs| + 2 && Reached(a, c0.disk[a.start], t, c0, c, k)
  }

  lemma ProgressStart(a: Area, home: seq<Block>, t: Tx, c: Cache)
    requires |c.disk| == |c.view| && TxOk(a, |c.disk|, t) && t.bs != [] && Idle(a, home, c.disk)
    requires t == Pending(t.bs, c.view) && AllPinned(t.bs, c) && Synced(t.bs, c)
    ensures Progress(a, home, t, c, c, 0)
  {
  }

  /** One iteration of write_log. */
  lemma LogStep(a: Area, home: seq<Block>, t: Tx, c0: Cache, c: Cache, k: nat)
    requires k < |t.bs| && Progress(a, home, t, c0, c, k)
    ensures var src := t.bs[k]; var dst := a.start + k + 1;
      && src < |c.disk| == |c.view| && dst < |c.disk| && src != dst && InLog(a, dst) && src in c.pinned
      && Progress(a, home, t, c0, Store(c, dst, c.view[src]), k + 1)
  {
    assert InLog(a, a.start + k + 1);
    assert t.ds[k] == c0.view[t.bs[k]] == c.view[t.bs[k]];
    ReachedStep(a, c0.disk[a.start], t, c0, c, k);
  }

  /** The first whead. */
  lemma HeaderStep(a: Area, home: seq<Block>, t: Tx, c0: Cache, c: Cache)
    requires Progress(a, home, t, c0, c, |t.bs|)
    ensures a.start < |c.disk| == |c.view| && InLog(a, a.start) && |t.bs| <= LOGSIZE
    ensures Progress(a, home, t, c0, Store(c, a.start, PutHeader(c.view[a.start], t.bs)), |t.bs| + 1)
  {
    CommitLogPrefix(a, home, c0.disk, t, |t.bs|);
    assert InLog(a, a.start);
    assert c.view[a.start] == c.disk[a.start];
    ReachedStep(a, c0.disk[a.start], t, c0, c, |t.bs|);
  }

  /** What install_trans copies is what the log block and the readers of the home block have. */
  lemma HomeSource(a: Area, home: seq<Block>, t: Tx, c0: Cache, c: Cache, i: nat)
    requires i < |t.bs| && Progress(a, home, t, c0, c, |t.bs| + 1 + i)
    ensures var src := a.start + i + 1; var dst := t.bs[i];
      && src < |c.disk| == |c.view| && dst < |c.disk| && src != dst && InLog(a, src)
      && c.view[src] == c.disk[src] == t.ds[i] == c.view[dst]
  {
    hide CommitWrites;
    CommitHomePrefix(a, home, c0.disk, t, i);
    assert c.disk[a.start + i + 1] == t.ds[i];
    assert InLog(a, a.start + i + 1);
    assert c.view[a.start + i + 1] == c.disk[a.start + i + 1];
    assert t.ds[i] == c0.view[t.bs[i]] == c.view[t.bs[i]];
  }

  /** One iteration of install_trans. */
  lemma HomeStep(a: Area, home: seq<Block>, t: Tx, c0: Cache, c: Cache, i: nat)
    requires i < |t.bs| && Progress(a, home, t, c0, c, |t.bs| + 1 + i)
    ensures var src := a.start + i + 1; var dst := t.bs[i];
      && src < |c.disk| == |c.view| && dst < |c.disk| && src != dst && InLog(a, src) && c.view[src] == c.disk[src]
      && Progress(a, home, t, c0, Store(c, dst, c.view[src]), |t.bs| + 2 + i)
  {
    hide Reached;
    HomeSource(a, home, t, c0, c, i);
    ReachedStep(a, c0.disk[a.start], t, c0, c, |t.bs| + 1 + i);
  }

  /** The second whead, with n = 0. */
  lemma ClearStep(a: Area, home: seq<Block>, t: Tx, c0: Cache, c: Cache)
    requires Progress(a, home, t, c0, c, 2 * |t.bs| + 1)
    ensures a.start < |c.disk| == |c.view| && InLog(a, a.start)
    ensures Progress(a, home, t, c0, Store(c, a.start, PutHeader(c.view[a.start], [])), 2 * |t.bs| + 2)
  {
    CommitHeaderStays(a, c0.disk, t, |t.bs|);
    assert InLog(a, a.start);
    assert c.view[a.start] == c.disk[a.start];
    ReachedStep(a, c0.disk[a.start], t, c0, c, 2 * |t.bs| + 1);
  }

  /** What a partial or complete `commit` has done, in plain terms. */
  ghost predicate Committed(a: Area, t: Tx, c0: Cache, c: Cache, k: nat)
    requires |t.bs| == |t.ds| <= LOGSIZE && a.start < |c0.disk|
  {
    var ws := CommitWrites(a, c0.disk[a.start], t);
    && k <= |ws| && |c.view| == |c0.view| && c.disk == After(c0.disk, ws, k) && c.trace == c0.trace + ws[..k]
    && c.pinned == c0.pinned
    && (forall b {:trigger c.view[b]} :: 0 <= b < |c.view| && !InLog(a, b) ==> c.view[b] == c0.view[b])
    && (k == |ws| ==> c.view == c.disk && Idle(a, c.view, c.disk))
  }

  lemma ProgressCommitted(a: Area, home: seq<Block>, t: Tx, c0: Cache, c: Cache, k: nat)
    requires Progress(a, home, t, c0, c, k)
    ensures |t.bs| == |t.ds| <= LOGSIZE && a.start < |c0.disk| && Committed(a, t, c0, c, k)
  {
    if k == 2 * |t.bs| + 2 {
      CommitDone(a, home, t, c0, c);
      assert c.view == c.disk;
    }
  }

  /** After its last write, `commit` has made the block map durable: every block is on disk. */
  lemma CommitDone(a: Area, home: seq<Block>, t: Tx, c0: Cache, c: Cache)
    requires Progress(a, home, t, c0, c, 2 * |t.bs| + 2)
    ensures Synced([], c) && Idle(a, c.view, c.disk)
  {
    var n := 2 * |t.bs| + 1;
    var ws := CommitWrites(a, c0.disk[a.start], t);
    CommitHomePrefix(a, home, c0.disk, t, |t.bs|);
    var p := After(c0.disk, ws, n);
    assert c.disk == Put(p, ws[n]);
    forall b | 0 <= b < |c.disk| ensures c.view[b] == c.disk[b] {
      if b in t.bs {
        var i :| 0 <= i < |t.bs| && t.bs[i] == b;
        assert c.view[b] == c0.view[b] == t.ds[i] == p[b];
      }
    }
  }

  // ---- recovery ----

  /** `recover`, started on disk `d0`, has issued k writes; the cache agrees with the disk throughout. */
  ghost predicate Recovering(a: Area, d0: seq<Block>, tr0: seq<Write>, c: Cache, k: nat) {
    && Recoverable(a, d0) && k <= |RecoverWrites(a, d0)|
    && c.disk == After(d0, RecoverWrites(a, d0), k) && c.view == c.disk
    && c.trace == tr0 + RecoverWrites(a, d0)[..k]
  }

  lemma RecoverStart(a: Area, c: Cache)
    requires Recoverable(a, c.disk) && c.view == c.disk
    ensures Recovering(a, c.disk, c.trace, c, 0)
  {
  }

  /** Until its last write, `recover` leaves the log area alone. */
  lemma {:induction false} RecoverLogStays(a: Area, d: seq<Block>, k: nat, b: nat)
    requires Recoverable(a, d) && k < |RecoverWrites(a, d)| && InLog(a, b)
    ensures b < |d| && After(d, RecoverWrites(a, d), k)[b] == d[b]
    decreases k
  {
    if k > 0 { RecoverLogStays(a, d, k - 1, b); }
  }

  lemma RecoverStep(a: Area, d0: seq<Block>, tr0: seq<Write>, c: Cache, k: nat)
    requires Recovering(a, d0, tr0, c, k) && k < |RecoverWrites(a, d0)|
    ensures var w := RecoverWrites(a, d0)[k];
      w.at < |c.disk| == |c.view| && Recovering(a, d0, tr0, Store(c, w.at, w.data), k + 1)
  {
    var ws := RecoverWrites(a, d0);
    assert ws[..k + 1] == ws[..k] + [ws[k]];
  }

  /** One iteration of install_trans(true). */
  lemma RecoverHome(a: Area, d0: seq<Block>, tr0: seq<Write>, c: Cache, i: nat)
    requires Recoverable(a, d0) && i < d0[a.start].words[0] && Recovering(a, d0, tr0, c, 2 * i)
    ensures var src := a.start + i + 1; var dst := d0[a.start].words[i + 1];
      && 0 <= dst < |c.disk| && src < |c.disk| == |c.view| && src != dst && c.view[src] == c.disk[src]
      && Recovering(a, d0, tr0, Stores(c, dst, c.view[src], true), 2 * i + 2)
  {
    hide Recovering, RecoverWrites;
    RecoverHomeWrites(a, d0, tr0, c, i);
    RecoverStep(a, d0, tr0, c, 2 * i);
    RecoverStep(a, d0, tr0, Store(c, d0[a.start].words[i + 1], c.view[a.start + i + 1]), 2 * i + 1);
  }

  lemma RecoverHomeWrites(a: Area, d0: seq<Block>, tr0: seq<Write>, c: Cache, i: nat)
    requires Recoverable(a, d0) && i < d0[a.start].words[0] && Recovering(a, d0, tr0, c, 2 * i)
    ensures var src := a.start + i + 1; var dst := d0[a.start].words[i + 1];
      && 0 <= dst < |c.disk| && src < |c.disk| == |c.view| && src != dst && c.view[src] == c.disk[src]
      && RecoverWrites(a, d0)[2 * i] == RecoverWrites(a, d0)[2 * i + 1] == Write(dst, c.view[src])
  {
    RecoverLogStays(a, d0, 2 * i, a.start + i + 1);
  }

  /** The whead that ends recovery. */
  lemma RecoverClear(a: Area, d0: seq<Block>, tr0: seq<Write>, c: Cache)
    requires Recoverable(a, d0) && Recovering(a, d0, tr0, c, 2 * d0[a.start].words[0])
    ensures a.start < |c.disk| == |c.view|
    ensures Recovering(a, d0, tr0, Store(c, a.start, PutHeader(c.view[a.start], [])), 2 * d0[a.start].words[0] + 1)
  {
    var k := 2 * d0[a.start].words[0];
    RecoverLogStays(a, d0, k, a.start);
    assert RecoverWrites(a, d0)[k] == Write(a.start, PutHeader(d0[a.start], []));
    RecoverStep(a, d0, tr0, c, k);
  }

  /** What a recovery that ran to its end leaves. */
  lemma RecoverDone(a: Area, d0: seq<Block>, tr0: seq<Write>, c: Cache, home: seq<Block>, t: Tx)
    requires Recoverable(a, d0) && Recovering(a, d0, tr0, c, |RecoverWrites(a, d0)|)
    ensures Idle(a, c.disk, c.disk) && c.view == c.disk
    ensures Idle(a, home, d0) ==> Idle(a, home, c.disk)
    ensures Recorded(a, home, t, d0) ==> Idle(a, Install(home, t), c.disk)
  {
    var k := 2 * d0[a.start].words[0];
    assert RecoverWrites(a, d0)[k] == Write(a.start, PutHeader(d0[a.start], []));
    assert c.disk == Put(After(d0, RecoverWrites(a, d0), k), RecoverWrites(a, d0)[k]);
    if Idle(a, home, d0) { IdleRecovery(a, home, d0, |RecoverWrites(a, d0)|); }
    if Recorded(a, home, t, d0) { RecordedFull(a, home, t, d0); }
  }

  /** The other callers of the cache: the blocks they hold, and whether none of them waits for a buffer. */
  datatype Others = Others(held: set<nat>, alone: bool)

  class Log {
    const bc: Bcache
    const area: Area
    var outstanding: nat       // file system calls in progress
    var committing: bool
    var n: nat                 // lh.n
    var block: seq<nat>        // lh.block
    ghost var ops: seq<nat>    // the operations in progress, each with its number of lwrite calls

    /** The state that LogRun follows over whole runs. */
    ghost function S(): LogRun.State
      reads this
      requires n <= |block|
    {
      LogRun.State(ops, committing, block[..n])
    }

    /** The log before recovery has run. */
    constructor (bc: Bcache, area: Area)
      ensures this.bc == bc && this.area == area
      ensures outstanding == |ops| && n <= |block| && S() == LogRun.Start && |block| == LOGSIZE
    {
      this.bc, this.area, this.ops := bc, area, [];
      outstanding, committing, n, block := 0, false, 0, seq(LOGSIZE, _ => 0);
    }

    ghost function A(): Cache
      reads bc
      requires bc.Valid()
    {
      Cache(bc.disk, View(bc.C()), Pinned(bc.C()), bc.trace)
    }

    /** The cache is in order; held are exactly the blocks in h, by other callers, and those in mine. */
    ghost predicate Among(h: Others, mine: set<nat>)
      reads bc
    {
      bc.Valid() && Held(bc.C()) == h.held + mine && (h.alone ==> Alone(bc.C()))
    }

    ghost predicate Quiet(h: Others)
      reads bc
    {
      Among(h, {})
    }

    /** A call that stops early has found every buffer referenced, with at most one more held by itself. */
    ghost predicate Stopped(ok: bool, h: Others)
      reads bc
    {
      && bc.Valid() && (ok ==> Quiet(h)) && (!ok ==> Busy(bc.C()))
      && (!ok && h.alone ==> Alone(bc.C()) && |Held(bc.C())| <= |h.held| + 1)
    }

    /** A bread of `dst` while `src` is held. */
    method BreadSecond(src: nat, from: nat, dst: nat, ghost h: Others) returns (ok: bool, to: nat)
      requires Among(h, {src}) && dst < |bc.disk| && src != dst && dst !in h.held
      requires Holds(bc.C(), from, src)
      modifies bc`at, bc`buf, bc`users
      ensures bc.Valid() && A() == old(A())
      ensures if ok then Among(h, {src, dst}) else Among(h, {src}) && Busy(bc.C())
      ensures ok ==> Holds(bc.C(), from, src) && bc.buf[from].data == old(bc.buf[from].data)
      ensures ok ==> Holds(bc.C(), to, dst) && bc.buf[to].data == A().view[dst]
    {
      hide MapOk, RefsOk, CleanOk, Ring;
      ok, to := bc.Bread(dst);
      assert h.held + {src} + {dst} == h.held + {src, dst};
    }

    /** memmove into a held buffer, then bwrite. */
    method Overwrite(to: nat, x: Block)
      requires bc.Valid() && to < NBUF && Holds(bc.C(), to, bc.buf[to].blockno)
      modifies bc`buf, bc`disk, bc`trace
      ensures bc.Valid() && bc.buf == old(bc.buf)[to := old(bc.buf)[to].(data := x)]
      ensures Held(bc.C()) == Held(old(bc.C())) && (old(Alone(bc.C())) ==> Alone(bc.C()))
      ensures bc.buf[to].blockno < |old(bc.disk)| && A() == Store(old(A()), bc.buf[to].blockno, x)
    {
      bc.Modify(to, x);
      bc.Bwrite(to);
    }

    /** Releases both buffers of a copy. */
    method Release(src: nat, from: nat, dst: nat, to: nat, ghost h: Others)
      requires Among(h, {src, dst}) && src != dst && src < |bc.disk| && dst < |bc.disk|
      requires src !in h.held && dst !in h.held
      requires Holds(bc.C(), from, src) && Holds(bc.C(), to, dst)
      requires src in A().pinned || A().view[src] == A().disk[src]
      requires A().view[dst] == A().disk[dst]
      modifies bc`buf, bc`users, bc`links, bc`ring
      ensures Quiet(h) && A() == old(A())
    {
      hide MapOk, RefsOk, CleanOk, Ring;
      bc.Brelse(from);
      bc.Brelse(to);
      assert h.held + {src, dst} - {src} - {dst} == h.held + {};
    }

    /** memmove between two held buffers, bwrite, and both releases. */
    method Move(src: nat, from: nat, dst: nat, to: nat, twice: bool, ghost h: Others)
      requires Among(h, {src, dst}) && src != dst && src < |bc.disk| && dst < |bc.disk|
      requires src !in h.held && dst !in h.held
      requires Holds(bc.C(), from, src) && Holds(bc.C(), to, dst) && bc.buf[from].data == A().view[src]
      requires src in A().pinned || A().view[src] == A().disk[src]
      modifies bc
      ensures Quiet(h) && A() == Stores(old(A()), dst, old(A()).view[src], twice)
    {
      hide MapOk, RefsOk, CleanOk, Ring;
      Overwrite(to, bc.buf[from].data);
      if twice {
        Overwrite(to, bc.buf[to].data);
      }
      Release(src, from, dst, to, h);
    }

    /** One round of install_trans: block `src`, as readers see it, goes to block `dst` in the cache and on
        disk, where it is written once or twice. Stops with nothing written if there is no free buffer. */
    method CopyHome(src: nat, dst: nat, twice: bool, ghost h: Others) returns (ok: bool)
      requires Quiet(h) && src < |bc.disk| && dst < |bc.disk| && src != dst
      requires src !in h.held && dst !in h.held
      requires src in A().pinned || A().view[src] == A().disk[src]
      modifies bc
      ensures Stopped(ok, h)
      ensures A() == if ok then Stores(old(A()), dst, old(A()).view[src], twice) else old(A())
    {
      hide MapOk, RefsOk, CleanOk, Ring;
      var from, to;
      ok, from := bc.Bread(src);
      if !ok { return; }
      ok, to := BreadSecond(src, from, dst, h);
      if !ok { return; }
      Move(src, from, dst, to, twice, h);
    }

    /** One round of write_log: as CopyHome, but the destination is read first. */
    method CopyToLog(src: nat, dst: nat, ghost h: Others) returns (ok: bool)
      requires Quiet(h) && src < |bc.disk| && dst < |bc.disk| && src != dst
      requires src !in h.held && dst !in h.held
      requires src in A().pinned || A().view[src] == A().disk[src]
      modifies bc
      ensures Stopped(ok, h)
      ensures A() == if ok then Store(old(A()), dst, old(A()).view[src]) else old(A())
    {
      hide MapOk, RefsOk, CleanOk, Ring;
      var from, to;
      ok, to := bc.Bread(dst);
      if !ok { return; }
      ok, from := BreadSecond(dst, to, src, h);
      if !ok { return; }
      assert {dst, src} == {src, dst};
      Move(src, from, dst, to, false, h);
    }

    /** whead: the header buffer gets n and the n listed blocks, and is written. */
    method Whead(ghost h: Others) returns (ok: bool)
      requires Quiet(h) && n <= LOGSIZE && n <= |block| && area.start < |bc.disk| && area.start !in h.held
      modifies bc
      ensures Stopped(ok, h)
      ensures A() ==
        if ok then Store(old(A()), area.start, PutHeader(old(A()).view[area.start], block[..n])) else old(A())
    {
      hide MapOk, RefsOk, CleanOk, Ring, PutHeader, Alone, View, Held, Pinned;
      var b;
      ok, b := bc.Bread(area.start);
      if ok {
        Overwrite(b, PutHeader(bc.buf[b].data, block[..n]));
        bc.Brelse(b);
        assert h.held + {area.start} - {area.start} == h.held + {};
      }
    }

    ghost predicate During(home: seq<Block>, t: Tx, c0: Cache, k: nat)
      reads bc
    {
      bc.Valid() && Progress(area, home, t, c0, A(), k)
    }

    /** Nobody else holds a listed block or a block of the log. */
    ghost predicate Apart(bs: seq<nat>, h: Others) {
      forall k {:trigger k in h.held} :: k in h.held ==> k !in bs && !InLog(area, k)
    }

    /** One iteration of write_log. */
    method WriteLogOne(tail: nat, ghost home: seq<Block>, ghost t: Tx, ghost c0: Cache, ghost h: Others)
      returns (ok: bool)
      requires Quiet(h) && Apart(t.bs, h) && tail < n <= |block| && t.bs == block[..n] && During(home, t, c0, tail)
      modifies bc
      ensures During(home, t, c0, if ok then tail + 1 else tail) && Stopped(ok, h)
    {
      hide Progress;
      LogStep(area, home, t, c0, A(), tail);
      assert t.bs[tail] == block[tail];
      assert block[tail] in t.bs;
      ok := CopyToLog(block[tail], area.start + tail + 1, h);
    }

    /** write_log: the contents of the listed blocks are written to the log area, in order. */
    method WriteLog(ghost home: seq<Block>, ghost t: Tx, ghost c0: Cache, ghost h: Others)
      returns (ok: bool, ghost k: nat)
      requires Quiet(h) && Apart(t.bs, h) && n <= |block| && t.bs == block[..n] && During(home, t, c0, 0)
      modifies bc
      ensures During(home, t, c0, k) && k <= n && (ok ==> k == n) && Stopped(ok, h)
    {
      hide Progress;
      k := 0;
      var tail := 0;
      ok := true;
      while tail < n
        invariant 0 <= tail <= n && k == tail && ok && Quiet(h) && During(home, t, c0, tail)
      {
        ok := WriteLogOne(tail, home, t, c0, h);
        if !ok { return; }
        tail := tail + 1;
        k := tail;
      }
    }

    /** The first whead of commit: from here on the transaction survives a crash. */
    method WriteHeader(ghost home: seq<Block>, ghost t: Tx, ghost c0: Cache, ghost h: Others) returns (ok: bool)
      requires Quiet(h) && Apart(t.bs, h) && n <= |block| && t.bs == block[..n] && During(home, t, c0, n)
      modifies bc
      ensures During(home, t, c0, if ok then n + 1 else n) && Stopped(ok, h)
    {
      hide Progress;
      HeaderStep(area, home, t, c0, A());
      ok := Whead(h);
    }

    /** One iteration of install_trans(false). */
    method InstallOne(i: nat, ghost home: seq<Block>, ghost t: Tx, ghost c0: Cache, ghost h: Others)
      returns (ok: bool)
      requires Quiet(h) && Apart(t.bs, h) && i < n <= |block| && t.bs == block[..n] && During(home, t, c0, n + 1 + i)
      modifies bc
      ensures During(home, t, c0, if ok then n + 2 + i else n + 1 + i) && Stopped(ok, h)
    {
      hide Progress;
      HomeStep(area, home, t, c0, A(), i);
      assert t.bs[i] == block[i];
      assert block[i] in t.bs;
      ok := CopyHome(area.start + i + 1, block[i], false, h);
    }

    /** install_trans(false): every listed block is copied from the log to its home. */
    method InstallTrans(ghost home: seq<Block>, ghost t: Tx, ghost c0: Cache, ghost h: Others)
      returns (ok: bool, ghost k: nat)
      requires Quiet(h) && Apart(t.bs, h) && n <= |block| && t.bs == block[..n] && During(home, t, c0, n + 1)
      modifies bc
      ensures During(home, t, c0, k) && n < k <= 2 * n + 1 && (ok ==> k == 2 * n + 1) && Stopped(ok, h)
    {
      hide Progress;
      k := n + 1;
      var i := 0;
      ok := true;
      while i < n
        invariant 0 <= i <= n && k == n + 1 + i && ok && Quiet(h) && During(home, t, c0, k)
      {
        ok := InstallOne(i, home, t, c0, h);
        if !ok { return; }
        i := i + 1;
        k := n + 1 + i;
      }
    }

    /** The second whead of commit, with n = 0. */
    method ClearLog(ghost home: seq<Block>, ghost t: Tx, ghost c0: Cache, ghost h: Others) returns (ok: bool)
      requires Quiet(h) && Apart(t.bs, h) && n <= |block| && t.bs == block[..n] && During(home, t, c0, 2 * n + 1)
      modifies bc, this`n
      ensures During(home, t, c0, if ok then 2 * |t.bs| + 2 else 2 * |t.bs| + 1) && n == 0 && Stopped(ok, h)
    {
      hide Progress;
      ClearStep(area, home, t, c0, A());
      n := 0;
      assert block[..0] == [];
      ok := Whead(h);
    }

    /** The body of commit for a non-empty log. */
    method CommitBody(ghost home: seq<Block>, ghost t: Tx, ghost c0: Cache, ghost h: Others)
      returns (ok: bool, ghost k: nat)
      requires Quiet(h) && Apart(t.bs, h) && 0 < n <= |block| && t.bs == block[..n] && During(home, t, c0, 0)
      modifies bc, this`n
      ensures During(home, t, c0, k) && (ok ==> k == 2 * |t.bs| + 2 && n == 0) && Stopped(ok, h)
    {
      hide Progress;
      ok, k := WriteLog(home, t, c0, h);
      if !ok { return; }
      ok := WriteHeader(home, t, c0, h);
      k := if ok then n + 1 else n;
      if !ok { return; }
      ok, k := InstallTrans(home, t, c0, h);
      if !ok { return; }
      ok := ClearLog(home, t, c0, h);
      k := if ok then 2 * |t.bs| + 2 else 2 * |t.bs| + 1;
    }

    /** The log lists blocks it can commit: distinct, outside the log area, pinned. Every block that is
        neither listed nor held is on disk; the disk outside the log area is `home`. */
    ghost predicate Open(home: seq<Block>)
      reads this, bc
    {
      && bc.Valid() && |block| == LOGSIZE && n <= LOGSIZE
      && (forall i {:trigger block[i]} :: 0 <= i < n ==> block[i] < |bc.disk|)
      && TxOk(area, |bc.disk|, Pending(block[..n], A().view))
      && SyncedBut(block[..n], Held(bc.C()), A()) && AllPinned(block[..n], A()) && Idle(area, home, bc.disk)
    }

    ghost predicate Ready(home: seq<Block>, h: Others)
      reads this, bc
    {
      Open(home) && Quiet(h)
    }

    /** commit: issues exactly the writes of Crash.CommitWrites for the listed blocks and the contents readers
        see, in that order; it stops early, after some prefix of them, only if the cache has no free buffer.
        When it ends, the list is empty, every block is on disk and readers of home blocks saw no change.
        Other callers may be reading blocks, which are not listed and not in the log. */
    method Commit(ghost home: seq<Block>, ghost h: Others) returns (ok: bool, ghost k: nat)
      requires Ready(home, h) && Synced(block[..n], A()) && Apart(block[..n], h)
      modifies bc, this`n
      ensures bc.Valid() && Committed(area, old(Pending(block[..n], A().view)), old(A()), A(), k)
      ensures ok ==> k == |CommitWrites(area, old(bc.disk)[area.start], old(Pending(block[..n], A().view)))|
      ensures ok ==> n == 0 && Ready(A().view, h)
      ensures Stopped(ok, h)
    {
      ghost var t := Pending(block[..n], A().view);
      ghost var c0 := A();
      if n == 0 {
        assert block[..n] == [];
        assert A().view == bc.disk;
        return true, 0;
      }
      ProgressStart(area, home, t, c0);
      ok, k := CommitBody(home, t, c0, h);
      ProgressCommitted(area, home, t, c0, A(), k);
    }

    /** begin_op, each time it holds the lock: it goes ahead, or sleeps with nothing changed. */
    method BeginOp() returns (go: bool)
      requires n <= |block| && outstanding == |ops|
      modifies this`outstanding, this`ops
      ensures outstanding == |ops|
      ensures LogRun.Step(area.size, old(S()), LogRun.Begin) == if go then LogRun.Next(S()) else LogRun.Wait
      ensures !go ==> S() == old(S())
      ensures go <==> !committing && n + (old(outstanding) + 1) * MAXOPBLOCKS <= LOGSIZE
      ensures go ==> ops == old(ops) + [0] && outstanding == old(outstanding) + 1
    {
      if committing {
        return false;
      }
      if n + (outstanding + 1) * MAXOPBLOCKS > LOGSIZE {
        return false;
      }
      outstanding := outstanding + 1;
      ops := ops + [0];
      go := true;
    }

    /** The first critical section of end_op of operation i, which the caller began. The last one to end
        starts the commit. */
    method EndOp(ghost i: nat) returns (ok: bool, doCommit: bool)
      requires n <= |block| && outstanding == |ops| && i < |ops|
      modifies this`outstanding, this`ops, this`committing
      ensures LogRun.Step(area.size, old(S()), LogRun.End(i)) ==
              if ok then LogRun.Next(S()) else LogRun.EndWhileCommitting
      ensures ok ==> outstanding == |ops| && (doCommit <==> committing) && (doCommit <==> old(outstanding) == 1)
      ensures ok <==> !old(committing)
    {
      outstanding := outstanding - 1;
      ok, doCommit := !committing, false;
      if ok {
        ops := LogRun.Without(ops, i);
        if outstanding == 0 {
          doCommit := true;
          committing := true;
        }
      }
    }

    /** The second critical section of end_op, after the commit. */
    method FinishOp()
      requires n == 0 <= |block| && committing
      modifies this`committing
      ensures LogRun.Step(area.size, old(S()), LogRun.Finish) == LogRun.Next(S()) && !committing
    {
      committing := false;
    }

    /** rhead: reads the list from the header block. */
    method Rhead(ghost alone: bool) returns (ok: bool)
      requires Quiet(Others({}, alone)) && |block| == LOGSIZE && A().view == A().disk && Recoverable(area, bc.disk)
      modifies bc, this`n, this`block
      ensures Stopped(ok, Others({}, alone)) && A() == old(A()) && |block| == LOGSIZE
      ensures ok ==> n == bc.disk[area.start].words[0]
      ensures ok ==> forall i {:trigger block[i]} :: 0 <= i < n ==> block[i] == bc.disk[area.start].words[i + 1]
    {
      hide MapOk, RefsOk, CleanOk, Ring;
      var b;
      ok, b := bc.Bread(area.start);
      if !ok { return; }
      Entries(bc.buf[b].data);
      bc.Brelse(b);
    }

    /** The loop of rhead. */
    method Entries(h: Block)
      requires HeaderOk(h) && |block| == LOGSIZE
      modifies this`n, this`block
      ensures |block| == LOGSIZE && n == h.words[0]
      ensures forall i {:trigger block[i]} :: 0 <= i < n ==> block[i] == h.words[i + 1]
    {
      n := h.words[0];
      var i := 0;
      while i < n
        invariant 0 <= i <= n == h.words[0] && |block| == LOGSIZE
        invariant forall j {:trigger block[j]} :: 0 <= j < i ==> block[j] == h.words[j + 1]
      {
        block := block[i := h.words[i + 1]];
        i := i + 1;
      }
    }

    /** install_trans(true). */
    method InstallRecovered(ghost d0: seq<Block>, ghost tr0: seq<Write>, ghost alone: bool)
      returns (ok: bool, ghost k: nat)
      requires Quiet(Others({}, alone)) && Recoverable(area, d0) && n == d0[area.start].words[0] <= |block|
      requires forall i {:trigger block[i]} :: 0 <= i < n ==> block[i] == d0[area.start].words[i + 1]
      requires Recovering(area, d0, tr0, A(), 0)
      modifies bc
      ensures Stopped(ok, Others({}, alone)) && Recovering(area, d0, tr0, A(), k) && k <= 2 * n && (ok ==> k == 2 * n)
      ensures A().pinned == old(A().pinned)
    {
      hide Recovering, MapOk, RefsOk, CleanOk, Ring;
      k := 0;
      var i := 0;
      ok := true;
      while i < n
        invariant 0 <= i <= n && k == 2 * i && ok && Quiet(Others({}, alone)) && Recovering(area, d0, tr0, A(), k)
        invariant A().pinned == old(A().pinned)
      {
        ok := InstallRecoveredOne(i, d0, tr0, alone);
        if !ok { return; }
        i := i + 1;
        k := 2 * i;
      }
    }

    method InstallRecoveredOne(i: nat, ghost d0: seq<Block>, ghost tr0: seq<Write>, ghost alone: bool)
      returns (ok: bool)
      requires Quiet(Others({}, alone)) && Recoverable(area, d0) && i < n == d0[area.start].words[0] <= |block|
      requires block[i] == d0[area.start].words[i + 1]
      requires Recovering(area, d0, tr0, A(), 2 * i)
      modifies bc
      ensures Stopped(ok, Others({}, alone)) && Recovering(area, d0, tr0, A(), if ok then 2 * i + 2 else 2 * i)
      ensures A().pinned == old(A().pinned)
    {
      hide Recovering, MapOk, RefsOk, CleanOk, Ring;
      RecoverHome(area, d0, tr0, A(), i);
      ok := CopyHome(area.start + i + 1, block[i], true, Others({}, alone));
    }

    /** recover, on the cache of a machine that has just booted: issues exactly the writes of
        Crash.RecoverWrites, or a prefix of them if the cache has no free buffer, and leaves an empty list and a
        log that operations can use: over the old home blocks if nothing was recorded, and over those of the
        recorded transaction if one was. */
    method Recover(ghost home: seq<Block>, ghost t: Tx, ghost alone: bool) returns (ok: bool, ghost k: nat)
      requires Quiet(Others({}, alone)) && |block| == LOGSIZE && A().view == A().disk && Recoverable(area, bc.disk)
      modifies bc, this`n, this`block
      ensures bc.Valid() && Recovering(area, old(bc.disk), old(bc.trace), A(), k) && |block| == LOGSIZE
      ensures ok ==> n == 0 && k == |RecoverWrites(area, old(bc.disk))| && Ready(bc.disk, Others({}, alone))
      ensures ok && Idle(area, home, old(bc.disk)) ==> Ready(home, Others({}, alone))
      ensures ok && Recorded(area, home, t, old(bc.disk)) ==> Ready(Install(home, t), Others({}, alone))
      ensures Stopped(ok, Others({}, alone)) && A().pinned == old(A().pinned)
    {
      hide Recovering, MapOk, RefsOk, CleanOk, Ring, Idle, Recorded, PutHeader, Install;
      ghost var d0, tr0 := bc.disk, bc.trace;
      RecoverStart(area, A());
      k := 0;
      ok := Rhead(alone);
      if !ok { return; }
      ok, k := InstallRecovered(d0, tr0, alone);
      if !ok { return; }
      RecoverClear(area, d0, tr0, A());
      n := 0;
      assert block[..0] == [];
      ok := Whead(Others({}, alone));
      k := if ok then k + 1 else k;
      if ok { RecoverDone(area, d0, tr0, A(), home, t); }
    }

    /** The search loop of lwrite: the entry of a listed block, or n. */
    method FindEntry(blockno: nat) returns (i: nat)
      requires n <= |block|
      ensures i <= n && (i < n ==> block[i] == blockno) && (i == n <==> blockno !in block[..n])
    {
      i := 0;
      while i < n
        invariant 0 <= i <= n && blockno !in block[..i]
      {
        if block[i] == blockno {
          assert block[..n][i] == blockno;
          return;
        }
        assert block[..i + 1] == block[..i] + [block[i]];
        i := i + 1;
      }
    }

    /** lwrite: the held buffer's block joins the list, and is pinned, unless it is there already. It panics
        exactly when the list is full, or no operation is in progress. The caller is operation i. */
    method Lwrite(b: nat, ghost home: seq<Block>, ghost i: nat) returns (ok: bool)
      requires outstanding == |ops| && (i < |ops| || ops == [])
      requires Open(home) && b < NBUF && Holds(bc.C(), b, bc.buf[b].blockno) && !InLog(area, bc.buf[b].blockno)
      modifies this`n, this`block, this`ops, bc`buf, bc`pins
      ensures outstanding == |ops|
      ensures Open(home) && Held(bc.C()) == old(Held(bc.C())) && (old(Alone(bc.C())) ==> Alone(bc.C()))
      ensures i < |old(ops)| ==>
        LogRun.Step(area.size, old(S()), LogRun.Lwrite(i, old(bc.buf[b].blockno))) ==
        if ok then LogRun.Next(S()) else LogRun.TooBig
      ensures ok <==> old(n) < LOGSIZE && old(n) + 1 < area.size && outstanding >= 1
      ensures !ok ==> A() == old(A()) && n == old(n) && block == old(block)
      ensures ok ==> A() == old(A()).(pinned := old(A().pinned) + {old(bc.buf[b].blockno)})
      ensures ok ==> bc.buf[b].blockno == old(bc.buf[b].blockno) && Holds(bc.C(), b, bc.buf[b].blockno)
    {
      hide Ring, CleanOk, RefsOk, Idle, MapOk, TxOk;
      if n >= LOGSIZE || n + 1 >= area.size { return false; }
      if outstanding < 1 { return false; }
      var k := bc.buf[b].blockno;
      var e := FindEntry(k);
      ops := ops[i := ops[i] + 1];
      if e == n {
        Enlist(b, home);
      } else {
        block := block[e := k];
        assert block == old(block);
        assert block[..n][e] == k;
      }
      ok := true;
    }

    /** The new entry of lwrite: bpin, and one more listed block. */
    method Enlist(b: nat, ghost home: seq<Block>)
      requires Open(home) && b < NBUF && Holds(bc.C(), b, bc.buf[b].blockno) && !InLog(area, bc.buf[b].blockno)
      requires n < LOGSIZE && n + 1 < area.size && bc.buf[b].blockno !in block[..n]
      modifies this`n, this`block, bc`buf, bc`pins
      ensures Open(home) && Held(bc.C()) == old(Held(bc.C())) && (old(Alone(bc.C())) ==> Alone(bc.C()))
      ensures block[..n] == old(block[..n]) + [old(bc.buf[b].blockno)]
      ensures A() == old(A()).(pinned := old(A().pinned) + {old(bc.buf[b].blockno)})
      ensures bc.buf[b].blockno == old(bc.buf[b].blockno) && Holds(bc.C(), b, bc.buf[b].blockno)
    {
      hide Ring, CleanOk, RefsOk, Idle;
      var k := bc.buf[b].blockno;
      JoinOk(area, block[..n], k, A());
      bc.Bpin(b);
      block := block[n := k];
      n := n + 1;
      assert block[..n] == old(block[..n]) + [k];
    }

    /** Replacing a block's contents inside an operation, as bzero does: bread, change, lwrite, brelse. Readers
        see the new contents at once, the disk does not change, and the block waits in the log. */
    method Replace(k: nat, x: Block, ghost home: seq<Block>, ghost i: nat, ghost h: Others) returns (ok: bool)
      requires outstanding == |ops| && i < |ops|
      requires Ready(home, h) && k < |bc.disk| && !InLog(area, k) && k !in h.held
      modifies this`n, this`block, this`ops, bc
      ensures outstanding == |ops|
      ensures bc.Valid() && bc.disk == old(bc.disk) && bc.trace == old(bc.trace)
      ensures ok ==> Ready(home, h) && block[..n] == LogRun.Joined(old(block[..n]), k)
      ensures ok ==> A().view == old(A().view)[k := x] && A().pinned == old(A().pinned) + {k}
      ensures !ok ==> Stopped(false, h) || old(n) >= LOGSIZE || old(n) + 1 >= area.size
      ensures !ok ==> A().pinned == old(A().pinned)
    {
      hide MapOk, RefsOk, CleanOk, Ring, Idle, TxOk;
      var b;
      ok, b := bc.Bread(k);
      if !ok { return; }
      ok := LogChange(b, k, x, home, i, h);
    }

    /** The part of Replace that follows the bread. */
    method LogChange(b: nat, k: nat, x: Block, ghost home: seq<Block>, ghost i: nat, ghost h: Others)
      returns (ok: bool)
      requires outstanding == |ops| && i < |ops| && !InLog(area, k) && k !in h.held
      requires Open(home) && Among(h, {k}) && b < NBUF && Holds(bc.C(), b, k)
      modifies this`n, this`block, this`ops, bc
      ensures outstanding == |ops|
      ensures bc.Valid() && bc.disk == old(bc.disk) && bc.trace == old(bc.trace)
      ensures ok ==> Ready(home, h) && block[..n] == LogRun.Joined(old(block[..n]), k)
      ensures ok ==> k < |bc.disk| && A().view == old(A().view)[k := x] && A().pinned == old(A().pinned) + {k}
      ensures !ok ==> (old(n) >= LOGSIZE || old(n) + 1 >= area.size) && A().pinned == old(A().pinned)
    {
      hide MapOk, RefsOk, CleanOk, Ring, Idle, TxOk;
      Change(b, k, x, home, h);
      ok := Lwrite(b, home, i);
      if !ok { return; }
      ReleaseLogged(b, k, home, h);
    }

    method ReleaseLogged(b: nat, k: nat, ghost home: seq<Block>, ghost h: Others)
      requires Open(home) && Among(h, {k}) && k !in h.held && Holds(bc.C(), b, k) && k < |bc.disk|
      requires k in A().pinned && k in block[..n]
      modifies bc`buf, bc`users, bc`links, bc`ring
      ensures Ready(home, h) && A() == old(A())
    {
      hide MapOk, RefsOk, CleanOk, Ring, Idle, TxOk;
      bc.Brelse(b);
      assert h.held + {k} - {k} == h.held + {};
    }

    /** The holder of a buffer overwrites its contents. */
    method Change(b: nat, k: nat, x: Block, ghost home: seq<Block>, ghost h: Others)
      requires Open(home) && Among(h, {k}) && Holds(bc.C(), b, k)
      modifies bc`buf
      ensures Open(home) && Among(h, {k}) && Holds(bc.C(), b, k)
      ensures k < |bc.disk| && A() == old(A()).(view := old(A().view)[k := x])
    {
      hide Ring, CleanOk, RefsOk, Idle;
      bc.Modify(b, x);
    }
  }

  lemma JoinOk(a: Area, bs: seq<nat>, k: nat, c: Cache)
    requires |c.view| == |c.disk| && (forall i {:trigger bs[i]} :: 0 <= i < |bs| ==> bs[i] < |c.view|)
    requires TxOk(a, |c.disk|, Pending(bs, c.view)) && k < |c.disk| && !InLog(a, k) && k !in bs
    requires |bs| < LOGSIZE && |bs| + 1 < a.size
    ensures TxOk(a, |c.disk|, Pending(bs + [k], c.view))
  {
    var r := bs + [k];
    forall i, j | 0 <= i < j < |r| ensures Entry(r, i) != Entry(r, j) {
      if j < |bs| { assert Entry(bs, i) != Entry(bs, j); }
    }
  }
}
