/** Crash atomicity of the write-ahead log, over the exact sequence of disk writes it issues. */
module Crash {
  import opened Blocks

  /** The log area: `size` blocks from `start` on, the header first and then the log copies. */
  datatype Area = Area(start: nat, size: nat)

  predicate InLog(a: Area, b: nat) { a.start <= b < a.start + a.size }

  /** bs[i]; named so that `Distinct` is instantiated only where two entries are compared. */
  function Entry(bs: seq<nat>, i: nat): nat
    requires i < |bs|
  {
    bs[i]
  }

  predicate Distinct(bs: seq<nat>) {
    forall i, j {:trigger Entry(bs, i), Entry(bs, j)} :: 0 <= i < j < |bs| ==> Entry(bs, i) != Entry(bs, j)
  }

  /** A transaction: home block numbers and the new contents for each of them. */
  datatype Tx = Tx(bs: seq<nat>, ds: seq<Block>)

  predicate TxOk(a: Area, nblocks: nat, t: Tx) {
    && |t.bs| == |t.ds| <= LOGSIZE
    && Distinct(t.bs)
    && |t.bs| < a.size && a.start + a.size <= nblocks
    && forall i :: 0 <= i < |t.bs| ==> t.bs[i] < nblocks && !InLog(a, t.bs[i])
  }

  /** Write number i of `commit`: log copies, header, home blocks, cleared header. */
  function CommitWrite(a: Area, h: Block, t: Tx, i: nat): (w: Write)
    requires |t.bs| == |t.ds| <= LOGSIZE
  {
    var n := |t.bs|;
    if i < n then Write(a.start + i + 1, t.ds[i])
    else if i == n then Write(a.start, PutHeader(h, t.bs))
    else if i <= 2 * n then Write(t.bs[i - n - 1], t.ds[i - n - 1])
    else Write(a.start, PutHeader(PutHeader(h, t.bs), []))
  }

  /** The writes of `commit`, in order; none when nothing is logged. `h` is the header block found. */
  function CommitWrites(a: Area, h: Block, t: Tx): (ws: seq<Write>)
    requires |t.bs| == |t.ds| <= LOGSIZE
    ensures |ws| == if t.bs == [] then 0 else 2 * |t.bs| + 2
    ensures forall i :: 0 <= i < |ws| ==> ws[i] == CommitWrite(a, h, t, i)
  {
    seq(if t.bs == [] then 0 else 2 * |t.bs| + 2, i requires i >= 0 => CommitWrite(a, h, t, i))
  }

  /** The header on disk is readable and every listed block is a home block of the disk. */
  predicate Recoverable(a: Area, d: seq<Block>) {
    && 0 < a.size && a.start + a.size <= |d|
    && HeaderOk(d[a.start]) && d[a.start].words[0] < a.size
    && forall i :: 1 <= i <= d[a.start].words[0] ==> d[a.start].words[i] < |d| && !InLog(a, d[a.start].words[i])
  }

  /** The writes of `recover`: each home block is written twice, then the header is cleared. */
  function RecoverWrites(a: Area, d: seq<Block>): (ws: seq<Write>)
    requires Recoverable(a, d)
    ensures |ws| == 2 * d[a.start].words[0] + 1
  {
    var n := d[a.start].words[0];
    seq(2 * n + 1, i requires 0 <= i <= 2 * n =>
      if i < 2 * n then Write(d[a.start].words[i / 2 + 1], d[a.start + i / 2 + 1])
      else Write(a.start, PutHeader(d[a.start], [])))
  }

  // ---- the kinds of disk a crash can leave behind ----

  /** No transaction is recorded, and every block outside the log area is as in `home`. */
  ghost predicate Idle(a: Area, home: seq<Block>, d: seq<Block>) {
    && |d| == |home| && 0 < a.size && a.start + a.size <= |d|
    && HeaderIs(d[a.start], [])
    && forall b {:trigger d[b]} :: 0 <= b < |d| && !InLog(a, b) ==> d[b] == home[b]
  }

  /** `t` is recorded with its contents; each home block is still old or already new. */
  ghost predicate Recorded(a: Area, home: seq<Block>, t: Tx, d: seq<Block>) {
    && |d| == |home| && TxOk(a, |d|, t)
    && HeaderIs(d[a.start], t.bs)
    && (forall b {:trigger d[b]} :: a.start < b <= a.start + |t.bs| ==> d[b] == t.ds[b - a.start - 1])
    && (forall i {:trigger t.bs[i]} :: 0 <= i < |t.bs| ==> d[t.bs[i]] == t.ds[i] || d[t.bs[i]] == home[t.bs[i]])
    && (forall b {:trigger d[b]} :: 0 <= b < |d| && !InLog(a, b) && b !in t.bs ==> d[b] == home[b])
  }

  /** `t` has been carried out: its blocks hold the new contents and the other home blocks are as before.
      This is what one update of a plain block map would do. */
  ghost predicate Installed(a: Area, home: seq<Block>, t: Tx, home': seq<Block>) {
    && |home'| == |home| && TxOk(a, |home|, t)
    && (forall i {:trigger t.bs[i]} :: 0 <= i < |t.bs| ==> home'[t.bs[i]] == t.ds[i])
    && (forall b {:trigger home'[b]} :: 0 <= b < |home| && b !in t.bs ==> home'[b] == home[b])
  }

  /** The home blocks after transaction `t`. */
  ghost function Install(home: seq<Block>, t: Tx): (r: seq<Block>)
    requires |t.bs| == |t.ds|
    ensures |r| == |home|
  {
    seq(|home|, b requires 0 <= b < |home| =>
      if b in t.bs then var i :| 0 <= i < |t.bs| && t.bs[i] == b; t.ds[i] else home[b])
  }

  lemma InstallInstalls(a: Area, home: seq<Block>, t: Tx)
    requires TxOk(a, |home|, t)
    ensures Installed(a, home, t, Install(home, t))
  {
    forall i | 0 <= i < |t.bs| ensures Install(home, t)[t.bs[i]] == t.ds[i] {
      var j :| 0 <= j < |t.bs| && t.bs[j] == t.bs[i] && Install(home, t)[t.bs[i]] == t.ds[j];
      assert Entry(t.bs, i) == Entry(t.bs, j);
    }
  }

  // ---- single writes ----

  /** Writing one listed home block keeps the transaction recorded, and makes that block new. */
  lemma PutHome(a: Area, home: seq<Block>, t: Tx, d: seq<Block>, i: nat)
    requires Recorded(a, home, t, d) && i < |t.bs|
    ensures var d' := Put(d, Write(t.bs[i], t.ds[i]));
      && Recorded(a, home, t, d') && d'[a.start] == d[a.start] && d'[t.bs[i]] == t.ds[i]
      && forall j {:trigger t.bs[j]} :: 0 <= j < |t.bs| && d[t.bs[j]] == t.ds[j] ==> d'[t.bs[j]] == t.ds[j]
  {
    var d' := d[t.bs[i] := t.ds[i]];
    forall j | 0 <= j < |t.bs| ensures d'[t.bs[j]] == if j == i then t.ds[i] else d[t.bs[j]] {
      assert Entry(t.bs, i) == t.bs[i] && Entry(t.bs, j) == t.bs[j];
    }
  }

  /** Clearing the header of a recorded transaction whose home blocks are all new completes it. */
  lemma ClearHeader(a: Area, home: seq<Block>, t: Tx, d: seq<Block>, h: Block)
    requires Recorded(a, home, t, d)
    requires forall i {:trigger t.bs[i]} :: 0 <= i < |t.bs| ==> d[t.bs[i]] == t.ds[i]
    ensures Idle(a, Install(home, t), Put(d, Write(a.start, PutHeader(h, []))))
  {
    InstallInstalls(a, home, t);
    var r := Put(d, Write(a.start, PutHeader(h, [])));
    forall b | 0 <= b < |d| && !InLog(a, b)
      ensures r[b] == Install(home, t)[b]
    {
      if b in t.bs { var i :| 0 <= i < |t.bs| && t.bs[i] == b; }
    }
  }

  // ---- recovery ----

  lemma IdleRecovery(a: Area, home: seq<Block>, d: seq<Block>, k: nat)
    requires Idle(a, home, d) && Recoverable(a, d) && k <= |RecoverWrites(a, d)|
    ensures Idle(a, home, After(d, RecoverWrites(a, d), k))
  {
    var ws := RecoverWrites(a, d);
    assert ws[0] == Write(a.start, PutHeader(d[a.start], []));
    assert k == 1 ==> After(d, ws, 1) == Put(After(d, ws, 0), ws[0]);
  }

  /** Home writes in any order, with any repetition, keep the transaction recorded.
      Write o+i of `ws` is for entry idx[i]. */
  lemma {:induction false} HomePrefix(a: Area, home: seq<Block>, t: Tx, d: seq<Block>, ws: seq<Write>, o: nat,
      idx: seq<nat>, k: nat)
    requires o + k <= |ws| && k <= |idx| && Recorded(a, home, t, After(d, ws, o))
    requires forall i {:trigger idx[i]} :: 0 <= i < k ==>
             idx[i] < |t.bs| && ws[o + i] == Write(t.bs[idx[i]], t.ds[idx[i]])
    ensures Recorded(a, home, t, After(d, ws, o + k))
    ensures forall i {:trigger idx[i]} :: 0 <= i < k ==> After(d, ws, o + k)[t.bs[idx[i]]] == t.ds[idx[i]]
    decreases k
  {
    if k > 0 {
      HomePrefix(a, home, t, d, ws, o, idx, k - 1);
      PutHome(a, home, t, After(d, ws, o + k - 1), idx[k - 1]);
    }
  }

  lemma RecordedRecoverable(a: Area, home: seq<Block>, t: Tx, d: seq<Block>)
    requires Recorded(a, home, t, d)
    ensures Recoverable(a, d) && |RecoverWrites(a, d)| == 2 * |t.bs| + 1
    ensures forall i :: 0 <= i < 2 * |t.bs| ==> RecoverWrites(a, d)[i] == Write(t.bs[i / 2], t.ds[i / 2])
  {
  }

  /** Home writes issued twice each: after k of them the first k/2 home blocks are new. */
  lemma DoubledPrefix(a: Area, home: seq<Block>, t: Tx, d: seq<Block>, ws: seq<Write>, k: nat)
    requires Recorded(a, home, t, d) && k <= 2 * |t.bs| <= |ws|
    requires forall i {:trigger ws[i]} :: 0 <= i < 2 * |t.bs| ==> ws[i] == Write(t.bs[i / 2], t.ds[i / 2])
    ensures Recorded(a, home, t, After(d, ws, k))
    ensures forall i {:trigger t.bs[i]} :: 0 <= i < k / 2 ==> After(d, ws, k)[t.bs[i]] == t.ds[i]
  {
    var idx := seq(k, i requires 0 <= i < k => i / 2);
    HomePrefix(a, home, t, d, ws, 0, idx, k);
    forall i | 0 <= i < k / 2 ensures After(d, ws, k)[t.bs[i]] == t.ds[i] { assert idx[2 * i] == i; }
  }

  /** Home writes issued once each from write o on: after k of them the first k home blocks are new. */
  lemma SinglePrefix(a: Area, home: seq<Block>, t: Tx, d: seq<Block>, ws: seq<Write>, o: nat, k: nat)
    requires k <= |t.bs| && o + k <= |ws| && Recorded(a, home, t, After(d, ws, o))
    requires forall i {:trigger ws[i]} :: o <= i < o + k ==> ws[i] == Write(t.bs[i - o], t.ds[i - o])
    ensures Recorded(a, home, t, After(d, ws, o + k))
    ensures forall i {:trigger t.bs[i]} :: 0 <= i < k ==> After(d, ws, o + k)[t.bs[i]] == t.ds[i]
  {
    var idx := seq(k, i requires 0 <= i < k => i);
    HomePrefix(a, home, t, d, ws, o, idx, k);
    forall i | 0 <= i < k ensures After(d, ws, o + k)[t.bs[i]] == t.ds[i] { assert idx[i] == i; }
  }

  /** A recovery stopped before its last write leaves the transaction recorded. */
  lemma RecordedPrefix(a: Area, home: seq<Block>, t: Tx, d: seq<Block>, k: nat)
    requires Recorded(a, home, t, d) && Recoverable(a, d) && k < |RecoverWrites(a, d)|
    ensures Recorded(a, home, t, After(d, RecoverWrites(a, d), k))
  {
    RecordedRecoverable(a, home, t, d);
    DoubledPrefix(a, home, t, d, RecoverWrites(a, d), k);
  }

  /** The write that clears the header, once all home blocks are new, ends the transaction. */
  lemma LastWrite(a: Area, home: seq<Block>, d: seq<Block>, t: Tx, ws: seq<Write>, n: nat, h: Block)
    requires n < |ws| && ws[n] == Write(a.start, PutHeader(h, []))
    requires Recorded(a, home, t, After(d, ws, n))
    requires forall i {:trigger t.bs[i]} :: 0 <= i < |t.bs| ==> After(d, ws, n)[t.bs[i]] == t.ds[i]
    ensures Idle(a, Install(home, t), After(d, ws, n + 1))
  {
    ClearHeader(a, home, t, After(d, ws, n), h);
  }

  lemma RecordedFull(a: Area, home: seq<Block>, t: Tx, d: seq<Block>)
    requires Recorded(a, home, t, d) && Recoverable(a, d)
    ensures Idle(a, Install(home, t), After(d, RecoverWrites(a, d), |RecoverWrites(a, d)|))
  {
    RecordedRecoverable(a, home, t, d);
    var ws := RecoverWrites(a, d);
    var n := 2 * |t.bs|;
    DoubledPrefix(a, home, t, d, ws, n);
    LastWrite(a, home, d, t, ws, n, d[a.start]);
  }

  function Min(a: nat, b: nat): nat { if a <= b then a else b }

  /** Recoveries that each crash after the given number of writes. */
  ghost function CrashedRecoveries(a: Area, d: seq<Block>, ks: seq<nat>): (r: seq<Block>)
    ensures |r| == |d|
    decreases |ks|
  {
    if ks == [] || !Recoverable(a, d) then d else
      var ws := RecoverWrites(a, d);
      CrashedRecoveries(a, After(d, ws, Min(ks[0], |ws|)), ks[1..])
  }

  /** The disk after those crashed recoveries and one that runs to its end. */
  ghost function Recovered(a: Area, d: seq<Block>, ks: seq<nat>): (r: seq<Block>)
    requires Recoverable(a, CrashedRecoveries(a, d, ks))
  {
    var d' := CrashedRecoveries(a, d, ks);
    After(d', RecoverWrites(a, d'), |RecoverWrites(a, d')|)
  }

  lemma {:induction false} IdleRecovers(a: Area, home: seq<Block>, d: seq<Block>, ks: seq<nat>)
    requires Idle(a, home, d)
    ensures Recoverable(a, CrashedRecoveries(a, d, ks))
    ensures Idle(a, home, Recovered(a, d, ks))
    decreases |ks|
  {
    var ws := RecoverWrites(a, d);
    if ks == [] {
      IdleRecovery(a, home, d, |ws|);
    } else {
      var k := Min(ks[0], |ws|);
      IdleRecovery(a, home, d, k);
      IdleRecovers(a, home, After(d, ws, k), ks[1..]);
    }
  }

  lemma {:induction false} RecordedRecovers(a: Area, home: seq<Block>, t: Tx, d: seq<Block>, ks: seq<nat>)
    requires Recorded(a, home, t, d)
    ensures Recoverable(a, CrashedRecoveries(a, d, ks))
    ensures Idle(a, Install(home, t), Recovered(a, d, ks))
    decreases |ks|
  {
    RecordedRecoverable(a, home, t, d);
    var ws := RecoverWrites(a, d);
    if ks == [] {
      RecordedFull(a, home, t, d);
    } else if ks[0] < |ws| {
      RecordedPrefix(a, home, t, d, ks[0]);
      RecordedRecovers(a, home, t, After(d, ws, ks[0]), ks[1..]);
    } else {
      RecordedFull(a, home, t, d);
      IdleRecovers(a, Install(home, t), After(d, ws, |ws|), ks[1..]);
    }
  }

  // ---- commit ----

  /** Before its header write, `commit` touches only the log area. */
  lemma {:induction false} CommitLogPrefix(a: Area, home: seq<Block>, d: seq<Block>, t: Tx, k: nat)
    requires Idle(a, home, d) && TxOk(a, |d|, t) && t.bs != [] && k <= |t.bs|
    ensures var d' := After(d, CommitWrites(a, d[a.start], t), k);
      && Idle(a, home, d') && d'[a.start] == d[a.start]
      && forall b {:trigger d'[b]} :: a.start < b <= a.start + k ==> d'[b] == t.ds[b - a.start - 1]
    decreases k
  {
    if k > 0 { CommitLogPrefix(a, home, d, t, k - 1); }
  }

  /** Once the log copies are in place, writing the header records the transaction. */
  lemma PutRecord(a: Area, home: seq<Block>, d: seq<Block>, t: Tx, h: Block)
    requires Idle(a, home, d) && TxOk(a, |d|, t)
    requires forall b {:trigger d[b]} :: a.start < b <= a.start + |t.bs| ==> d[b] == t.ds[b - a.start - 1]
    ensures Recorded(a, home, t, Put(d, Write(a.start, PutHeader(h, t.bs))))
  {
  }

  /** The header write records the transaction. */
  lemma CommitHeader(a: Area, home: seq<Block>, d: seq<Block>, t: Tx)
    requires Idle(a, home, d) && TxOk(a, |d|, t) && t.bs != []
    ensures Recorded(a, home, t, After(d, CommitWrites(a, d[a.start], t), |t.bs| + 1))
  {
    var ws := CommitWrites(a, d[a.start], t);
    CommitLogPrefix(a, home, d, t, |t.bs|);
    PutRecord(a, home, After(d, ws, |t.bs|), t, d[a.start]);
  }

  /** From the header write until it is cleared, the transaction is recorded. */
  lemma CommitHomePrefix(a: Area, home: seq<Block>, d: seq<Block>, t: Tx, k: nat)
    requires Idle(a, home, d) && TxOk(a, |d|, t) && t.bs != [] && k <= |t.bs|
    ensures var d' := After(d, CommitWrites(a, d[a.start], t), |t.bs| + 1 + k);
      Recorded(a, home, t, d') && forall i {:trigger t.bs[i]} :: 0 <= i < k ==> d'[t.bs[i]] == t.ds[i]
  {
    var ws := CommitWrites(a, d[a.start], t);
    CommitHeader(a, home, d, t);
    SinglePrefix(a, home, t, d, ws, |t.bs| + 1, k);
  }

  /** The header block stays as written until it is cleared. */
  lemma {:induction false} CommitHeaderStays(a: Area, d: seq<Block>, t: Tx, k: nat)
    requires TxOk(a, |d|, t) && t.bs != [] && k <= |t.bs|
    ensures After(d, CommitWrites(a, d[a.start], t), |t.bs| + 1 + k)[a.start] == PutHeader(d[a.start], t.bs)
    decreases k
  {
    if k > 0 { CommitHeaderStays(a, d, t, k - 1); }
  }

  lemma CommitFull(a: Area, home: seq<Block>, d: seq<Block>, t: Tx)
    requires Idle(a, home, d) && TxOk(a, |d|, t)
    ensures var ws := CommitWrites(a, d[a.start], t);
      Idle(a, Install(home, t), After(d, ws, |ws|))
  {
    var ws := CommitWrites(a, d[a.start], t);
    if t.bs == [] {
      InstallInstalls(a, home, t);
    } else {
      hide Recorded;
      CommitHomePrefix(a, home, d, t, |t.bs|);
      var n := 2 * |t.bs| + 1;
      assert |ws| == n + 1;
      LastWrite(a, home, d, t, ws, n, PutHeader(d[a.start], t.bs));
    }
  }

  /** The transaction survives exactly when its header write, write number |bs|, reached the disk. */
  predicate HeaderReached(t: Tx, k: nat) { t.bs != [] && k > |t.bs| }

  /** Crash atomicity: stop `commit` after any k of its writes, then let any number of recoveries crash
      wherever they like; the next complete recovery leaves every block outside the log area all old, or
      all new, and it is all new exactly when the first header write reached the disk. */
  lemma CommitCrashAtomic(a: Area, home: seq<Block>, d: seq<Block>, t: Tx, k: nat, ks: seq<nat>)
    requires Idle(a, home, d) && TxOk(a, |d|, t)
    requires k <= |CommitWrites(a, d[a.start], t)|
    ensures var d' := After(d, CommitWrites(a, d[a.start], t), k);
      && Recoverable(a, CrashedRecoveries(a, d', ks))
      && Idle(a, if HeaderReached(t, k) then Install(home, t) else home, Recovered(a, d', ks))
  {
    var ws := CommitWrites(a, d[a.start], t);
    var d' := After(d, ws, k);
    if t.bs == [] {
      IdleRecovers(a, home, d', ks);
    } else if k <= |t.bs| {
      CommitLogPrefix(a, home, d, t, k);
      IdleRecovers(a, home, d', ks);
    } else if k < |ws| {
      CommitHomePrefix(a, home, d, t, k - |t.bs| - 1);
      RecordedRecovers(a, home, t, d', ks);
    } else {
      CommitFull(a, home, d, t);
      IdleRecovers(a, Install(home, t), d', ks);
    }
  }

  // ---- a whole run of transactions ----

  predicate RunOk(a: Area, nblocks: nat, ts: seq<Tx>) {
    forall i :: 0 <= i < |ts| ==> TxOk(a, nblocks, ts[i])
  }

  /** The home blocks after the first i transactions of a run. */
  ghost function InstallAll(home: seq<Block>, ts: seq<Tx>, i: nat): (r: seq<Block>)
    requires i <= |ts| && forall i :: 0 <= i < |ts| ==> |ts[i].bs| == |ts[i].ds|
    ensures |r| == |home|
  {
    if i == 0 then home else Install(InstallAll(home, ts, i - 1), ts[i - 1])
  }

  /** The disk after the first i transactions of a run have been committed to their end. */
  ghost function RunDisk(a: Area, d: seq<Block>, ts: seq<Tx>, i: nat): (r: seq<Block>)
    requires i <= |ts| && a.start < |d| && RunOk(a, |d|, ts)
    ensures |r| == |d|
  {
    if i == 0 then d else
      var p := RunDisk(a, d, ts, i - 1);
      var ws := CommitWrites(a, p[a.start], ts[i - 1]);
      After(p, ws, |ws|)
  }

  lemma {:induction false} RunIdle(a: Area, home: seq<Block>, d: seq<Block>, ts: seq<Tx>, i: nat)
    requires Idle(a, home, d) && RunOk(a, |d|, ts) && i <= |ts|
    ensures Idle(a, InstallAll(home, ts, i), RunDisk(a, d, ts, i))
  {
    if i > 0 {
      RunIdle(a, home, d, ts, i - 1);
      CommitFull(a, InstallAll(home, ts, i - 1), RunDisk(a, d, ts, i - 1), ts[i - 1]);
    }
  }

  /** Stop a run of any number of transactions after k writes of transaction i, and let recoveries crash
      as they like: the next complete recovery leaves exactly the first i transactions installed, or the
      first i+1 if the header write of transaction i reached the disk; no transaction is there in part. */
  lemma RunCrashAtomic(a: Area, home: seq<Block>, d: seq<Block>, ts: seq<Tx>, i: nat, k: nat, ks: seq<nat>)
    requires Idle(a, home, d) && RunOk(a, |d|, ts) && i < |ts|
    requires k <= |CommitWrites(a, RunDisk(a, d, ts, i)[a.start], ts[i])|
    ensures var p := RunDisk(a, d, ts, i);
      var d' := After(p, CommitWrites(a, p[a.start], ts[i]), k);
      && Recoverable(a, CrashedRecoveries(a, d', ks))
      && Idle(a, InstallAll(home, ts, if HeaderReached(ts[i], k) then i + 1 else i), Recovered(a, d', ks))
  {
    RunIdle(a, home, d, ts, i);
    CommitCrashAtomic(a, InstallAll(home, ts, i), RunDisk(a, d, ts, i), ts[i], k, ks);
  }
}
