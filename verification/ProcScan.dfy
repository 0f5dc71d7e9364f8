/** The two panics that calls can reach: fork when alloc_proc finds no free slot, and exit by init. */
module ProcScan {

  import opened Threads
  import opened Proc
  import opened ProcRun

  // ---- how a scan for a free slot moves ----

  /** The slot a scan for a free slot has come to, or -1. */
  function Scanning(p: PC): int {
    match Under(p)
    case ForkScan(j) => j case ForkHeld(j) => j
    case _ => -1
  }

  /** From s to g, thread t begins a scan, stays in it, or passes a slot that it looks at and finds in use. */
  predicate ScanMove(s: State, g: State, t: nat) {
    && |g.pc| == |s.pc| && |g.procs| == |s.procs|
    && (t < |g.pc| && Scanning(g.pc[t]) >= 0 && g.pc[t] != ForkScan(0) ==>
          || Scanning(g.pc[t]) == Scanning(s.pc[t])
          || (s.pc[t].ForkHeld? && s.pc[t].j < |s.procs| && s.procs[s.pc[t].j].status != UNUSED &&
              Scanning(g.pc[t]) == s.pc[t].j + 1))
  }

  lemma SchedMove(s: State, c: nat, p: PC, a: Act, t: nat)
    requires Running(s, c) && ThreadOk(s, s.cur[c]) && s.pc[s.cur[c]] == p && StepSched(s, c, p, a).Next?
    ensures ScanMove(s, StepSched(s, c, p, a).s, t)
  {
    hide Holding;
  }

  lemma KernelMove(s: State, c: nat, a: Act, t: nat)
    requires Running(s, c) && s.cur[c] < |s.procs| && s.pc[s.cur[c]] == Kernel && StepKernel(s, c, a).Next?
    ensures ScanMove(s, StepKernel(s, c, a).s, t)
  {}

  lemma WakeMove(s: State, c: nat, p: PC, on: bool, t: nat)
    requires Running(s, c) && ThreadOk(s, s.cur[c]) && s.pc[s.cur[c]] == p && StepWake(s, c, p, on).Next?
    ensures ScanMove(s, StepWake(s, c, p, on).s, t)
  {
    hide Holding;
  }

  lemma ExitMove(s: State, c: nat, p: PC, on: bool, t: nat)
    requires Running(s, c) && s.cur[c] < |s.procs| && s.pc[s.cur[c]] == p && StepExit(s, c, p, on).Next?
    ensures ScanMove(s, StepExit(s, c, p, on).s, t)
  {}

  lemma WaitMove(s: State, c: nat, p: PC, ok: bool, on: bool, t: nat)
    requires Running(s, c) && s.cur[c] < |s.procs| && s.pc[s.cur[c]] == p && StepWait(s, c, p, ok, on).Next?
    ensures ScanMove(s, StepWait(s, c, p, ok, on).s, t)
  {}

  lemma SleepMove(s: State, c: nat, p: PC, on: bool, t: nat)
    requires Running(s, c) && ThreadOk(s, s.cur[c]) && s.cur[c] < |s.procs| && s.pc[s.cur[c]] == p
    requires StepSleep(s, c, p, on).Next?
    ensures ScanMove(s, StepSleep(s, c, p, on).s, t)
  {
    hide Holding;
  }

  lemma ForkMove(s: State, c: nat, p: PC, ok: bool, on: bool, t: nat)
    requires Running(s, c) && s.pc[s.cur[c]] == p && StepFork(s, c, p, ok, on).Next?
    ensures ScanMove(s, StepFork(s, c, p, ok, on).s, t)
  {
    if p.ForkHeld? {
      assert ScanMove(s, StepFork(s, c, p, ok, on).s, t);
    }
  }

  lemma StepMove(s: State, c: nat, a: Act, t: nat)
    requires Inv(s) && Running(s, c) && Step(s, c, a).Next?
    ensures ScanMove(s, Step(s, c, a).s, t)
  {
    hide Inv, ThreadOk, StepSched, StepKernel, StepWake, StepExit, StepWait, StepSleep, StepFork, ScanMove;
    var p := s.pc[s.cur[c]];
    AtHand(s, c);
    if OfSched(p) && !p.WakeScan? && !p.WakeHeld? {
      SchedMove(s, c, p, a, t);
    } else if p.Kernel? && s.cur[c] < |s.procs| {
      KernelMove(s, c, a, t);
    } else if a.Yield? {
      YieldMove(s, c, p, t);
    } else if p.WakeScan? || p.WakeHeld? || p.KillHeld? {
      WakeMove(s, c, p, a.on, t);
    } else if p.ExitReparent? || p.ExitOwn? || p.ExitSet? || p.ExitRel? {
      ExitMove(s, c, p, a.on, t);
    } else if p.WaitScan? || p.WaitHeld? || p.WaitFreed? || p.WaitDone? {
      WaitMove(s, c, p, a.ok, a.on, t);
    } else if p.ForkRet? || p.YieldSet? || p.SleepRel? || p.SleepSet? || p.Sched? || p.Back? || p.SleepAcq? {
      SleepMove(s, c, p, a.on, t);
    } else {
      ForkMove(s, c, p, a.ok, a.on, t);
    }
  }

  lemma YieldMove(s: State, c: nat, p: PC, t: nat)
    requires Running(s, c) && s.cur[c] < |s.procs| && s.pc[s.cur[c]] == p && YieldOk(p, |s.procs|, |s.lock|)
    requires AcquireP(s, c, s.cur[c], YieldSet(p)).Next?
    ensures ScanMove(s, AcquireP(s, c, s.cur[c], YieldSet(p)).s, t)
  {}

  /** Between states m and k of a run, thread t looked at slot i, under its lock, and found it in use. */
  ghost predicate LookedAt(tr: seq<State>, m: nat, k: nat, t: nat, i: nat) {
    exists x :: m <= x <= k && x < |tr| && Sized(tr[x]) && t < |tr[x].pc| && i < |tr[x].procs| &&
      tr[x].pc[t] == ForkHeld(i) && tr[x].procs[i].status != UNUSED
  }

  /** In every run, a scan has looked at every slot it has passed and found it in use. */
  lemma {:induction false} Looked(tr: seq<State>, np: nat, nc: nat, nl: nat, k: nat, t: nat) returns (m: nat)
    requires np > INIT && nl > WAIT && IsRun(tr, np, nc, nl) && k < |tr| && t < |tr[k].pc|
    requires Scanning(tr[k].pc[t]) >= 0
    ensures m <= k && t < |tr[m].pc| && tr[m].pc[t] == ForkScan(0)
    ensures forall i :: 0 <= i < Scanning(tr[k].pc[t]) ==> LookedAt(tr, m, k, t, i)
  {
    hide Inv, Step;
    if tr[k].pc[t] == ForkScan(0) {
      m := k;
    } else {
      assert k > 0;
      RunInv(tr, np, nc, nl, k - 1);
      assert Moves(tr[k - 1], tr[k]);
      var c: nat, a: Act :| Running(tr[k - 1], c) && Step(tr[k - 1], c, a) == Next(tr[k]);
      StepMove(tr[k - 1], c, a, t);
      m := Looked(tr, np, nc, nl, k - 1, t);
      forall i | 0 <= i < Scanning(tr[k].pc[t]) ensures LookedAt(tr, m, k, t, i) {
        if i < Scanning(tr[k - 1].pc[t]) {
          assert LookedAt(tr, m, k - 1, t, i);
        }
      }
    }
  }

  /** When fork panics for want of a slot, and when exit panics. */
  lemma PanicsExactly(s: State, c: nat, a: Act)
    requires Inv(s) && Running(s, c)
    ensures Step(s, c, a) == NoProc <==> a.Go? && s.pc[s.cur[c]] == ForkScan(|s.procs|)
    ensures Step(s, c, a) == InitExits <==>
              a.Exit? && s.pc[s.cur[c]] == Kernel && s.cur[c] == INIT && s.held[s.cur[c]] == {}
  {
    hide Inv;
    AtHand(s, c);
  }

  /** A thread inside a routine can always go on, unless it waits for a lock that another CPU holds: only kernel code
      between calls, and a handler in the idle loop that still holds a lock, have no next step of their own. */
  lemma GoesOn(s: State, c: nat, ok: bool, on: bool)
    requires Inv(s) && Running(s, c)
    ensures var p := s.pc[s.cur[c]];
            Step(s, c, Go(ok, on)) == Refused <==> p.Kernel? || (p.SLoop? && s.held[s.cur[c]] != {})
  {
    hide Inv, Holding;
    AtHand(s, c);
    if s.pc[s.cur[c]].ExitReparent? { HasParent(s, c); }
  }

  lemma HasParent(s: State, c: nat)
    requires Inv(s) && Running(s, c) && s.pc[s.cur[c]].ExitReparent?
    ensures s.cur[c] < |s.procs| && s.procs[s.cur[c]].parent >= 0
  {
    var t := s.cur[c];
    assert ThreadOk(s, t) && LifeOk(s, t);
    assert ProcOk(s, t) && FamilyOk(s, t);
  }

  ghost predicate StaysUnused(tr: seq<State>, m: nat, k: nat, i: nat) {
    forall x :: m <= x <= k && x < |tr| && i < |tr[x].procs| ==> tr[x].procs[i].status == UNUSED
  }

  /** fork panics only if, since its scan began, it has seen every slot in use: never while one stays UNUSED. */
  lemma NoProcMeans(tr: seq<State>, np: nat, nc: nat, nl: nat, k: nat, c: nat, a: Act) returns (m: nat)
    requires np > INIT && nl > WAIT && IsRun(tr, np, nc, nl) && k < |tr| && Running(tr[k], c)
    requires Step(tr[k], c, a) == NoProc
    ensures m <= k && tr[k].cur[c] < |tr[m].pc| && tr[m].pc[tr[k].cur[c]] == ForkScan(0)
    ensures forall i :: 0 <= i < |tr[k].procs| ==> LookedAt(tr, m, k, tr[k].cur[c], i)
    ensures forall i :: 0 <= i < |tr[k].procs| ==> !StaysUnused(tr, m, k, i)
  {
    hide Inv, Step;
    RunInv(tr, np, nc, nl, k);
    PanicsExactly(tr[k], c, a);
    m := Looked(tr, np, nc, nl, k, tr[k].cur[c]);
    forall i | 0 <= i < |tr[k].procs| ensures !StaysUnused(tr, m, k, i) {
      assert LookedAt(tr, m, k, tr[k].cur[c], i);
    }
  }

  // ---- both panics are reached, whatever the size of the table ----

  ghost predicate Reachable(s: State, np: nat, nc: nat, nl: nat)
    requires np > INIT && nl > WAIT
  {
    exists tr :: IsRun(tr, np, nc, nl) && tr[|tr| - 1] == s
  }

  lemma Onward(s: State, c: nat, a: Act, g: State, np: nat, nc: nat, nl: nat)
    requires np > INIT && nl > WAIT && Reachable(s, np, nc, nl) && Running(s, c) && Step(s, c, a) == Next(g)
    ensures Reachable(g, np, nc, nl)
  {
    hide Step, Boot;
    var tr :| IsRun(tr, np, nc, nl) && tr[|tr| - 1] == s;
    var longer := tr + [g];
    forall k | 0 < k < |longer| ensures Moves(longer[k - 1], longer[k]) {
      if k < |tr| { assert Moves(tr[k - 1], tr[k]); }
    }
    assert IsRun(longer, np, nc, nl);
  }

  lemma ReachableInv(s: State, np: nat, nc: nat, nl: nat)
    requires np > INIT && nl > WAIT && Reachable(s, np, nc, nl)
    ensures Inv(s)
  {
    hide Inv, Moves, Boot;
    var tr :| IsRun(tr, np, nc, nl) && tr[|tr| - 1] == s;
    RunInv(tr, np, nc, nl, |tr| - 1);
  }

  /** Init is on CPU 0, at p, and every lock is free. */
  predicate Alone(s: State, p: PC) {
    && Sized(s) && |s.cur| > 0 && s.cur[0] == INIT && s.pc[INIT] == p && s.held[INIT] == {}
    && (forall i :: 0 <= i < |s.plock| ==> s.plock[i] == -1) && (forall l :: 0 <= l < |s.lock| ==> s.lock[l] == -1)
  }

  /** The first n slots are in use. */
  predicate Full(s: State, n: nat) {
    forall i :: 0 <= i < |s.procs| ==> (s.procs[i].status != UNUSED <==> i < n)
  }

  lemma ScanOne(s: State, j: nat, np: nat, nc: nat, nl: nat) returns (g: State)
    requires np > INIT && nl > WAIT && Reachable(s, np, nc, nl) && Alone(s, ForkScan(j)) && j < |s.procs|
    requires s.procs[j].status != UNUSED
    ensures Reachable(g, np, nc, nl) && Alone(g, ForkScan(j + 1)) && g.procs == s.procs
  {
    hide Reachable, Inv, IsRun;
    var a := Go(true, true);
    var s1 := TakeP(s, 0, j, ForkHeld(j));
    assert Step(s, 0, a) == Next(s1);
    Onward(s, 0, a, s1, np, nc, nl);
    ReachableInv(s1, np, nc, nl);
    StepOk(s1, 0, a);
    g := DropP(s1, 0, j, ForkScan(j + 1), true);
    assert Step(s1, 0, a) == Next(g);
    Onward(s1, 0, a, g, np, nc, nl);
  }

  lemma {:induction false} ScanTo(s: State, j: nat, n: nat, np: nat, nc: nat, nl: nat) returns (g: State)
    requires np > INIT && nl > WAIT && Reachable(s, np, nc, nl) && Alone(s, ForkScan(j))
    requires j <= n <= |s.procs| && Full(s, n)
    ensures Reachable(g, np, nc, nl) && Alone(g, ForkScan(n)) && g.procs == s.procs
    decreases n - j
  {
    hide Reachable;
    g := s;
    if j < n {
      g := ScanOne(s, j, np, nc, nl);
      g := ScanTo(g, j + 1, n, np, nc, nl);
    }
  }

  /** Thread INIT takes slot n, gives up its lock, and takes wait_lock. */
  lemma ForkTakes(s: State, n: nat, np: nat, nc: nat, nl: nat) returns (g: State)
    requires np > INIT && nl > WAIT && Reachable(s, np, nc, nl) && Alone(s, ForkScan(n)) && n < |s.procs|
    requires Full(s, n)
    ensures Reachable(g, np, nc, nl) && Alone(g, ForkLink(n)) && Full(g, n + 1) && |g.procs| == |s.procs|
  {
    hide Reachable, Inv, IsRun;
    var a := Go(true, true);
    var s1 := TakeP(s, 0, n, ForkHeld(n));
    assert Step(s, 0, a) == Next(s1);
    Onward(s, 0, a, s1, np, nc, nl);
    var s2 := Take(s1, 0, n);
    assert Step(s1, 0, a) == Next(s2);
    Onward(s1, 0, a, s2, np, nc, nl);
    ReachableInv(s2, np, nc, nl);
    StepOk(s2, 0, a);
    g := DropP(s2, 0, n, ForkLink(n), true);
    assert Step(s2, 0, a) == Next(g);
    Onward(s2, 0, a, g, np, nc, nl);
  }

  lemma ForkLinks(s: State, n: nat, np: nat, nc: nat, nl: nat) returns (g: State)
    requires np > INIT && nl > WAIT && Reachable(s, np, nc, nl) && Alone(s, ForkLink(n)) && n < |s.procs|
    requires Full(s, n + 1)
    ensures Reachable(g, np, nc, nl) && Alone(g, ForkReady(n)) && Full(g, n + 1) && |g.procs| == |s.procs|
  {
    hide Reachable, Inv, IsRun;
    var a := Go(true, true);
    var s1 := TakeL(s, 0, WAIT, ForkParent(n));
    assert Step(s, 0, a) == Next(s1);
    Onward(s, 0, a, s1, np, nc, nl);
    var s2 := SetProc(Goto(s1, 0, ForkUnwait(n)), n, s1.procs[n].(parent := s1.cur[0]));
    assert Step(s1, 0, a) == Next(s2);
    Onward(s1, 0, a, s2, np, nc, nl);
    ReachableInv(s2, np, nc, nl);
    StepOk(s2, 0, a);
    g := DropL(s2, 0, WAIT, ForkReady(n), true);
    assert Step(s2, 0, a) == Next(g);
    Onward(s2, 0, a, g, np, nc, nl);
  }

  lemma ForkReadies(s: State, n: nat, np: nat, nc: nat, nl: nat) returns (g: State)
    requires np > INIT && nl > WAIT && Reachable(s, np, nc, nl) && Alone(s, ForkReady(n)) && n < |s.procs|
    requires Full(s, n + 1)
    ensures Reachable(g, np, nc, nl) && Alone(g, Kernel) && Full(g, n + 1) && |g.procs| == |s.procs|
  {
    hide Reachable, Inv, IsRun;
    var a := Go(true, true);
    var s1 := TakeP(s, 0, n, ForkRun(n));
    assert Step(s, 0, a) == Next(s1);
    Onward(s, 0, a, s1, np, nc, nl);
    var s2 := SetProc(Goto(s1, 0, ForkEnd(n)), n, s1.procs[n].(status := RUNNABLE));
    assert Step(s1, 0, a) == Next(s2);
    Onward(s1, 0, a, s2, np, nc, nl);
    ReachableInv(s2, np, nc, nl);
    StepOk(s2, 0, a);
    g := DropP(s2, 0, n, Kernel, true);
    assert Step(s2, 0, a) == Next(g);
    Onward(s2, 0, a, g, np, nc, nl);
  }

  /** Init starts. */
  lemma Started(np: nat, nc: nat, nl: nat) returns (g: State)
    requires np > INIT && nc > 0 && nl > WAIT
    ensures Reachable(g, np, nc, nl) && Alone(g, Kernel) && Full(g, 1) && |g.procs| == np
  {
    hide Inv, Reachable, IsRun;
    var a, s := Go(true, true), Boot(np, nc, nl);
    assert Reachable(s, np, nc, nl) by { BootReachable(np, nc, nl); }
    var s1 := TakeP(s, 0, INIT, SHeld(INIT));
    assert Step(s, 0, a) == Next(s1);
    Onward(s, 0, a, s1, np, nc, nl);
    var s2 := Mark(s1, 0, INIT);
    assert Step(s1, 0, a) == Next(s2);
    Onward(s1, 0, a, s2, np, nc, nl);
    var s3 := Point(s2, 0, INIT, SPoint(INIT));
    assert Step(s2, 0, a) == Next(s3);
    Onward(s2, 0, a, s3, np, nc, nl);
    var s4 := SwitchIn(s3, 0, INIT);
    assert Step(s3, 0, a) == Next(s4);
    Onward(s3, 0, a, s4, np, nc, nl);
    g := DropP(s4, 0, INIT, Kernel, true);
    assert Step(s4, 0, a) == Next(g);
    Onward(s4, 0, a, g, np, nc, nl);
  }

  lemma BootReachable(np: nat, nc: nat, nl: nat)
    requires np > INIT && nl > WAIT
    ensures Reachable(Boot(np, nc, nl), np, nc, nl)
  {
    hide Boot;
    assert IsRun([Boot(np, nc, nl)], np, nc, nl);
  }

  /** Init forks until n slots are in use. */
  lemma {:induction false} Filled(n: nat, np: nat, nc: nat, nl: nat) returns (g: State)
    requires np > INIT && nc > 0 && nl > WAIT && 0 < n <= np
    ensures Reachable(g, np, nc, nl) && Alone(g, Kernel) && Full(g, n) && |g.procs| == np
  {
    hide Reachable;
    if n == 1 {
      g := Started(np, nc, nl);
    } else {
      g := Filled(n - 1, np, nc, nl);
      g := ForkBegins(g, np, nc, nl);
      g := ScanTo(g, 0, n - 1, np, nc, nl);
      g := ForkTakes(g, n - 1, np, nc, nl);
      g := ForkLinks(g, n - 1, np, nc, nl);
      g := ForkReadies(g, n - 1, np, nc, nl);
    }
  }

  lemma ForkBegins(s: State, np: nat, nc: nat, nl: nat) returns (g: State)
    requires np > INIT && nl > WAIT && Reachable(s, np, nc, nl) && Alone(s, Kernel)
    ensures Reachable(g, np, nc, nl) && Alone(g, ForkScan(0)) && g.procs == s.procs
  {
    hide Reachable;
    g := Goto(s, 0, ForkScan(0));
    assert Step(s, 0, Fork) == Next(g);
    Onward(s, 0, Fork, g, np, nc, nl);
  }

  /** On every machine, some run leads to fork's panic and some run to that of exit. */
  lemma PanicsReached(np: nat, nc: nat, nl: nat)
    requires np > INIT && nc > 0 && nl > WAIT
    ensures exists s, c, a :: Reachable(s, np, nc, nl) && Running(s, c) && Step(s, c, a) == NoProc
    ensures exists s, c, a :: Reachable(s, np, nc, nl) && Running(s, c) && Step(s, c, a) == InitExits
  {
    hide Reachable;
    var s := Started(np, nc, nl);
    assert Step(s, 0, Exit) == InitExits;
    var g := Filled(np, np, nc, nl);
    g := ForkBegins(g, np, nc, nl);
    g := ScanTo(g, 0, np, np, nc, nl);
    assert Step(g, 0, Go(true, true)) == NoProc;
  }
}
