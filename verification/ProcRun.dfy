/** fork, exit and wait, the whole step relation, and what holds in every run. */
module ProcRun {

  import opened Threads
  import opened Proc

  // ---- fork ----

  /** alloc_proc takes a free slot. */
  function Take(s: State, c: nat, j: nat): State
    requires Running(s, c) && j < |s.procs|
  {
    SetProc(Goto(s, c, ForkMade(j)), j, s.procs[j].(status := USED)).(maker := s.maker[j := s.cur[c]])
  }

  lemma ForkCore(s: State, c: nat, j: nat, p: PC, q: Slot)
    requires Core(s) && Running(s, c) && j < |s.procs|
    requires var o := s.pc[s.cur[c]];
             || (p == ForkMade(j) && o == ForkHeld(j)) || (p == ForkUnwait(j) && o == ForkParent(j))
             || (p == ForkEnd(j) && (o == ForkMade(j) || o == ForkRun(j)))
    ensures Core(SetProc(Goto(s, c, p), j, q)) && s.cur[c] < |s.procs|
  {
    hide PLockOk, LockOk;
    assert ThreadOk(s, s.cur[c]) && CpuOk(s, c);
    GotoCore(s, c, p);
    SetProcCore(Goto(s, c, p), SetProc(Goto(s, c, p), j, q));
  }

  lemma TakeProcs(s: State, c: nat, j: nat)
    requires Inv(s) && Running(s, c) && j < |s.procs| && s.pc[s.cur[c]] == ForkHeld(j) && s.procs[j].status == UNUSED
    ensures ProcFacets(Take(s, c, j))
  {
    hide FamilyOk, ClearOk, LifeOk, PLockOk, LockOk, Holding, Formed;
    var t0, g := s.cur[c], Take(s, c, j);
    assert ThreadOk(s, t0) && CpuOk(s, c);
    if t0 != j { NotOwn(s, c, j); }
    assert ProcOk(s, j) && FamilyOk(s, j) && ProcOk(s, t0);
    forall i | 0 <= i < |g.procs| ensures ProcOk(g, i) { assert ProcOk(s, i); }
    forall u | 0 <= u < |g.pc| ensures PickOk(g, u) { assert PickOk(s, u); }
    forall t, i | 0 <= t < |g.pc| && 0 <= i < |g.procs| ensures Passed(g, t, i) { assert Passed(s, t, i); }
  }

  lemma TakeOk(s: State, c: nat, j: nat)
    requires Inv(s) && Running(s, c) && j < |s.procs| && s.pc[s.cur[c]] == ForkHeld(j) && s.procs[j].status == UNUSED
    ensures Inv(Take(s, c, j))
  {
    hide ThreadOk, CpuOk, PLockOk, LockOk;
    var t0, g := s.cur[c], Take(s, c, j);
    ForkCore(s, c, j, ForkMade(j), s.procs[j].(status := USED));
    SetProcCore(SetProc(Goto(s, c, ForkMade(j)), j, s.procs[j].(status := USED)), g);
    assert ProcOk(s, j) && FamilyOk(s, j) && ProcOk(s, t0);
    TakeProcs(s, c, j);
    forall t | 0 <= t < |g.pc| ensures LifeOk(g, t) { assert LifeOk(s, t); }
    forall i | 0 <= i < |g.procs| ensures FamilyOk(g, i) { assert FamilyOk(s, i); }
    forall t, i | 0 <= t < |g.pc| && 0 <= i < |g.procs| ensures ClearOk(g, t, i) { assert ClearOk(s, t, i); }
  }

  /** free of a slot, with the forking thread going on to release its lock. */
  function Free(q: Slot): Slot { q.(status := UNUSED, parent := -1, chan := 0) }

  lemma UnforkProcs(s: State, c: nat, j: nat)
    requires Inv(s) && Running(s, c) && j < |s.procs| && s.pc[s.cur[c]] == ForkMade(j)
    ensures ProcFacets(SetProc(Goto(s, c, ForkEnd(j)), j, Free(s.procs[j])))
  {
    hide FamilyOk, ClearOk, PLockOk, LockOk, Holding, Formed;
    var t0, g := s.cur[c], SetProc(Goto(s, c, ForkEnd(j)), j, Free(s.procs[j]));
    assert ThreadOk(s, t0) && CpuOk(s, c) && LifeOk(s, t0);
    assert ProcOk(s, j) && FamilyOk(s, j);
    forall i | 0 <= i < |g.procs| ensures ProcOk(g, i) { assert ProcOk(s, i); }
    forall u | 0 <= u < |g.pc| ensures PickOk(g, u) { assert PickOk(s, u); }
    forall t, i | 0 <= t < |g.pc| && 0 <= i < |g.procs| ensures Passed(g, t, i) { assert Passed(s, t, i); }
  }

  lemma UnforkOk(s: State, c: nat, j: nat)
    requires Inv(s) && Running(s, c) && j < |s.procs| && s.pc[s.cur[c]] == ForkMade(j)
    ensures Inv(SetProc(Goto(s, c, ForkEnd(j)), j, Free(s.procs[j])))
  {
    hide ThreadOk, CpuOk, PLockOk, LockOk;
    var t0, g := s.cur[c], SetProc(Goto(s, c, ForkEnd(j)), j, Free(s.procs[j]));
    assert LifeOk(s, t0);
    ForkCore(s, c, j, ForkEnd(j), Free(s.procs[j]));
    assert ProcOk(s, j) && FamilyOk(s, j);
    UnforkProcs(s, c, j);
    forall t | 0 <= t < |g.pc| ensures LifeOk(g, t) { assert LifeOk(s, t); }
    forall i | 0 <= i < |g.procs| ensures FamilyOk(g, i) { assert FamilyOk(s, i); }
    forall t, i | 0 <= t < |g.pc| && 0 <= i < |g.procs| ensures ClearOk(g, t, i) { assert ClearOk(s, t, i); }
  }

  lemma LinkProcs(s: State, c: nat, j: nat)
    requires Inv(s) && Running(s, c) && j < |s.procs| && s.pc[s.cur[c]] == ForkParent(j)
    ensures ProcFacets(SetProc(Goto(s, c, ForkUnwait(j)), j, s.procs[j].(parent := s.cur[c])))
  {
    hide FamilyOk, ClearOk, PLockOk, LockOk, Holding, Formed;
    var t0, g := s.cur[c], SetProc(Goto(s, c, ForkUnwait(j)), j, s.procs[j].(parent := s.cur[c]));
    assert ThreadOk(s, t0) && CpuOk(s, c) && LifeOk(s, t0);
    assert ProcOk(s, j) && FamilyOk(s, j) && ProcOk(s, t0);
    forall i | 0 <= i < |g.procs| ensures ProcOk(g, i) { assert ProcOk(s, i); }
    forall u | 0 <= u < |g.pc| ensures PickOk(g, u) { assert PickOk(s, u); }
    forall t, i | 0 <= t < |g.pc| && 0 <= i < |g.procs| ensures Passed(g, t, i) { assert Passed(s, t, i); }
  }

  lemma LinkOk(s: State, c: nat, j: nat)
    requires Inv(s) && Running(s, c) && j < |s.procs| && s.pc[s.cur[c]] == ForkParent(j)
    ensures Inv(SetProc(Goto(s, c, ForkUnwait(j)), j, s.procs[j].(parent := s.cur[c])))
  {
    hide ThreadOk, CpuOk, PLockOk, LockOk;
    var t0, g := s.cur[c], SetProc(Goto(s, c, ForkUnwait(j)), j, s.procs[j].(parent := s.cur[c]));
    assert LifeOk(s, t0);
    ForkCore(s, c, j, ForkUnwait(j), s.procs[j].(parent := s.cur[c]));
    assert ProcOk(s, j) && FamilyOk(s, j) && ProcOk(s, t0);
    LinkProcs(s, c, j);
    forall t | 0 <= t < |g.pc| ensures LifeOk(g, t) { assert LifeOk(s, t); }
    forall i | 0 <= i < |g.procs| ensures FamilyOk(g, i) { assert FamilyOk(s, i); }
    forall t, i | 0 <= t < |g.pc| && 0 <= i < |g.procs| ensures ClearOk(g, t, i) { assert ClearOk(s, t, i); }
  }

  lemma ReadyProcs(s: State, c: nat, j: nat)
    requires Inv(s) && Running(s, c) && j < |s.procs| && s.pc[s.cur[c]] == ForkRun(j)
    ensures ProcFacets(SetProc(Goto(s, c, ForkEnd(j)), j, s.procs[j].(status := RUNNABLE)))
  {
    hide FamilyOk, ClearOk, PLockOk, LockOk, Holding, Formed;
    var t0, g := s.cur[c], SetProc(Goto(s, c, ForkEnd(j)), j, s.procs[j].(status := RUNNABLE));
    assert ThreadOk(s, t0) && CpuOk(s, c) && LifeOk(s, t0);
    assert ProcOk(s, j) && FamilyOk(s, j);
    forall i | 0 <= i < |g.procs| ensures ProcOk(g, i) { assert ProcOk(s, i); }
    forall u | 0 <= u < |g.pc| ensures PickOk(g, u) { assert PickOk(s, u); }
    forall t, i | 0 <= t < |g.pc| && 0 <= i < |g.procs| ensures Passed(g, t, i) { assert Passed(s, t, i); }
  }

  lemma ReadyOk(s: State, c: nat, j: nat)
    requires Inv(s) && Running(s, c) && j < |s.procs| && s.pc[s.cur[c]] == ForkRun(j)
    ensures Inv(SetProc(Goto(s, c, ForkEnd(j)), j, s.procs[j].(status := RUNNABLE)))
  {
    hide ThreadOk, CpuOk, PLockOk, LockOk;
    var t0, g := s.cur[c], SetProc(Goto(s, c, ForkEnd(j)), j, s.procs[j].(status := RUNNABLE));
    assert LifeOk(s, t0);
    ForkCore(s, c, j, ForkEnd(j), s.procs[j].(status := RUNNABLE));
    assert ProcOk(s, j) && FamilyOk(s, j);
    ReadyProcs(s, c, j);
    forall t | 0 <= t < |g.pc| ensures LifeOk(g, t) { assert LifeOk(s, t); }
    forall i | 0 <= i < |g.procs| ensures FamilyOk(g, i) { assert FamilyOk(s, i); }
    forall t, i | 0 <= t < |g.pc| && 0 <= i < |g.procs| ensures ClearOk(g, t, i) { assert ClearOk(s, t, i); }
  }

  // ---- exit ----

  /** reparent hands one child to init and wakes init. */
  function Reparent(s: State, c: nat, j: nat): State
    requires Running(s, c) && j < |s.procs|
  {
    SetProc(Goto(s, c, WakeScan(INIT + 1, WAIT, 0, ExitReparent(j + 1))), j, s.procs[j].(parent := INIT))
  }

  lemma ClearedExits(p: PC, np: nat)
    ensures Cleared(p, np) > 0 ==> Exiting(p)
  {
    if p.WakeScan? || p.WakeHeld? { ClearedExits(p.ret, np); }
  }

  lemma ReparentProcs(s: State, c: nat, j: nat)
    requires Inv(s) && Running(s, c) && j < |s.procs| && s.pc[s.cur[c]] == ExitReparent(j)
    requires s.procs[j].parent == s.cur[c]
    ensures ProcFacets(Reparent(s, c, j))
  {
    hide FamilyOk, ClearOk, LifeOk, PLockOk, LockOk, Own, Holding, Formed, Cleared, Exiting;
    var t0, g := s.cur[c], Reparent(s, c, j);
    assert ThreadOk(s, t0) && CpuOk(s, c);
    assert ProcOk(s, j) && FamilyOk(s, j) && FamilyOk(s, INIT);
    forall i | 0 <= i < |g.procs| ensures ProcOk(g, i) { assert ProcOk(s, i); }
    forall u | 0 <= u < |g.pc| ensures PickOk(g, u) { assert PickOk(s, u); }
    forall t, i | 0 <= t < |g.pc| && 0 <= i < |g.procs| ensures Passed(g, t, i) { assert Passed(s, t, i); }
  }

  lemma ReparentOk(s: State, c: nat, j: nat)
    requires Inv(s) && Running(s, c) && j < |s.procs| && s.pc[s.cur[c]] == ExitReparent(j)
    requires s.procs[j].parent == s.cur[c]
    ensures Inv(Reparent(s, c, j))
  {
    hide CpuOk, PLockOk, LockOk, Own, Holding, Formed, ProcFacets;
    var t0, g := s.cur[c], Reparent(s, c, j);
    var p := WakeScan(INIT + 1, WAIT, 0, ExitReparent(j + 1));
    assert LifeOk(s, t0) && LifeOk(s, INIT) && ThreadOk(s, INIT);
    ReparentCore(s, c, j);
    ClearedExits(s.pc[INIT], |s.procs|);
    assert Cleared(p.ret, |s.procs|) == j + 1 && Exiting(p.ret);
    assert FamilyOk(s, j) && FamilyOk(s, INIT);
    ReparentProcs(s, c, j);
    forall t | 0 <= t < |g.pc| ensures LifeOk(g, t) { assert LifeOk(s, t); }
    forall i | 0 <= i < |g.procs| ensures FamilyOk(g, i) { assert FamilyOk(s, i); }
    forall t, i | 0 <= t < |g.pc| && 0 <= i < |g.procs| ensures ClearOk(g, t, i) { assert ClearOk(s, t, i); }
  }

  lemma ReparentCore(s: State, c: nat, j: nat)
    requires Core(s) && Running(s, c) && j < |s.procs| && s.pc[s.cur[c]] == ExitReparent(j)
    ensures Core(Reparent(s, c, j))
  {
    var p := WakeScan(INIT + 1, WAIT, 0, ExitReparent(j + 1));
    assert ThreadOk(s, s.cur[c]) && CpuOk(s, c);
    assert Formed(p.ret, |s.procs|, |s.lock|) && Holding(p.ret, {WAIT}) && !OfSched(p.ret);
    GotoCore(s, c, p);
    SetProcCore(Goto(s, c, p), Reparent(s, c, j));
  }

  /** exit marks the process; it counts as exited. */
  function Zombie(s: State, c: nat): State
    requires Running(s, c) && s.cur[c] < |s.procs|
  {
    var t := s.cur[c];
    SetSelf(s, c, s.procs[t].(status := ZOMBIE), ExitRel).(exits := s.exits[t := s.exits[t] + 1])
  }

  lemma ZombiePassed(s: State, c: nat)
    requires Inv(s) && Running(s, c) && s.cur[c] < |s.procs| && s.pc[s.cur[c]] == ExitSet
    ensures var g := Zombie(s, c);
            forall t, i {:trigger Passed(g, t, i)} :: 0 <= t < |g.pc| && 0 <= i < |g.procs| ==> Passed(g, t, i)
  {
    hide Core, FamilyFacets;
    var g := Zombie(s, c);
    forall t, i | 0 <= t < |g.pc| && 0 <= i < |g.procs| ensures Passed(g, t, i) { assert Passed(s, t, i); }
  }

  lemma ZombieProcs(s: State, c: nat)
    requires Inv(s) && Running(s, c) && s.cur[c] < |s.procs| && s.pc[s.cur[c]] == ExitSet
    ensures ProcFacets(Zombie(s, c))
  {
    hide FamilyOk, ClearOk, LifeOk, PLockOk, LockOk, Holding, Formed;
    var t0, g := s.cur[c], Zombie(s, c);
    assert ThreadOk(s, t0) && CpuOk(s, c) && LifeOk(s, t0);
    assert ProcOk(s, t0) && FamilyOk(s, t0);
    forall i | 0 <= i < |g.procs| ensures ProcOk(g, i) { assert ProcOk(s, i); }
    forall u | 0 <= u < |g.pc| ensures PickOk(g, u) { assert PickOk(s, u); }
    ZombiePassed(s, c);
  }

  lemma ZombieCore(s: State, c: nat)
    requires Inv(s) && Running(s, c) && s.cur[c] < |s.procs| && s.pc[s.cur[c]] == ExitSet
    ensures Core(Zombie(s, c)) && s.procs[s.cur[c]].status == RUNNING
  {
    hide FamilyFacets, PLockOk, LockOk;
    var t := s.cur[c];
    assert ThreadOk(s, t) && CpuOk(s, c) && ProcOk(s, t);
    SetSelfCore(s, c, s.procs[t].(status := ZOMBIE), ExitRel);
    SetProcCore(SetSelf(s, c, s.procs[t].(status := ZOMBIE), ExitRel), Zombie(s, c));
  }

  lemma ZombieOk(s: State, c: nat)
    requires Inv(s) && Running(s, c) && s.cur[c] < |s.procs| && s.pc[s.cur[c]] == ExitSet
    ensures Inv(Zombie(s, c))
  {
    hide Core, ProcFacets;
    var t0, g := s.cur[c], Zombie(s, c);
    ZombieCore(s, c);
    ZombieProcs(s, c);
    assert LifeOk(s, t0) && FamilyOk(s, t0);
    forall t | 0 <= t < |g.pc| ensures LifeOk(g, t) { assert LifeOk(s, t); }
    forall i | 0 <= i < |g.procs| ensures FamilyOk(g, i) { assert FamilyOk(s, i) && ClearOk(s, t0, i); }
    forall t, i | 0 <= t < |g.pc| && 0 <= i < |g.procs| ensures ClearOk(g, t, i) { assert ClearOk(s, t, i); }
  }

  // ---- wait ----

  /** wait frees the slot of a zombie child; the slot's next process will start in forkret. */
  function Reap(s: State, c: nat, j: nat): State
    requires Running(s, c) && j < |s.procs|
  {
    var g := Goto(s, c, WaitFreed(j));
    SetProc(g.(pc := g.pc[j := Fresh], reaps := s.reaps[j := s.reaps[j] + 1]), j, Free(s.procs[j]))
  }

  /** A CPU points at no process that is off the CPUs and that its scheduler does not hold. */
  lemma NotPointed(s: State, d: nat, c: nat, j: nat)
    requires Inv(s) && Running(s, c) && j < |s.procs| && d < |s.cur| && s.on[j] == -1
    requires s.pc[s.cur[c]] == WaitHeld(j)
    ensures s.cur[d] != j && s.cproc[d] != j
  {
    hide Facets, PLockOk, LockOk, Holding;
    assert CpuOk(s, c) && CpuOk(s, d) && ThreadOk(s, |s.procs| + d);
  }

  /** What wait frees is a process that has left its CPU for good. */
  lemma ReapedIsOff(s: State, c: nat, j: nat)
    requires Inv(s) && Running(s, c) && j < |s.procs| && s.pc[s.cur[c]] == WaitHeld(j) && s.procs[j].status == ZOMBIE
    ensures s.pc[j] == Out(KExit) && s.on[j] == -1 && s.held[j] == {} && s.cur[c] != j
    ensures forall d :: 0 <= d < |s.cur| ==> s.cur[d] != j && s.cproc[d] != j
  {
    hide FamilyFacets, CpuOk, PLockOk, LockOk;
    assert ThreadOk(s, j) && ProcOk(s, j);
    if s.cur[c] != j { NotOwn(s, c, j); }
    forall d | 0 <= d < |s.cur| ensures s.cur[d] != j && s.cproc[d] != j { NotPointed(s, d, c, j); }
  }

  lemma ReapCore(s: State, c: nat, j: nat)
    requires Inv(s) && Running(s, c) && j < |s.procs| && s.pc[s.cur[c]] == WaitHeld(j) && s.procs[j].status == ZOMBIE
    ensures Core(Reap(s, c, j))
  {
    hide Facets;
    ReapedIsOff(s, c, j);
    assert ThreadOk(s, s.cur[c]) && CpuOk(s, c);
    GotoCore(s, c, WaitFreed(j));
    RestartCore(Goto(s, c, WaitFreed(j)), Reap(s, c, j), j);
  }

  /** A process thread that is off the CPUs is given a new start. */
  lemma RestartCore(s: State, g: State, j: nat)
    requires Core(s) && Sized(g) && j < |s.procs| && Off(s.pc[j]) && |g.procs| == |s.procs| && s.held[j] == {}
    requires g.cur == s.cur && g.on == s.on && g.pc == s.pc[j := Fresh] && g.held == s.held && g.plock == s.plock
    requires g.lock == s.lock && g.noff == s.noff && g.intr == s.intr && g.cproc == s.cproc
    ensures Core(g)
  {
    assert ThreadOk(s, j);
    forall t | 0 <= t < |g.pc| ensures ThreadOk(g, t) { assert ThreadOk(s, t); }
    forall d | 0 <= d < |g.cur| ensures CpuOk(g, d) { assert CpuOk(s, d); }
    forall i | 0 <= i < |g.procs| ensures PLockOk(g, i) {
      assert PLockOk(s, i);
      if s.plock[i] != -1 { assert CpuOk(s, s.plock[i]); }
    }
    forall l | 0 <= l < |g.lock| ensures LockOk(g, l) {
      assert LockOk(s, l);
      if s.lock[l] != -1 { assert CpuOk(s, s.lock[l]); }
    }
  }

  lemma ReapProcs(s: State, c: nat, j: nat)
    requires Inv(s) && Running(s, c) && j < |s.procs| && s.pc[s.cur[c]] == WaitHeld(j) && s.procs[j].status == ZOMBIE
    ensures ProcFacets(Reap(s, c, j))
  {
    hide FamilyOk, ClearOk, LifeOk, PLockOk, LockOk, Own, Holding, Formed, ThreadOk;
    var t0, g := s.cur[c], Reap(s, c, j);
    ReapedIsOff(s, c, j);
    assert ProcOk(s, j) && FamilyOk(s, j) && LifeOk(s, t0);
    forall i | 0 <= i < |g.procs| ensures ProcOk(g, i) { assert ProcOk(s, i); }
    forall u | 0 <= u < |g.pc| ensures PickOk(g, u) { assert PickOk(s, u); }
    forall t, i | 0 <= t < |g.pc| && 0 <= i < |g.procs| ensures Passed(g, t, i) { assert Passed(s, t, i); }
  }

  lemma ReapOk(s: State, c: nat, j: nat)
    requires Inv(s) && Running(s, c) && j < |s.procs| && s.pc[s.cur[c]] == WaitHeld(j) && s.procs[j].status == ZOMBIE
    ensures Inv(Reap(s, c, j)) && s.reaps[j] < s.exits[j] && s.procs[j].parent == s.cur[c]
  {
    hide PLockOk, LockOk, Own, Holding, Formed, ThreadOk;
    var t0, g := s.cur[c], Reap(s, c, j);
    ReapedIsOff(s, c, j);
    ReapCore(s, c, j);
    assert ProcOk(s, j) && FamilyOk(s, j) && LifeOk(s, t0);
    ReapProcs(s, c, j);
    forall t | 0 <= t < |g.pc| ensures LifeOk(g, t) { assert LifeOk(s, t); }
    forall i | 0 <= i < |g.procs| ensures FamilyOk(g, i) { assert FamilyOk(s, i); }
    forall t, i | 0 <= t < |g.pc| && 0 <= i < |g.procs| ensures ClearOk(g, t, i) { assert ClearOk(s, t, i); }
  }

  // ---- the step relation: CPU c takes one step of the thread it runs ----

  /** Go is the next step of a routine under way, with `ok` the answer of an allocation, a copy or a killed test
      and `on` whether pop_off finds interrupts were on. The other actions begin a call from kernel code or from
      an interrupt handler. */
  datatype Act =
    | Go(ok: bool, on: bool)
    | Acquire(l: nat) | Release(l: nat, on': bool)
    | Yield | Sleep(chan: nat, lk: nat) | Wakeup(chan: nat, lk: nat)
    | Kill(j: nat) | Fork | Exit | Wait

  lemma AtHand(s: State, c: nat)
    requires Inv(s) && Running(s, c)
    ensures ThreadOk(s, s.cur[c]) && s.on[s.cur[c]] == c
  {
    assert ThreadOk(s, s.cur[c]) && CpuOk(s, c);
  }

  function StepKernel(s: State, c: nat, a: Act): Outcome
    requires Running(s, c) && s.cur[c] < |s.procs|
  {
    var t := s.cur[c];
    var h := s.held[t];
    match a
    case Acquire(l) => if l < |s.lock| && l !in h then AcquireL(s, c, l, Kernel) else Refused
    case Release(l, on) => if l < |s.lock| && l in h then ReleaseL(s, c, l, Kernel, on) else Refused
    case Yield => if h == {} then AcquireP(s, c, t, YieldSet(Kernel)) else Refused
    case Sleep(chan, lk) =>
      if lk < |s.lock| && h == {lk} then AcquireP(s, c, t, SleepRel(chan, lk, Kernel)) else Refused
    case Wakeup(chan, lk) =>
      if lk < |s.lock| && lk in h then Next(Goto(s, c, WakeScan(chan, lk, 0, Kernel))) else Refused
    case Kill(j) => if j < |s.procs| && h == {} then AcquireP(s, c, j, KillHeld(j)) else Refused
    case Fork => if h == {} then Next(Goto(s, c, ForkScan(0))) else Refused
    case Exit => if h != {} then Refused else if t == INIT then InitExits else AcquireL(s, c, WAIT, ExitReparent(0))
    case Wait => if h == {} then AcquireL(s, c, WAIT, WaitScan(0, false)) else Refused
    case Go(_, _) => Refused
  }

  lemma KernelCallOk(s: State, c: nat, a: Act)
    requires Inv(s) && Running(s, c) && s.cur[c] < |s.procs| && s.pc[s.cur[c]] == Kernel
    requires a.Kill? || a.Fork? || a.Exit? || a.Wait?
    ensures Good(StepKernel(s, c, a))
  {
    hide Inv, TakeP, TakeL, Goto;
    var t, h := s.cur[c], s.held[s.cur[c]];
    match a {
      case Kill(j) => if j < |s.procs| && h == {} { AcquirePOk(s, c, j, KillHeld(j)); }
      case Fork => if h == {} { GotoOk(s, c, ForkScan(0)); }
      case Exit => if h == {} && t != INIT { AcquireLOk(s, c, WAIT, ExitReparent(0)); }
      case Wait => if h == {} { AcquireLOk(s, c, WAIT, WaitScan(0, false)); }
    }
  }

  lemma StepKernelOk(s: State, c: nat, a: Act)
    requires Inv(s) && Running(s, c) && s.cur[c] < |s.procs| && s.pc[s.cur[c]] == Kernel
    ensures Good(StepKernel(s, c, a))
  {
    hide Inv, TakeP, TakeL, DropL, Goto;
    var t, h := s.cur[c], s.held[s.cur[c]];
    match a {
      case Acquire(l) => if l < |s.lock| && l !in h { AcquireLOk(s, c, l, Kernel); }
      case Release(l, on) => if l < |s.lock| && l in h { ReleaseLOk(s, c, l, Kernel, on); }
      case Yield => if h == {} { AcquirePOk(s, c, t, YieldSet(Kernel)); }
      case Sleep(chan, lk) => if lk < |s.lock| && h == {lk} { AcquirePOk(s, c, t, SleepRel(chan, lk, Kernel)); }
      case Wakeup(chan, lk) =>
        if lk < |s.lock| && lk in h { BeginWakeOk(s, c, chan, lk, Kernel); }
      case Go(_, _) =>
      case _ => KernelCallOk(s, c, a);
    }
  }

  lemma BeginWakeOk(s: State, c: nat, chan: nat, lk: nat, ret: PC)
    requires Inv(s) && Running(s, c) && s.pc[s.cur[c]] == ret && (ret.Kernel? || ret.SLoop?)
    requires lk < |s.lock| && lk in s.held[s.cur[c]]
    ensures Good(Next(Goto(s, c, WakeScan(chan, lk, 0, ret))))
  {
    assert ThreadOk(s, s.cur[c]);
    GotoOk(s, c, WakeScan(chan, lk, 0, ret));
  }

  // yield and sleep

  /** An interrupt makes a process yield in the middle of fork or of sleep, where it holds no lock. */
  lemma YieldOkAt(s: State, c: nat, p: PC)
    requires Inv(s) && Running(s, c) && s.cur[c] < |s.procs| && s.pc[s.cur[c]] == p && !p.Kernel?
    requires YieldOk(p, |s.procs|, |s.lock|)
    ensures Good(AcquireP(s, c, s.cur[c], YieldSet(p)))
  {
    hide Inv, TakeP;
    AtHand(s, c);
    AcquirePOk(s, c, s.cur[c], YieldSet(p));
  }

  function StepSleep(s: State, c: nat, p: PC, on: bool): Outcome
    requires Running(s, c) && s.cur[c] < |s.procs|
  {
    var t := s.cur[c];
    match p
    case ForkRet => ReleaseP(s, c, t, Kernel, on)
    case YieldSet(ret) => Next(SetSelf(s, c, s.procs[t].(status := RUNNABLE), Sched(KYield(ret))))
    case SleepRel(chan, lk, ret) => if lk < |s.lock| then ReleaseL(s, c, lk, SleepSet(chan, lk, ret), on) else Refused
    case SleepSet(chan, lk, ret) =>
      Next(SetSelf(s, c, s.procs[t].(status := SLEEPING, chan := chan), Sched(KSleep(chan, lk, ret))))
    case Sched(k) => if s.plock[t] != c || s.noff[c] != 1 || s.intr[c] then Panic else Next(SwitchOut(s, c, k))
    case Back(k) =>
      (match k
       case KYield(ret) => ReleaseP(s, c, t, ret, on)
       case KSleep(_, lk, ret) => ReleaseP(SetProc(s, t, s.procs[t].(chan := 0)), c, t, SleepAcq(lk, ret), on)
       case KExit => Panic)
    case SleepAcq(lk, ret) => if lk < |s.lock| then AcquireL(s, c, lk, ret) else Refused
    case _ => Refused
  }

  lemma SleepBackOk(s: State, c: nat, k: Kont, on: bool)
    requires Inv(s) && Running(s, c) && s.cur[c] < |s.procs| && s.pc[s.cur[c]] == Back(k)
    ensures Good(StepSleep(s, c, Back(k), on))
  {
    hide Inv, DropP;
    var t := s.cur[c];
    AtHand(s, c);
    if k.KYield? {
      ReleasePOk(s, c, t, k.ret, on);
    } else {
      ForgetOk(s, c);
      ReleasePOk(SetProc(s, t, s.procs[t].(chan := 0)), c, t, SleepAcq(k.lk, k.ret), on);
    }
  }

  lemma StepSleepOk(s: State, c: nat, p: PC, on: bool)
    requires Inv(s) && Running(s, c) && s.cur[c] < |s.procs| && s.pc[s.cur[c]] == p
    ensures Good(StepSleep(s, c, p, on))
  {
    hide Inv, TakeL, DropL, DropP, SetSelf, SwitchOut;
    var t := s.cur[c];
    AtHand(s, c);
    match p {
      case ForkRet => ReleasePOk(s, c, t, Kernel, on);
      case YieldSet(ret) => StopOk(s, c, KYield(ret));
      case SleepRel(chan, lk, ret) => SleepReleaseOk(s, c, chan, lk, ret, on);
      case SleepSet(chan, lk, ret) => StopOk(s, c, KSleep(chan, lk, ret));
      case Sched(k) => SwitchOutOk(s, c, k);
      case Back(k) => SleepBackOk(s, c, k, on);
      case SleepAcq(lk, ret) => AcquireLOk(s, c, lk, ret);
      case _ =>
    }
  }

  // wakeup and kill

  function StepWake(s: State, c: nat, p: PC, on: bool): Outcome
    requires Running(s, c)
  {
    match p
    case WakeScan(chan, lk, j, ret) =>
      if j >= |s.procs| then Next(Goto(s, c, ret))
      else if j == s.cur[c] then Next(Goto(s, c, WakeScan(chan, lk, j + 1, ret)))
      else AcquireP(s, c, j, WakeHeld(chan, lk, j, ret))
    case WakeHeld(chan, lk, j, ret) =>
      if j >= |s.procs| then Refused
      else
        var q := s.procs[j];
        var g := if q.status == SLEEPING && q.chan == chan then SetProc(s, j, q.(status := RUNNABLE)) else s;
        ReleaseP(g, c, j, WakeScan(chan, lk, j + 1, ret), on)
    case KillHeld(j) =>
      if j >= |s.procs| then Refused else ReleaseP(SetProc(s, j, Wake(s.procs[j])), c, j, Kernel, on)
    case _ => Refused
  }

  lemma WakeScanOk(s: State, c: nat, chan: nat, lk: nat, j: nat, ret: PC, on: bool)
    requires Inv(s) && Running(s, c) && s.pc[s.cur[c]] == WakeScan(chan, lk, j, ret)
    ensures Good(StepWake(s, c, WakeScan(chan, lk, j, ret), on))
  {
    hide Inv, TakeP, Goto;
    AtHand(s, c);
    if j >= |s.procs| {
      GotoOk(s, c, ret);
    } else if j == s.cur[c] {
      GotoOk(s, c, WakeScan(chan, lk, j + 1, ret));
    } else {
      AcquirePOk(s, c, j, WakeHeld(chan, lk, j, ret));
    }
  }

  /** wakeup leaves the process it has looked at awake, if it was asleep on this channel. */
  lemma LeftAwake(s: State, c: nat, chan: nat, lk: nat, j: nat, ret: PC)
    requires Inv(s) && Running(s, c) && s.pc[s.cur[c]] == WakeHeld(chan, lk, j, ret) && j < |s.procs|
    requires !(s.procs[j].status == SLEEPING && s.procs[j].chan == chan)
    ensures j == s.cur[c] || !Asleep(s, j, chan, lk)
  {
    assert ProcOk(s, j);
    if j != s.cur[c] { NotOwn(s, c, j); }
  }

  lemma WakeHeldOk(s: State, c: nat, chan: nat, lk: nat, j: nat, ret: PC, on: bool)
    requires Inv(s) && Running(s, c) && s.pc[s.cur[c]] == WakeHeld(chan, lk, j, ret)
    ensures Good(StepWake(s, c, WakeHeld(chan, lk, j, ret), on))
  {
    hide Inv, DropP, Asleep;
    AtHand(s, c);
    var q := s.procs[j];
    var g := if q.status == SLEEPING && q.chan == chan then SetProc(s, j, q.(status := RUNNABLE)) else s;
    if q.status == SLEEPING && q.chan == chan { WakeOk(s, c, j); }
    LeftAwake(g, c, chan, lk, j, ret);
    ReleasePOk(g, c, j, WakeScan(chan, lk, j + 1, ret), on);
  }

  lemma KillHeldOk(s: State, c: nat, j: nat, on: bool)
    requires Inv(s) && Running(s, c) && s.pc[s.cur[c]] == KillHeld(j)
    ensures Good(StepWake(s, c, KillHeld(j), on))
  {
    hide Inv, DropP;
    AtHand(s, c);
    WakeOk(s, c, j);
    ReleasePOk(SetProc(s, j, Wake(s.procs[j])), c, j, Kernel, on);
  }

  // fork

  function StepFork(s: State, c: nat, p: PC, ok: bool, on: bool): Outcome
    requires Running(s, c)
  {
    match p
    case ForkScan(j) => if j < |s.procs| then AcquireP(s, c, j, ForkHeld(j)) else NoProc
    case ForkLink(j) => AcquireL(s, c, WAIT, ForkParent(j))
    case ForkUnwait(j) => ReleaseL(s, c, WAIT, ForkReady(j), on)
    case ForkHeld(j) =>
      if j >= |s.procs| then Refused
      else if s.procs[j].status == UNUSED then Next(Take(s, c, j))
      else ReleaseP(s, c, j, ForkScan(j + 1), on)
    case ForkMade(j) =>
      if j >= |s.procs| then Refused
      else if ok then ReleaseP(s, c, j, ForkLink(j), on)
      else Next(SetProc(Goto(s, c, ForkEnd(j)), j, Free(s.procs[j])))
    case ForkParent(j) =>
      if j >= |s.procs| then Refused
      else Next(SetProc(Goto(s, c, ForkUnwait(j)), j, s.procs[j].(parent := s.cur[c])))
    case ForkReady(j) => if j >= |s.procs| then Refused else AcquireP(s, c, j, ForkRun(j))
    case ForkRun(j) =>
      if j >= |s.procs| then Refused
      else Next(SetProc(Goto(s, c, ForkEnd(j)), j, s.procs[j].(status := RUNNABLE)))
    case ForkEnd(j) => if j >= |s.procs| then Refused else ReleaseP(s, c, j, Kernel, on)
    case _ => Refused
  }

  lemma ForkTakesOk(s: State, c: nat, p: PC, ok: bool, on: bool)
    requires Inv(s) && Running(s, c) && s.pc[s.cur[c]] == p && (p.ForkScan? || p.ForkLink? || p.ForkReady?)
    ensures Good(StepFork(s, c, p, ok, on))
  {
    hide Inv, TakeL, TakeP;
    AtHand(s, c);
    match p {
      case ForkScan(j) => if j < |s.procs| { AcquirePOk(s, c, j, ForkHeld(j)); }
      case ForkLink(j) => AcquireLOk(s, c, WAIT, ForkParent(j));
      case ForkReady(j) => AcquirePOk(s, c, j, ForkRun(j));
    }
  }

  lemma ForkDropsOk(s: State, c: nat, p: PC, ok: bool, on: bool)
    requires Inv(s) && Running(s, c) && s.pc[s.cur[c]] == p && (p.ForkUnwait? || p.ForkEnd?)
    ensures Good(StepFork(s, c, p, ok, on))
  {
    hide Inv, DropL, DropP;
    AtHand(s, c);
    match p {
      case ForkUnwait(j) => ReleaseLOk(s, c, WAIT, ForkReady(j), on);
      case ForkEnd(j) => ReleasePOk(s, c, j, Kernel, on);
    }
  }

  lemma StepForkOk(s: State, c: nat, p: PC, ok: bool, on: bool)
    requires Inv(s) && Running(s, c) && s.pc[s.cur[c]] == p
    ensures Good(StepFork(s, c, p, ok, on))
  {
    hide Inv, AcquireP, AcquireL, ReleaseL, DropP, Goto, SetProc, Take;
    AtHand(s, c);
    match p {
      case ForkHeld(j) =>
        if s.procs[j].status == UNUSED { TakeOk(s, c, j); } else { ReleasePOk(s, c, j, ForkScan(j + 1), on); }
      case ForkMade(j) => if ok { ReleasePOk(s, c, j, ForkLink(j), on); } else { UnforkOk(s, c, j); }
      case ForkParent(j) => LinkOk(s, c, j);
      case ForkRun(j) => ReadyOk(s, c, j);
      case _ =>
        if p.ForkScan? || p.ForkLink? || p.ForkReady? { ForkTakesOk(s, c, p, ok, on); }
        if p.ForkUnwait? || p.ForkEnd? { ForkDropsOk(s, c, p, ok, on); }
    }
  }

  // exit and wait; the address of slot i is channel i + 1

  function StepExit(s: State, c: nat, p: PC, on: bool): Outcome
    requires Running(s, c) && s.cur[c] < |s.procs|
  {
    var t := s.cur[c];
    match p
    case ExitReparent(j) =>
      if j >= |s.procs| then
        if s.procs[t].parent < 0 then Refused
        else Next(Goto(s, c, WakeScan(s.procs[t].parent + 1, WAIT, 0, ExitOwn)))
      else if s.procs[j].parent == t then Next(Reparent(s, c, j))
      else Next(Goto(s, c, ExitReparent(j + 1)))
    case ExitOwn => AcquireP(s, c, t, ExitSet)
    case ExitSet => Next(Zombie(s, c))
    case ExitRel => ReleaseL(s, c, WAIT, Sched(KExit), on)
    case _ => Refused
  }

  lemma ExitReparentOk(s: State, c: nat, j: nat, on: bool)
    requires Inv(s) && Running(s, c) && s.cur[c] < |s.procs| && s.pc[s.cur[c]] == ExitReparent(j)
    ensures Good(StepExit(s, c, ExitReparent(j), on))
  {
    hide Inv, Goto, Reparent;
    var t := s.cur[c];
    AtHand(s, c);
    if j < |s.procs| {
      if s.procs[j].parent == t { ReparentOk(s, c, j); } else { GotoOk(s, c, ExitReparent(j + 1)); }
    } else if s.procs[t].parent >= 0 {
      var w := WakeScan(s.procs[t].parent + 1, WAIT, 0, ExitOwn);
      assert Formed(w.ret, |s.procs|, |s.lock|) && Holding(w.ret, {WAIT}) && !OfSched(w.ret);
      assert Cleared(w.ret, |s.procs|) == |s.procs| && Exiting(w.ret);
      GotoOk(s, c, w);
    }
  }

  lemma StepExitOk(s: State, c: nat, p: PC, on: bool)
    requires Inv(s) && Running(s, c) && s.cur[c] < |s.procs| && s.pc[s.cur[c]] == p
    ensures Good(StepExit(s, c, p, on))
  {
    hide Inv, DropL, TakeP, Goto, Reparent, Zombie;
    AtHand(s, c);
    match p {
      case ExitReparent(j) => ExitReparentOk(s, c, j, on);
      case ExitOwn => AcquirePOk(s, c, s.cur[c], ExitSet);
      case ExitSet => ZombieOk(s, c);
      case ExitRel => ReleaseLOk(s, c, WAIT, Sched(KExit), on);
      case _ =>
    }
  }

  function StepWait(s: State, c: nat, p: PC, ok: bool, on: bool): Outcome
    requires Running(s, c) && s.cur[c] < |s.procs|
  {
    var t := s.cur[c];
    match p
    case WaitScan(j, kids) =>
      if j < |s.procs| then
        if s.procs[j].parent == t then AcquireP(s, c, j, WaitHeld(j)) else Next(Goto(s, c, WaitScan(j + 1, kids)))
      else if kids && ok then AcquireP(s, c, t, SleepRel(t + 1, WAIT, WaitScan(0, false)))
      else ReleaseL(s, c, WAIT, Kernel, on)
    case WaitHeld(j) =>
      if j >= |s.procs| then Refused
      else if s.procs[j].status != ZOMBIE then ReleaseP(s, c, j, WaitScan(j + 1, true), on)
      else if ok then Next(Reap(s, c, j))
      else ReleaseP(s, c, j, WaitDone, on)
    case WaitFreed(j) => if j >= |s.procs| then Refused else ReleaseP(s, c, j, WaitDone, on)
    case WaitDone => ReleaseL(s, c, WAIT, Kernel, on)
    case _ => Refused
  }

  lemma WaitScanOk(s: State, c: nat, j: nat, kids: bool, ok: bool, on: bool)
    requires Inv(s) && Running(s, c) && s.cur[c] < |s.procs| && s.pc[s.cur[c]] == WaitScan(j, kids)
    ensures Good(StepWait(s, c, WaitScan(j, kids), ok, on))
  {
    hide Inv, DropL, TakeP, Goto;
    var t := s.cur[c];
    AtHand(s, c);
    if j < |s.procs| {
      if s.procs[j].parent == t { AcquirePOk(s, c, j, WaitHeld(j)); } else { GotoOk(s, c, WaitScan(j + 1, kids)); }
    } else if kids && ok {
      AcquirePOk(s, c, t, SleepRel(t + 1, WAIT, WaitScan(0, false)));
    } else {
      ReleaseLOk(s, c, WAIT, Kernel, on);
    }
  }

  lemma StepWaitOk(s: State, c: nat, p: PC, ok: bool, on: bool)
    requires Inv(s) && Running(s, c) && s.cur[c] < |s.procs| && s.pc[s.cur[c]] == p
    ensures Good(StepWait(s, c, p, ok, on))
  {
    hide Inv, DropL, TakeP, DropP, Goto, Reap;
    AtHand(s, c);
    match p {
      case WaitScan(j, kids) => WaitScanOk(s, c, j, kids, ok, on);
      case WaitHeld(j) =>
        if s.procs[j].status != ZOMBIE {
          ReleasePOk(s, c, j, WaitScan(j + 1, true), on);
        } else if ok {
          ReapOk(s, c, j);
        } else {
          ReleasePOk(s, c, j, WaitDone, on);
        }
      case WaitFreed(j) => ReleasePOk(s, c, j, WaitDone, on);
      case WaitDone => ReleaseLOk(s, c, WAIT, Kernel, on);
      case _ =>
    }
  }

  // the scheduler loop, and interrupts taken in it

  function StepSched(s: State, c: nat, p: PC, a: Act): Outcome
    requires Running(s, c)
  {
    var h := s.held[s.cur[c]];
    match p
    case SLoop(j) =>
      (match a
       case Acquire(l) => if l < |s.lock| && l !in h then AcquireL(s, c, l, p) else Refused
       case Release(l, on) => if l < |s.lock| && l in h then ReleaseL(s, c, l, p, on) else Refused
       case Wakeup(chan, lk) =>
         if lk < |s.lock| && lk in h then Next(Goto(s, c, WakeScan(chan, lk, 0, p))) else Refused
       case _ =>
         if h != {} then Refused
         else if j < |s.procs| then AcquireP(s, c, j, SHeld(j))
         else Next(Goto(s, c, SLoop(0))))
    case SHeld(j) =>
      if j >= |s.procs| then Refused
      else if s.procs[j].status == RUNNABLE then Next(Mark(s, c, j))
      else Next(Goto(s, c, SNull(j)))
    case SMark(j) => Next(Point(s, c, j, SPoint(j)))
    case SPoint(j) => if j >= |s.procs| then Refused else Next(SwitchIn(s, c, j))
    case SBack(j) => Next(Point(s, c, -1, SNull(j)))
    case SNull(j) =>
      if j >= |s.procs| then Refused else ReleaseP(s, c, j, SLoop(j + 1), if a.Go? then a.on else false)
    case _ => Refused
  }

  lemma SchedLoopOk(s: State, c: nat, j: nat, a: Act)
    requires Inv(s) && Running(s, c) && s.pc[s.cur[c]] == SLoop(j)
    ensures Good(StepSched(s, c, SLoop(j), a))
  {
    hide Inv, TakeL, DropL, TakeP, Goto;
    var p, h := SLoop(j), s.held[s.cur[c]];
    AtHand(s, c);
    match a {
      case Acquire(l) => if l < |s.lock| && l !in h { AcquireLOk(s, c, l, p); }
      case Release(l, on) => if l < |s.lock| && l in h { ReleaseLOk(s, c, l, p, on); }
      case Wakeup(chan, lk) => if lk < |s.lock| && lk in h { BeginWakeOk(s, c, chan, lk, p); }
      case _ =>
        if h == {} { if j < |s.procs| { AcquirePOk(s, c, j, SHeld(j)); } else { GotoOk(s, c, SLoop(0)); } }
    }
  }

  lemma SchedHeldOk(s: State, c: nat, j: nat, a: Act)
    requires Inv(s) && Running(s, c) && s.pc[s.cur[c]] == SHeld(j)
    ensures Good(StepSched(s, c, SHeld(j), a))
  {
    hide Inv, Goto, Mark;
    AtHand(s, c);
    if s.procs[j].status == RUNNABLE { MarkOk(s, c, j); } else { GotoOk(s, c, SNull(j)); }
  }

  lemma StepSchedOk(s: State, c: nat, p: PC, a: Act)
    requires Inv(s) && Running(s, c) && s.pc[s.cur[c]] == p
    ensures Good(StepSched(s, c, p, a))
  {
    hide Inv, TakeL, DropL, DropP, TakeP, Goto, Mark, Point, SwitchIn;
    AtHand(s, c);
    match p {
      case SLoop(j) => SchedLoopOk(s, c, j, a);
      case SHeld(j) => SchedHeldOk(s, c, j, a);
      case SMark(j) => PointOk(s, c, j);
      case SPoint(j) => SwitchInOk(s, c, j);
      case SBack(j) => UnpointOk(s, c, j);
      case SNull(j) => ReleasePOk(s, c, j, SLoop(j + 1), if a.Go? then a.on else false);
      case _ =>
    }
  }

  // ---- runs ----

  function Step(s: State, c: nat, a: Act): Outcome
    requires Running(s, c)
  {
    var p := s.pc[s.cur[c]];
    if OfSched(p) && !p.WakeScan? && !p.WakeHeld? then StepSched(s, c, p, a)
    else if p.Kernel? && s.cur[c] < |s.procs| then StepKernel(s, c, a)
    else if a.Yield? && YieldOk(p, |s.procs|, |s.lock|) && s.cur[c] < |s.procs| then
      AcquireP(s, c, s.cur[c], YieldSet(p))
    else if !a.Go? then Refused
    else if p.WakeScan? || p.WakeHeld? || p.KillHeld? then StepWake(s, c, p, a.on)
    else if s.cur[c] >= |s.procs| then Refused
    else if p.ExitReparent? || p.ExitOwn? || p.ExitSet? || p.ExitRel? then StepExit(s, c, p, a.on)
    else if p.WaitScan? || p.WaitHeld? || p.WaitFreed? || p.WaitDone? then StepWait(s, c, p, a.ok, a.on)
    else if p.ForkRet? || p.YieldSet? || p.SleepRel? || p.SleepSet? || p.Sched? || p.Back? || p.SleepAcq? then
      StepSleep(s, c, p, a.on)
    else StepFork(s, c, p, a.ok, a.on)
  }

  /** Every step keeps the invariant, and no check of the locks, of sched or of the end of exit fails. */
  lemma StepOk(s: State, c: nat, a: Act)
    requires Inv(s) && Running(s, c)
    ensures Good(Step(s, c, a))
  {
    hide Inv, StepSched, StepKernel, StepWake, StepExit, StepWait, StepSleep, StepFork;
    var p := s.pc[s.cur[c]];
    if OfSched(p) && !p.WakeScan? && !p.WakeHeld? {
      StepSchedOk(s, c, p, a);
    } else if p.Kernel? && s.cur[c] < |s.procs| {
      StepKernelOk(s, c, a);
    } else if a.Yield? {
      if YieldOk(p, |s.procs|, |s.lock|) && s.cur[c] < |s.procs| { YieldOkAt(s, c, p); }
    } else if a.Go? {
      if p.WakeScan? {
        WakeScanOk(s, c, p.chan, p.lk, p.j, p.ret, a.on);
      } else if p.WakeHeld? {
        WakeHeldOk(s, c, p.chan, p.lk, p.j, p.ret, a.on);
      } else if p.KillHeld? {
        KillHeldOk(s, c, p.j, a.on);
      } else if s.cur[c] < |s.procs| {
        StepExitOk(s, c, p, a.on);
        StepWaitOk(s, c, p, a.ok, a.on);
        StepSleepOk(s, c, p, a.on);
        StepForkOk(s, c, p, a.ok, a.on);
      }
    }
  }

  /** Every CPU in its scheduler, every lock free, and one process, init, ready to start. */
  function Boot(np: nat, nc: nat, nl: nat): State
    requires np > INIT && nl > WAIT
  {
    State(seq(nc, c requires 0 <= c => np + c), seq(np, i => -1) + seq(nc, c => c),
          seq(np, i => Fresh) + seq(nc, c => SLoop(0)), seq(np + nc, t => {}),
          seq(np, i => -1), seq(nl, l => -1), seq(nc, c => 0), seq(nc, c => true), seq(nc, c => -1),
          seq(np, i => Slot(if i == INIT then RUNNABLE else UNUSED, 0, -1)),
          seq(np, i => -1), seq(np, i => 0), seq(np, i => 0))
  }

  lemma BootInv(np: nat, nc: nat, nl: nat)
    requires np > INIT && nl > WAIT
    ensures Inv(Boot(np, nc, nl))
  {
    var g := Boot(np, nc, nl);
    forall t | 0 <= t < |g.pc| ensures ThreadOk(g, t) {}
    forall d | 0 <= d < |g.cur| ensures CpuOk(g, d) {}
    forall i | 0 <= i < |g.procs| ensures PLockOk(g, i) {}
    forall l | 0 <= l < |g.lock| ensures LockOk(g, l) {}
    forall i | 0 <= i < |g.procs| ensures ProcOk(g, i) {}
    forall u | 0 <= u < |g.pc| ensures PickOk(g, u) {}
    forall t, i | 0 <= t < |g.pc| && 0 <= i < |g.procs| ensures Passed(g, t, i) {}
    forall t | 0 <= t < |g.pc| ensures LifeOk(g, t) {}
    forall i | 0 <= i < |g.procs| ensures FamilyOk(g, i) {}
    forall t, i | 0 <= t < |g.pc| && 0 <= i < |g.procs| ensures ClearOk(g, t, i) {}
  }

  ghost predicate Moves(s: State, g: State) { exists c: nat, a: Act :: Running(s, c) && Step(s, c, a) == Next(g) }

  /** A run: the boot state of some machine, and steps of any CPUs in any order. */
  ghost predicate IsRun(tr: seq<State>, np: nat, nc: nat, nl: nat)
    requires np > INIT && nl > WAIT
  {
    |tr| > 0 && tr[0] == Boot(np, nc, nl) && forall k :: 0 < k < |tr| ==> Moves(tr[k - 1], tr[k])
  }

  lemma {:induction false} RunInv(tr: seq<State>, np: nat, nc: nat, nl: nat, k: nat)
    requires np > INIT && nl > WAIT && IsRun(tr, np, nc, nl) && k < |tr|
    ensures Inv(tr[k])
  {
    hide Inv, Step, Boot;
    if k == 0 {
      BootInv(np, nc, nl);
    } else {
      RunInv(tr, np, nc, nl, k - 1);
      assert Moves(tr[k - 1], tr[k]);
      var c: nat, a: Act :| Running(tr[k - 1], c) && Step(tr[k - 1], c, a) == Next(tr[k]);
      StepOk(tr[k - 1], c, a);
    }
  }

  // ---- what this means ----

  /** Running on a CPU, as its per-CPU record says. */
  ghost predicate Runs(s: State, i: nat) { exists c :: 0 <= c < |s.cproc| && s.cproc[c] == i }

  /** No two CPUs run the same thread or point at the same process; and whenever a process's lock is free, the
      process is RUNNING exactly if some CPU points at it. */
  lemma Exclusive(tr: seq<State>, np: nat, nc: nat, nl: nat, k: nat)
    requires np > INIT && nl > WAIT && IsRun(tr, np, nc, nl) && k < |tr|
    ensures forall c, d :: 0 <= c < d < |tr[k].cur| && d < |tr[k].cproc| ==>
              tr[k].cur[c] != tr[k].cur[d] && (tr[k].cproc[c] != -1 ==> tr[k].cproc[c] != tr[k].cproc[d])
    ensures forall i :: 0 <= i < |tr[k].procs| && i < |tr[k].plock| && tr[k].plock[i] == -1 ==>
              (tr[k].procs[i].status == RUNNING <==> Runs(tr[k], i))
  {
    RunInv(tr, np, nc, nl, k);
    var s := tr[k];
    forall c, d | 0 <= c < d < |s.cur| ensures s.cur[c] != s.cur[d] && (s.cproc[c] != -1 ==> s.cproc[c] != s.cproc[d]) {
      OneCpu(s, c, d);
    }
    forall i | 0 <= i < |s.procs| && s.plock[i] == -1 ensures s.procs[i].status == RUNNING <==> Runs(s, i) {
      FreeMeansRuns(s, i);
    }
  }

  lemma OneCpu(s: State, c: nat, d: nat)
    requires Inv(s) && c < d < |s.cur|
    ensures s.cur[c] != s.cur[d] && (s.cproc[c] != -1 ==> s.cproc[c] != s.cproc[d])
  {
    assert CpuOk(s, c) && CpuOk(s, d);
    if s.cproc[c] != -1 && s.cproc[d] != -1 {
      PointedHere(s, c);
      PointedHere(s, d);
    }
  }

  /** A CPU that points at a process either runs it or holds its lock. */
  lemma PointedHere(s: State, c: nat)
    requires Inv(s) && c < |s.cur| && s.cproc[c] != -1
    ensures 0 <= s.cproc[c] < |s.procs|
    ensures s.on[s.cproc[c]] == c || (s.on[s.cproc[c]] == -1 && s.plock[s.cproc[c]] == c)
  {
    assert CpuOk(s, c) && ThreadOk(s, |s.procs| + c) && PickOk(s, |s.procs| + c);
    assert ThreadOk(s, s.cproc[c]);
  }

  lemma FreeMeansRuns(s: State, i: nat)
    requires Inv(s) && i < |s.procs| && s.plock[i] == -1
    ensures s.procs[i].status == RUNNING <==> Runs(s, i)
  {
    assert ProcOk(s, i) && ThreadOk(s, i);
    if s.procs[i].status == RUNNING {
      assert CpuOk(s, s.on[i]);
      assert s.cproc[s.on[i]] == i;
    }
    if Runs(s, i) {
      var c :| 0 <= c < |s.cproc| && s.cproc[c] == i;
      PointedHere(s, c);
      assert CpuOk(s, c);
    }
  }

  /** noff is the number of locks that record the CPU as their holder. */
  lemma NoffCounts(tr: seq<State>, np: nat, nc: nat, nl: nat, k: nat, c: nat)
    requires np > INIT && nl > WAIT && IsRun(tr, np, nc, nl) && k < |tr| && c < |tr[k].cur|
    ensures var s := tr[k];
            && c < |s.noff|
            && s.noff[c] ==
               |set l | 0 <= l < |s.lock| && s.lock[l] == c| + |set i | 0 <= i < |s.plock| && s.plock[i] == c|
            && (s.noff[c] > 0 ==> c < |s.intr| && !s.intr[c])
  {
    RunInv(tr, np, nc, nl, k);
    NoffCountsAt(tr[k], c);
  }

  lemma NoffCountsAt(s: State, c: nat)
    requires Core(s) && c < |s.cur|
    ensures s.noff[c] == |set l | 0 <= l < |s.lock| && s.lock[l] == c| + |set i | 0 <= i < |s.plock| && s.plock[i] == c|
    ensures s.noff[c] > 0 ==> !s.intr[c]
  {
    assert CpuOk(s, c);
    var t := s.cur[c];
    var ls := set l | 0 <= l < |s.lock| && s.lock[l] == c;
    var ps := set i | 0 <= i < |s.plock| && s.plock[i] == c;
    assert ls == s.held[t] by {
      forall l | l in ls ensures l in s.held[t] { assert LockOk(s, l); }
    }
    OwnInRange(s, c);
    forall i | i in ps ensures i == Own(s.pc[t], t) { assert PLockOk(s, i); }
    if Own(s.pc[t], t) == -1 { assert ps == {}; } else { assert ps == {Own(s.pc[t], t)}; }
  }

  lemma OwnInRange(s: State, c: nat)
    requires Core(s) && c < |s.cur| && s.cur[c] < |s.pc|
    ensures -1 <= Own(s.pc[s.cur[c]], s.cur[c]) < |s.procs|
  {
    assert ThreadOk(s, s.cur[c]);
  }

  /** No panic: no lock is taken twice or released by a CPU that does not hold it, sched is entered with exactly its
      own lock held and interrupts off, and no zombie runs again. */
  lemma NoPanic(tr: seq<State>, np: nat, nc: nat, nl: nat, k: nat, c: nat, a: Act)
    requires np > INIT && nl > WAIT && IsRun(tr, np, nc, nl) && k < |tr| && Running(tr[k], c)
    ensures Step(tr[k], c, a) != Panic
  {
    hide Step, Inv, Boot;
    RunInv(tr, np, nc, nl, k);
    StepOk(tr[k], c, a);
  }

  /** No lost wakeup: when wakeup(chan), called under lk, has finished its scan, no other process that has released
      lk inside sleep(chan, lk) is asleep or on its way to sleep. */
  lemma NoLostWakeup(tr: seq<State>, np: nat, nc: nat, nl: nat, k: nat, t: nat, chan: nat, lk: nat, ret: PC, i: nat)
    requires np > INIT && nl > WAIT && IsRun(tr, np, nc, nl) && k < |tr| && Sized(tr[k])
    requires t < |tr[k].pc| && tr[k].pc[t] == WakeScan(chan, lk, |tr[k].procs|, ret) && i < |tr[k].procs| && i != t
    ensures !Asleep(tr[k], i, chan, lk)
  {
    RunInv(tr, np, nc, nl, k);
    assert Passed(tr[k], t, i);
  }

  /** Parents are live, zombies have parents, and a process has been reaped as often as it has exited, except once
      less while it is a zombie. */
  lemma Families(tr: seq<State>, np: nat, nc: nat, nl: nat, k: nat, i: nat)
    requires np > INIT && nl > WAIT && IsRun(tr, np, nc, nl) && k < |tr| && Sized(tr[k]) && i < |tr[k].procs|
    ensures var s := tr[k]; var q := s.procs[i];
            && (q.parent != -1 ==> 0 <= q.parent < |s.procs| && q.parent != i && Live(s.procs[q.parent].status))
            && (q.status == ZOMBIE ==> q.parent != -1)
            && s.exits[i] == s.reaps[i] + (if q.status == ZOMBIE then 1 else 0)
  {
    RunInv(tr, np, nc, nl, k);
    assert FamilyOk(tr[k], i);
  }

  /** A slot is freed by the parent of a process that has exited, is on no CPU and is pointed at by none. */
  lemma ReapedOnce(tr: seq<State>, np: nat, nc: nat, nl: nat, k: nat, c: nat, j: nat)
    requires np > INIT && nl > WAIT && IsRun(tr, np, nc, nl) && k < |tr| && Running(tr[k], c) && j < |tr[k].procs|
    requires tr[k].pc[tr[k].cur[c]] == WaitHeld(j) && tr[k].procs[j].status == ZOMBIE
    ensures var s := tr[k];
            && s.procs[j].parent == s.cur[c] && s.reaps[j] + 1 == s.exits[j]
            && (forall d :: 0 <= d < |s.cur| ==> s.cur[d] != j && s.cproc[d] != j)
  {
    RunInv(tr, np, nc, nl, k);
    ReapedIsOff(tr[k], c, j);
    assert LifeOk(tr[k], tr[k].cur[c]) && FamilyOk(tr[k], j);
  }
}
