/** Processes: scheduling, sleep and wakeup, fork, exit and wait, as steps of any number of CPUs. */
module Proc {

  import opened Threads

  // ---- what holds of processes between any two steps ----

  /** The statuses a process can have while its thread is at p. */
  predicate Allowed(p: PC, st: Status) {
    match p
    case Fresh => st == UNUSED || st == USED || st == RUNNABLE || st == RUNNING
    case Out(k) =>
      (match k
       case KYield(_) => st == RUNNABLE || st == RUNNING
       case KSleep(_, _, _) => st == SLEEPING || st == RUNNABLE || st == RUNNING
       case KExit => st == ZOMBIE)
    case Sched(k) =>
      (match k
       case KYield(_) => st == RUNNABLE
       case KSleep(_, _, _) => st == SLEEPING
       case KExit => st == ZOMBIE)
    case ExitRel => st == ZOMBIE
    case _ => st == RUNNING
  }

  /** The scheduler of the CPU that holds the lock of i has chosen i and not yet switched to it. */
  predicate Chosen(s: State, i: nat)
    requires Sized(s) && i < |s.procs|
  {
    var c := s.plock[i];
    0 <= c < |s.cur| && (s.pc[|s.procs| + c] == SMark(i) || s.pc[|s.procs| + c] == SPoint(i))
  }

  predicate ProcOk(s: State, i: nat)
    requires Sized(s) && i < |s.procs|
  {
    && Allowed(s.pc[i], s.procs[i].status)
    && ((s.pc[i].Sched? || s.pc[i].Out?) && s.pc[i].k.KSleep? ==> s.procs[i].chan == s.pc[i].k.chan)
    && (s.procs[i].status == RUNNING && Off(s.pc[i]) ==> Chosen(s, i))
  }

  /** What a scheduler has chosen is marked RUNNING and is on no CPU, nor is a process that has just switched out. */
  predicate PickOk(s: State, u: nat)
    requires Sized(s) && u < |s.pc|
  {
    var p := s.pc[u];
    (p.SMark? || p.SPoint? || p.SBack?) && p.j < |s.procs| ==>
      Off(s.pc[p.j]) && (p.SBack? || s.procs[p.j].status == RUNNING)
  }

  /** Process i has released lk inside sleep(chan, lk) and sleeps, or is about to. */
  predicate Asleep(s: State, i: nat, chan: nat, lk: nat)
    requires Sized(s) && i < |s.procs|
  {
    var p := s.pc[i];
    || (p.SleepSet? && p.chan == chan && p.lk == lk)
    || ((p.Sched? || p.Out?) && p.k.KSleep? && p.k.chan == chan && p.k.lk == lk && s.procs[i].status == SLEEPING)
  }

  /** A wakeup(chan) by thread t under lk that has passed process i has left it awake. */
  predicate Passed(s: State, t: nat, i: nat)
    requires Sized(s) && t < |s.pc| && i < |s.procs|
  {
    var p := s.pc[t];
    (p.WakeScan? || p.WakeHeld?) && i < p.j && i != t ==> !Asleep(s, i, p.chan, p.lk)
  }

  /** Where a process that yields will go on; any other thread is there already. */
  function Under(p: PC): PC {
    match p
    case YieldSet(ret) => ret
    case Sched(k) => if k.KYield? then k.ret else p
    case Out(k) => if k.KYield? then k.ret else p
    case Back(k) => if k.KYield? then k.ret else p
    case _ => p
  }

  /** The slot a forking thread has taken, or -1. */
  function Making(p: PC): int {
    match Under(p)
    case ForkMade(j) => j case ForkLink(j) => j case ForkParent(j) => j
    case ForkUnwait(j) => j case ForkReady(j) => j case ForkRun(j) => j
    case _ => -1
  }

  /** Whether the slot being forked has its parent recorded. */
  predicate Linked(p: PC) { var o := Under(p); o.ForkUnwait? || o.ForkReady? || o.ForkRun? }

  predicate Exiting(p: PC) {
    match p
    case WakeScan(_, _, _, ret) => Exiting(ret)
    case WakeHeld(_, _, _, ret) => Exiting(ret)
    case Sched(k) => k.KExit?
    case Out(k) => k.KExit?
    case _ => p.ExitReparent? || p.ExitOwn? || p.ExitSet? || p.ExitRel?
  }

  /** A slot being forked belongs to one thread, is USED, and cannot run; init never exits; a thread in wait looks
      only at its own children. */
  predicate LifeOk(s: State, t: nat)
    requires Sized(s) && t < |s.pc|
  {
    var j := Making(s.pc[t]);
    && (0 <= j < |s.procs| ==>
          && s.maker[j] == t && s.procs[j].status == USED && s.pc[j] == Fresh
          && s.procs[j].parent == if Linked(s.pc[t]) then t else -1)
    && (Exiting(s.pc[t]) ==> t != INIT)
    && (s.pc[t].WaitHeld? && s.pc[t].j < |s.procs| ==> s.procs[s.pc[t].j].parent == t)
  }

  predicate Live(st: Status) { st == SLEEPING || st == RUNNABLE || st == RUNNING }

  /** Recorded parents are live; whatever has ever run and is not yet reaped has one, except init. */
  predicate FamilyOk(s: State, i: nat)
    requires Sized(s) && i < |s.procs|
  {
    var q := s.procs[i];
    && (q.parent == -1 || (0 <= q.parent < |s.procs| && q.parent != i && Live(s.procs[q.parent].status)))
    && (q.status == UNUSED ==> q.parent == -1)
    && (Live(q.status) || q.status == ZOMBIE ==> i == INIT || q.parent != -1)
    && (i == INIT ==> Live(q.status) && q.parent == -1)
    && s.exits[i] == s.reaps[i] + (if q.status == ZOMBIE then 1 else 0)
  }

  /** How many slots an exiting thread has reparented. */
  function Cleared(p: PC, np: nat): nat {
    match p
    case WakeScan(_, _, _, ret) => Cleared(ret, np)
    case WakeHeld(_, _, _, ret) => Cleared(ret, np)
    case ExitReparent(j) => j
    case ExitOwn => np
    case ExitSet => np
    case _ => 0
  }

  predicate ClearOk(s: State, t: nat, i: nat)
    requires Sized(s) && t < |s.pc| && i < |s.procs|
  {
    i < Cleared(s.pc[t], |s.procs|) ==> s.procs[i].parent != t
  }

  ghost predicate ProcFacets(s: State) {
    && Sized(s)
    && (forall i {:trigger ProcOk(s, i)} :: 0 <= i < |s.procs| ==> ProcOk(s, i))
    && (forall u {:trigger PickOk(s, u)} :: 0 <= u < |s.pc| ==> PickOk(s, u))
    && (forall t, i {:trigger Passed(s, t, i)} :: 0 <= t < |s.pc| && 0 <= i < |s.procs| ==> Passed(s, t, i))
  }

  ghost predicate FamilyFacets(s: State) {
    && Sized(s)
    && (forall t {:trigger LifeOk(s, t)} :: 0 <= t < |s.pc| ==> LifeOk(s, t))
    && (forall i {:trigger FamilyOk(s, i)} :: 0 <= i < |s.procs| ==> FamilyOk(s, i))
    && (forall t, i {:trigger ClearOk(s, t, i)} :: 0 <= t < |s.pc| && 0 <= i < |s.procs| ==> ClearOk(s, t, i))
  }

  ghost predicate Facets(s: State) { ProcFacets(s) && FamilyFacets(s) }

  ghost predicate Inv(s: State) { Core(s) && Facets(s) }

  // ---- steps that change no process and no obligation of the running thread ----

  predicate Plain(p: PC) {
    !Off(p) && !p.SleepSet? && !p.Sched? && !p.ExitRel? && !p.SMark? && !p.SPoint? && !p.SBack?
  }

  /** A wakeup starts at slot 0, stays, or moves past the caller's own slot or one that is awake. */
  predicate ScanStep(s: State, t: nat, p: PC)
    requires Sized(s) && t < |s.pc|
  {
    var o := s.pc[t];
    (p.WakeScan? || p.WakeHeld?) && p.j > 0 ==>
      && (o.WakeScan? || o.WakeHeld?) && o.chan == p.chan && o.lk == p.lk
      && (p.j <= o.j || (p.j == o.j + 1 && o.j < |s.procs| && (o.j == t || !Asleep(s, o.j, o.chan, o.lk))))
  }

  predicate QuietPC(s: State, t: nat, p: PC)
    requires Sized(s) && t < |s.pc|
  {
    var o := s.pc[t];
    && ((Plain(o) && Plain(p)) || (o.ExitRel? && p == Sched(KExit)) || (o.SBack? && p == SNull(o.j)))
    && ScanStep(s, t, p)
    && Making(p) == Making(o) && (Linked(p) <==> Linked(o))
    && (Exiting(p) ==> Exiting(o) || t != INIT)
    && (p.WaitHeld? && p.j < |s.procs| ==> s.procs[p.j].parent == t)
    && (forall i {:trigger s.procs[i]} ::
          Cleared(o, |s.procs|) <= i < Cleared(p, |s.procs|) && i < |s.procs| ==> s.procs[i].parent != t)
  }

  lemma QuietPassed(s: State, g: State, c: nat, p: PC)
    requires Inv(s) && Sized(g) && c < |s.cur| && s.cur[c] < |s.pc| && QuietPC(s, s.cur[c], p)
    requires g.procs == s.procs && g.maker == s.maker && g.exits == s.exits && g.reaps == s.reaps
    requires g.cur == s.cur && g.pc == s.pc[s.cur[c] := p]
    requires forall i {:trigger g.plock[i]} :: 0 <= i < |s.procs| ==>
               g.plock[i] == s.plock[i] || s.plock[i] == -1 || s.plock[i] == c
    ensures forall t, i {:trigger Passed(g, t, i)} :: 0 <= t < |g.pc| && 0 <= i < |g.procs| ==> Passed(g, t, i)
  {
    hide Core, FamilyFacets, ProcOk, PickOk;
    forall t, i | 0 <= t < |g.pc| && 0 <= i < |g.procs| ensures Passed(g, t, i) { assert Passed(s, t, i); }
  }

  lemma QuietProcs(s: State, g: State, c: nat, p: PC)
    requires Inv(s) && Sized(g) && c < |s.cur| && s.cur[c] < |s.pc| && QuietPC(s, s.cur[c], p)
    requires g.procs == s.procs && g.maker == s.maker && g.exits == s.exits && g.reaps == s.reaps
    requires g.cur == s.cur && g.pc == s.pc[s.cur[c] := p]
    requires forall i {:trigger g.plock[i]} :: 0 <= i < |s.procs| ==>
               g.plock[i] == s.plock[i] || s.plock[i] == -1 || s.plock[i] == c
    ensures ProcFacets(g)
  {
    hide Passed, FamilyFacets, PLockOk, LockOk, Formed, Holding, Own, Making, Linked, Exiting, Cleared, ScanStep;
    var t0 := s.cur[c];
    assert CpuOk(s, c) && ThreadOk(s, t0);
    forall i | 0 <= i < |g.procs| ensures ProcOk(g, i) { assert ProcOk(s, i); }
    forall u | 0 <= u < |g.pc| ensures PickOk(g, u) { assert PickOk(s, u) && ThreadOk(s, u); }
    QuietPassed(s, g, c, p);
  }

  lemma QuietStep(s: State, g: State, c: nat, p: PC)
    requires Inv(s) && Sized(g) && c < |s.cur| && s.cur[c] < |s.pc| && QuietPC(s, s.cur[c], p)
    requires g.procs == s.procs && g.maker == s.maker && g.exits == s.exits && g.reaps == s.reaps
    requires g.cur == s.cur && g.pc == s.pc[s.cur[c] := p]
    requires forall i {:trigger g.plock[i]} :: 0 <= i < |s.procs| ==>
               g.plock[i] == s.plock[i] || s.plock[i] == -1 || s.plock[i] == c
    ensures Facets(g)
  {
    hide ProcOk, PickOk, Passed, PLockOk, LockOk, ThreadOk;
    var t0 := s.cur[c];
    QuietProcs(s, g, c, p);
    assert CpuOk(s, c);
    forall t | 0 <= t < |g.pc| ensures LifeOk(g, t) { assert LifeOk(s, t) && LifeOk(s, t0); }
    forall i | 0 <= i < |g.procs| ensures FamilyOk(g, i) { assert FamilyOk(s, i); }
    forall t, i | 0 <= t < |g.pc| && 0 <= i < |g.procs| ensures ClearOk(g, t, i) { assert ClearOk(s, t, i); }
  }

  // ---- lock operations with the checks of the code ----

  /** A step taken; a lock that is not free; a failed check of the locks, of sched or of exit; the panics on a full
      process table and on an exit of init; or a call that no caller makes. */
  datatype Outcome = Next(s: State) | Blocked | Panic | NoProc | InitExits | Refused

  predicate Running(s: State, c: nat) { Sized(s) && c < |s.cur| && s.cur[c] < |s.pc| }

  function AcquireP(s: State, c: nat, i: nat, p: PC): Outcome
    requires Running(s, c) && i < |s.procs|
  {
    if s.plock[i] == c then Panic else if s.plock[i] != -1 then Blocked else Next(TakeP(s, c, i, p))
  }

  function ReleaseP(s: State, c: nat, i: nat, p: PC, on: bool): Outcome
    requires Running(s, c) && i < |s.procs|
  {
    if s.plock[i] != c || s.intr[c] || s.noff[c] < 1 then Panic else Next(DropP(s, c, i, p, on))
  }

  function AcquireL(s: State, c: nat, l: nat, p: PC): Outcome
    requires Running(s, c) && l < |s.lock|
  {
    if s.lock[l] == c then Panic else if s.lock[l] != -1 then Blocked else Next(TakeL(s, c, l, p))
  }

  function ReleaseL(s: State, c: nat, l: nat, p: PC, on: bool): Outcome
    requires Running(s, c) && l < |s.lock|
  {
    if s.lock[l] != c || s.intr[c] || s.noff[c] < 1 then Panic else Next(DropL(s, c, l, p, on))
  }

  ghost predicate Good(o: Outcome) { o != Panic && (o.Next? ==> Inv(o.s)) }

  lemma GotoOk(s: State, c: nat, p: PC)
    requires Inv(s) && Running(s, c) && QuietPC(s, s.cur[c], p)
    requires Fits(s, s.cur[c], p, s.held[s.cur[c]]) && Own(p, s.cur[c]) == Own(s.pc[s.cur[c]], s.cur[c])
    requires PointedAt(s.pc[s.cur[c]]) == -1
    ensures Good(Next(Goto(s, c, p)))
  {
    hide Fits, ThreadOk, CpuOk, PLockOk, LockOk, Facets;
    GotoCore(s, c, p);
    QuietStep(s, Goto(s, c, p), c, p);
  }

  lemma AcquirePOk(s: State, c: nat, i: nat, p: PC)
    requires Inv(s) && Running(s, c) && QuietPC(s, s.cur[c], p) && i < |s.procs|
    requires Fits(s, s.cur[c], p, s.held[s.cur[c]]) && Own(s.pc[s.cur[c]], s.cur[c]) == -1 && Own(p, s.cur[c]) == i
    requires PointedAt(s.pc[s.cur[c]]) == -1
    ensures Good(AcquireP(s, c, i, p))
  {
    hide Fits, ThreadOk, CpuOk, LockOk, Facets, QuietPC;
    assert PLockOk(s, i);
    if s.plock[i] == -1 {
      TakePCore(s, c, i, p);
      QuietStep(s, TakeP(s, c, i, p), c, p);
    }
  }

  lemma ReleasePOk(s: State, c: nat, i: nat, p: PC, on: bool)
    requires Inv(s) && Running(s, c) && QuietPC(s, s.cur[c], p) && i < |s.procs|
    requires Fits(s, s.cur[c], p, s.held[s.cur[c]]) && Own(s.pc[s.cur[c]], s.cur[c]) == i && Own(p, s.cur[c]) == -1
    requires PointedAt(s.pc[s.cur[c]]) == -1
    ensures Good(ReleaseP(s, c, i, p, on))
  {
    hide Fits, ThreadOk, CpuOk, PLockOk, LockOk, Facets, QuietPC;
    HoldsP(s, c);
    DropPCore(s, c, i, p, on);
    QuietStep(s, DropP(s, c, i, p, on), c, p);
  }

  lemma AcquireLOk(s: State, c: nat, l: nat, p: PC)
    requires Inv(s) && Running(s, c) && QuietPC(s, s.cur[c], p) && l < |s.lock| && l !in s.held[s.cur[c]]
    requires Fits(s, s.cur[c], p, s.held[s.cur[c]] + {l}) && Own(s.pc[s.cur[c]], s.cur[c]) == Own(p, s.cur[c])
    requires PointedAt(s.pc[s.cur[c]]) == -1
    ensures Good(AcquireL(s, c, l, p))
  {
    hide Fits, ThreadOk, CpuOk, PLockOk, Facets, QuietPC;
    assert LockOk(s, l);
    if s.lock[l] == -1 {
      TakeLCore(s, c, l, p);
      QuietStep(s, TakeL(s, c, l, p), c, p);
    }
  }

  lemma ReleaseLOk(s: State, c: nat, l: nat, p: PC, on: bool)
    requires Inv(s) && Running(s, c) && QuietPC(s, s.cur[c], p) && l < |s.lock| && l in s.held[s.cur[c]]
    requires Fits(s, s.cur[c], p, s.held[s.cur[c]] - {l}) && Own(s.pc[s.cur[c]], s.cur[c]) == Own(p, s.cur[c])
    requires PointedAt(s.pc[s.cur[c]]) == -1
    ensures Good(ReleaseL(s, c, l, p, on))
  {
    hide Fits, ThreadOk, CpuOk, PLockOk, LockOk, Facets, QuietPC;
    HoldsL(s, c, l);
    DropLCore(s, c, l, p, on);
    QuietStep(s, DropL(s, c, l, p, on), c, p);
  }

  // ---- steps that change a process ----

  function SetProc(s: State, j: nat, q: Slot): State
    requires j < |s.procs|
  {
    s.(procs := s.procs[j := q])
  }

  lemma SetProcCore(s: State, g: State)
    requires Core(s) && Sized(g) && |g.procs| == |s.procs|
    requires g.cur == s.cur && g.on == s.on && g.pc == s.pc && g.held == s.held && g.plock == s.plock
    requires g.lock == s.lock && g.noff == s.noff && g.intr == s.intr && g.cproc == s.cproc
    ensures Core(g)
  {
    forall t | 0 <= t < |g.pc| ensures ThreadOk(g, t) { assert ThreadOk(s, t); }
    forall d | 0 <= d < |g.cur| ensures CpuOk(g, d) { assert CpuOk(s, d); }
    forall i | 0 <= i < |g.procs| ensures PLockOk(g, i) { assert PLockOk(s, i); }
    forall l | 0 <= l < |g.lock| ensures LockOk(g, l) { assert LockOk(s, l); }
  }

  /** Whoever else holds the lock of j, the thread of j holds it not. */
  lemma NotOwn(s: State, c: nat, j: nat)
    requires Core(s) && c < |s.cur| && s.cur[c] < |s.pc| && j < |s.procs| && s.cur[c] != j
    requires Own(s.pc[s.cur[c]], s.cur[c]) == j
    ensures Own(s.pc[j], j) != j
  {
    hide Own, Holding, Formed;
    assert CpuOk(s, c) && ThreadOk(s, j);
    OffOwnsNothing(s.pc[j], j);
    if s.on[j] != -1 { assert CpuOk(s, s.on[j]); }
  }

  lemma OffOwnsNothing(p: PC, t: nat)
    ensures Off(p) ==> Own(p, t) == -1
  {}

  /** wakeup's and kill's change to process j, under its lock. */
  function Wake(q: Slot): Slot { if q.status == SLEEPING then q.(status := RUNNABLE) else q }

  lemma WakeProcs(s: State, c: nat, j: nat)
    requires Inv(s) && Running(s, c) && j < |s.procs| && Own(s.pc[s.cur[c]], s.cur[c]) == j
    requires s.pc[s.cur[c]].WakeHeld? || s.pc[s.cur[c]].KillHeld?
    ensures ProcFacets(SetProc(s, j, Wake(s.procs[j])))
  {
    hide ClearOk, LifeOk, PLockOk, LockOk, Holding, Formed;
    var g := SetProc(s, j, Wake(s.procs[j]));
    if s.cur[c] != j { NotOwn(s, c, j); }
    assert ProcOk(s, j) && FamilyOk(s, j);
    forall i | 0 <= i < |g.procs| ensures ProcOk(g, i) { assert ProcOk(s, i); }
    forall u | 0 <= u < |g.pc| ensures PickOk(g, u) { assert PickOk(s, u); }
    forall t, i | 0 <= t < |g.pc| && 0 <= i < |g.procs| ensures Passed(g, t, i) { assert Passed(s, t, i); }
  }

  lemma WakeOk(s: State, c: nat, j: nat)
    requires Inv(s) && Running(s, c) && j < |s.procs| && Own(s.pc[s.cur[c]], s.cur[c]) == j
    requires s.pc[s.cur[c]].WakeHeld? || s.pc[s.cur[c]].KillHeld?
    ensures Inv(SetProc(s, j, Wake(s.procs[j])))
  {
    hide PLockOk, LockOk;
    var g := SetProc(s, j, Wake(s.procs[j]));
    SetProcCore(s, g);
    if s.cur[c] != j { NotOwn(s, c, j); }
    assert ProcOk(s, j) && FamilyOk(s, j);
    WakeProcs(s, c, j);
    forall t | 0 <= t < |g.pc| ensures LifeOk(g, t) { assert LifeOk(s, t); }
    forall i | 0 <= i < |g.procs| ensures FamilyOk(g, i) { assert FamilyOk(s, i); }
    forall t, i | 0 <= t < |g.pc| && 0 <= i < |g.procs| ensures ClearOk(g, t, i) { assert ClearOk(s, t, i); }
  }

  /** Process t clears its channel after swtch has returned to sleep. */
  lemma ForgetProcs(s: State, c: nat)
    requires Inv(s) && Running(s, c) && s.cur[c] < |s.procs| && s.pc[s.cur[c]].Back?
    ensures ProcFacets(SetProc(s, s.cur[c], s.procs[s.cur[c]].(chan := 0)))
  {
    hide FamilyOk, ClearOk, LifeOk, PLockOk, LockOk, Holding, Formed;
    var t0 := s.cur[c];
    var g := SetProc(s, t0, s.procs[t0].(chan := 0));
    forall i | 0 <= i < |g.procs| ensures ProcOk(g, i) { assert ProcOk(s, i); }
    forall u | 0 <= u < |g.pc| ensures PickOk(g, u) { assert PickOk(s, u); }
    forall t, i | 0 <= t < |g.pc| && 0 <= i < |g.procs| ensures Passed(g, t, i) { assert Passed(s, t, i); }
  }

  lemma ForgetOk(s: State, c: nat)
    requires Inv(s) && Running(s, c) && s.cur[c] < |s.procs| && s.pc[s.cur[c]].Back?
    ensures Inv(SetProc(s, s.cur[c], s.procs[s.cur[c]].(chan := 0)))
  {
    hide PLockOk, LockOk;
    var t0 := s.cur[c];
    var g := SetProc(s, t0, s.procs[t0].(chan := 0));
    SetProcCore(s, g);
    ForgetProcs(s, c);
    forall t | 0 <= t < |g.pc| ensures LifeOk(g, t) { assert LifeOk(s, t); }
    forall i | 0 <= i < |g.procs| ensures FamilyOk(g, i) { assert FamilyOk(s, i); }
    forall t, i | 0 <= t < |g.pc| && 0 <= i < |g.procs| ensures ClearOk(g, t, i) { assert ClearOk(s, t, i); }
  }

  /** Process t changes its own status and goes on to p. */
  function SetSelf(s: State, c: nat, q: Slot, p: PC): State
    requires Running(s, c) && s.cur[c] < |s.procs|
  {
    SetProc(Goto(s, c, p), s.cur[c], q)
  }

  lemma SetSelfCore(s: State, c: nat, q: Slot, p: PC)
    requires Core(s) && Running(s, c) && s.cur[c] < |s.procs| && Fits(s, s.cur[c], p, s.held[s.cur[c]])
    requires Own(p, s.cur[c]) == Own(s.pc[s.cur[c]], s.cur[c]) && PointedAt(s.pc[s.cur[c]]) == -1
    ensures Core(SetSelf(s, c, q, p))
  {
    hide Fits, ThreadOk, CpuOk, PLockOk, LockOk, Own;
    GotoCore(s, c, p);
    SetProcCore(Goto(s, c, p), SetSelf(s, c, q, p));
  }

  /** yield marks the process RUNNABLE; sleep marks it SLEEPING and records the channel. */
  function Stopped(q: Slot, k: Kont): Slot {
    if k.KSleep? then q.(status := SLEEPING, chan := k.chan) else q.(status := RUNNABLE)
  }

  lemma StopProcs(s: State, c: nat, k: Kont)
    requires Inv(s) && Running(s, c) && s.cur[c] < |s.procs|
    requires if k.KYield? then s.pc[s.cur[c]] == YieldSet(k.ret)
             else k.KSleep? && s.pc[s.cur[c]] == SleepSet(k.chan, k.lk, k.ret)
    ensures ProcFacets(SetSelf(s, c, Stopped(s.procs[s.cur[c]], k), Sched(k)))
  {
    hide FamilyOk, ClearOk, LifeOk, PLockOk, LockOk, Holding, Formed;
    var t0 := s.cur[c];
    var g := SetSelf(s, c, Stopped(s.procs[t0], k), Sched(k));
    assert ThreadOk(s, t0);
    assert ProcOk(s, t0);
    forall i | 0 <= i < |g.procs| ensures ProcOk(g, i) { assert ProcOk(s, i); }
    forall u | 0 <= u < |g.pc| ensures PickOk(g, u) { assert PickOk(s, u); }
    forall t, i | 0 <= t < |g.pc| && 0 <= i < |g.procs| ensures Passed(g, t, i) { assert Passed(s, t, i); }
  }

  lemma StopOk(s: State, c: nat, k: Kont)
    requires Inv(s) && Running(s, c) && s.cur[c] < |s.procs|
    requires if k.KYield? then s.pc[s.cur[c]] == YieldSet(k.ret)
             else k.KSleep? && s.pc[s.cur[c]] == SleepSet(k.chan, k.lk, k.ret)
    ensures Inv(SetSelf(s, c, Stopped(s.procs[s.cur[c]], k), Sched(k)))
  {
    hide PLockOk, LockOk;
    var t0 := s.cur[c];
    var g := SetSelf(s, c, Stopped(s.procs[t0], k), Sched(k));
    assert ThreadOk(s, t0);
    SetSelfCore(s, c, Stopped(s.procs[t0], k), Sched(k));
    assert ProcOk(s, t0);
    StopProcs(s, c, k);
    forall t | 0 <= t < |g.pc| ensures LifeOk(g, t) { assert LifeOk(s, t); }
    forall i | 0 <= i < |g.procs| ensures FamilyOk(g, i) { assert FamilyOk(s, i); }
    forall t, i | 0 <= t < |g.pc| && 0 <= i < |g.procs| ensures ClearOk(g, t, i) { assert ClearOk(s, t, i); }
  }

  /** sleep releases the lock it was given: no wakeup under that lock can be under way. */
  lemma SleepReleaseProcs(s: State, c: nat, chan: nat, lk: nat, ret: PC, on: bool)
    requires Inv(s) && Running(s, c) && s.cur[c] < |s.procs| && s.pc[s.cur[c]] == SleepRel(chan, lk, ret)
    requires lk < |s.lock|
    requires s.noff[c] > 0
    ensures ProcFacets(DropL(s, c, lk, SleepSet(chan, lk, ret), on))
  {
    hide FamilyOk, ClearOk, LifeOk, PLockOk, LockOk;
    var t0 := s.cur[c];
    assert ThreadOk(s, t0);
    HoldsL(s, c, lk);
    var g := DropL(s, c, lk, SleepSet(chan, lk, ret), on);
    forall i | 0 <= i < |g.procs| ensures ProcOk(g, i) { assert ProcOk(s, i); }
    forall u | 0 <= u < |g.pc| ensures PickOk(g, u) { assert PickOk(s, u); }
    forall t, i | 0 <= t < |g.pc| && 0 <= i < |g.procs| ensures Passed(g, t, i) {
      assert Passed(s, t, i);
      NotWaking(s, c, t, lk);
    }
  }

  lemma SleepReleaseOk(s: State, c: nat, chan: nat, lk: nat, ret: PC, on: bool)
    requires Inv(s) && Running(s, c) && s.cur[c] < |s.procs| && s.pc[s.cur[c]] == SleepRel(chan, lk, ret)
    requires lk < |s.lock|
    ensures Good(ReleaseL(s, c, lk, SleepSet(chan, lk, ret), on))
  {
    hide PLockOk, LockOk;
    var t0 := s.cur[c];
    assert ThreadOk(s, t0);
    HoldsL(s, c, lk);
    DropLCore(s, c, lk, SleepSet(chan, lk, ret), on);
    var g := DropL(s, c, lk, SleepSet(chan, lk, ret), on);
    SleepReleaseProcs(s, c, chan, lk, ret, on);
    forall t | 0 <= t < |g.pc| ensures LifeOk(g, t) { assert LifeOk(s, t); }
    forall i | 0 <= i < |g.procs| ensures FamilyOk(g, i) { assert FamilyOk(s, i); }
    forall t, i | 0 <= t < |g.pc| && 0 <= i < |g.procs| ensures ClearOk(g, t, i) { assert ClearOk(s, t, i); }
  }

  /** While the thread on c holds lk and runs no wakeup, nobody runs one under lk. */
  lemma NotWaking(s: State, c: nat, t: nat, lk: nat)
    requires Core(s) && Running(s, c) && t < |s.pc| && lk in s.held[s.cur[c]]
    requires !s.pc[s.cur[c]].WakeScan? && !s.pc[s.cur[c]].WakeHeld?
    ensures !((s.pc[t].WakeScan? || s.pc[t].WakeHeld?) && s.pc[t].lk == lk)
  {
    assert CpuOk(s, c) && ThreadOk(s, t);
    if s.on[t] != -1 { assert CpuOk(s, s.on[t]); }
  }

  // ---- the scheduler ----

  /** A scheduler marks a RUNNABLE process whose lock it holds. */
  function Mark(s: State, c: nat, j: nat): State
    requires Running(s, c) && j < |s.procs|
  {
    SetProc(Goto(s, c, SMark(j)), j, s.procs[j].(status := RUNNING))
  }

  lemma MarkProcs(s: State, c: nat, j: nat)
    requires Inv(s) && Running(s, c) && j < |s.procs| && s.pc[s.cur[c]] == SHeld(j) && s.procs[j].status == RUNNABLE
    ensures ProcFacets(Mark(s, c, j))
  {
    hide FamilyOk, ClearOk, LifeOk, PLockOk, LockOk, Holding, Formed, Making, Linked;
    var t0, g := s.cur[c], Mark(s, c, j);
    assert ThreadOk(s, t0) && ThreadOk(s, j) && CpuOk(s, c);
    NotOwn(s, c, j);
    assert ProcOk(s, j);
    forall i | 0 <= i < |g.procs| ensures ProcOk(g, i) { assert ProcOk(s, i); }
    forall u | 0 <= u < |g.pc| ensures PickOk(g, u) { assert PickOk(s, u); }
    MarkPassed(s, c, j);
  }

  lemma MarkPassed(s: State, c: nat, j: nat)
    requires Inv(s) && Running(s, c) && j < |s.procs| && s.pc[s.cur[c]] == SHeld(j) && s.procs[j].status == RUNNABLE
    ensures var g := Mark(s, c, j);
            forall t, i {:trigger Passed(g, t, i)} :: 0 <= t < |g.pc| && 0 <= i < |g.procs| ==> Passed(g, t, i)
  {
    hide Core, FamilyFacets;
    var g := Mark(s, c, j);
    forall t, i | 0 <= t < |g.pc| && 0 <= i < |g.procs| ensures Passed(g, t, i) { assert Passed(s, t, i); }
  }

  lemma MarkCore(s: State, c: nat, j: nat)
    requires Core(s) && Running(s, c) && j < |s.procs| && s.pc[s.cur[c]] == SHeld(j)
    ensures Core(Mark(s, c, j))
  {
    hide PLockOk, LockOk;
    assert ThreadOk(s, s.cur[c]) && CpuOk(s, c);
    GotoCore(s, c, SMark(j));
    SetProcCore(Goto(s, c, SMark(j)), Mark(s, c, j));
  }

  lemma MarkOk(s: State, c: nat, j: nat)
    requires Inv(s) && Running(s, c) && j < |s.procs| && s.pc[s.cur[c]] == SHeld(j) && s.procs[j].status == RUNNABLE
    ensures Inv(Mark(s, c, j))
  {
    hide Core, ProcFacets;
    var g := Mark(s, c, j);
    MarkCore(s, c, j);
    MarkProcs(s, c, j);
    forall t | 0 <= t < |g.pc| ensures LifeOk(g, t) { assert LifeOk(s, t); }
    forall i | 0 <= i < |g.procs| ensures FamilyOk(g, i) { assert FamilyOk(s, i); }
    forall t, i | 0 <= t < |g.pc| && 0 <= i < |g.procs| ensures ClearOk(g, t, i) { assert ClearOk(s, t, i); }
  }

  lemma PointProcs(s: State, c: nat, j: nat)
    requires Inv(s) && Running(s, c) && j < |s.procs| && s.pc[s.cur[c]] == SMark(j)
    ensures ProcFacets(Point(s, c, j, SPoint(j)))
  {
    hide FamilyOk, ClearOk, LifeOk, PLockOk, LockOk, Holding, Formed;
    var t0, g := s.cur[c], Point(s, c, j, SPoint(j));
    assert ThreadOk(s, t0) && CpuOk(s, c);
    assert PickOk(s, t0);
    forall i | 0 <= i < |g.procs| ensures ProcOk(g, i) { assert ProcOk(s, i); }
    forall u | 0 <= u < |g.pc| ensures PickOk(g, u) { assert PickOk(s, u); }
    forall t, i | 0 <= t < |g.pc| && 0 <= i < |g.procs| ensures Passed(g, t, i) { assert Passed(s, t, i); }
  }

  lemma PointOk(s: State, c: nat, j: nat)
    requires Inv(s) && Running(s, c) && j < |s.procs| && s.pc[s.cur[c]] == SMark(j)
    ensures Inv(Point(s, c, j, SPoint(j)))
  {
    hide PLockOk, LockOk;
    var t0, g := s.cur[c], Point(s, c, j, SPoint(j));
    assert ThreadOk(s, t0) && CpuOk(s, c);
    PointCore(s, c, j, SPoint(j));
    assert PickOk(s, t0);
    PointProcs(s, c, j);
    forall t | 0 <= t < |g.pc| ensures LifeOk(g, t) { assert LifeOk(s, t); }
    forall i | 0 <= i < |g.procs| ensures FamilyOk(g, i) { assert FamilyOk(s, i); }
    forall t, i | 0 <= t < |g.pc| && 0 <= i < |g.procs| ensures ClearOk(g, t, i) { assert ClearOk(s, t, i); }
  }

  lemma UnpointOk(s: State, c: nat, j: nat)
    requires Inv(s) && Running(s, c) && j < |s.procs| && s.pc[s.cur[c]] == SBack(j)
    ensures Inv(Point(s, c, -1, SNull(j)))
  {
    assert ThreadOk(s, s.cur[c]) && CpuOk(s, c);
    PointCore(s, c, -1, SNull(j));
    QuietStep(s, Point(s, c, -1, SNull(j)), c, SNull(j));
  }

  /** Only the CPU that holds a process's lock can have chosen it. */
  lemma OneChooser(s: State, c: nat, j: nat, u: nat)
    requires Core(s) && Running(s, c) && j < |s.procs| && u < |s.pc|
    requires Own(s.pc[s.cur[c]], s.cur[c]) == j && u != s.cur[c]
    ensures s.pc[u] != SMark(j) && s.pc[u] != SPoint(j) && s.pc[u] != SBack(j)
  {
    assert CpuOk(s, c) && ThreadOk(s, u);
    if s.on[u] != -1 { assert CpuOk(s, s.on[u]); }
  }

  lemma SwitchInPassed(s: State, c: nat, j: nat)
    requires Inv(s) && Running(s, c) && j < |s.procs| && s.pc[s.cur[c]] == SPoint(j) && s.cur[c] == |s.procs| + c
    ensures var g := SwitchIn(s, c, j);
            forall t, i {:trigger Passed(g, t, i)} :: 0 <= t < |g.pc| && 0 <= i < |g.procs| ==> Passed(g, t, i)
  {
    hide Core, FamilyFacets;
    var g := SwitchIn(s, c, j);
    assert PickOk(s, s.cur[c]);
    forall t, i | 0 <= t < |g.pc| && 0 <= i < |g.procs| ensures Passed(g, t, i) { assert Passed(s, t, i); }
  }

  lemma SwitchInPicks(s: State, c: nat, j: nat)
    requires Inv(s) && Running(s, c) && j < |s.procs| && s.pc[s.cur[c]] == SPoint(j) && s.cur[c] == |s.procs| + c
    ensures var g := SwitchIn(s, c, j); forall u {:trigger PickOk(g, u)} :: 0 <= u < |g.pc| ==> PickOk(g, u)
  {
    hide Core, FamilyFacets, ProcOk, Passed;
    var g := SwitchIn(s, c, j);
    forall u | 0 <= u < |g.pc| ensures PickOk(g, u) {
      assert PickOk(s, u);
      if u != s.cur[c] { OneChooser(s, c, j, u); }
    }
  }

  lemma SwitchInStatus(s: State, c: nat, j: nat)
    requires Inv(s) && Running(s, c) && j < |s.procs| && s.pc[s.cur[c]] == SPoint(j) && s.cur[c] == |s.procs| + c
    ensures var g := SwitchIn(s, c, j); forall i {:trigger ProcOk(g, i)} :: 0 <= i < |g.procs| ==> ProcOk(g, i)
  {
    hide Passed, FamilyFacets, PLockOk, LockOk, Formed, Holding;
    var g := SwitchIn(s, c, j);
    assert ThreadOk(s, j) && CpuOk(s, c) && PickOk(s, s.cur[c]) && ProcOk(s, j);
    forall i | 0 <= i < |g.procs| ensures ProcOk(g, i) { assert ProcOk(s, i); }
  }

  lemma SwitchInProcs(s: State, c: nat, j: nat)
    requires Inv(s) && Running(s, c) && j < |s.procs| && s.pc[s.cur[c]] == SPoint(j) && s.cur[c] == |s.procs| + c
    ensures ProcFacets(SwitchIn(s, c, j))
  {
    hide Core, Facets, ProcOk, PickOk, Passed;
    SwitchInStatus(s, c, j);
    SwitchInPicks(s, c, j);
    SwitchInPassed(s, c, j);
  }

  lemma SwitchInOk(s: State, c: nat, j: nat)
    requires Inv(s) && Running(s, c) && j < |s.procs| && s.pc[s.cur[c]] == SPoint(j)
    ensures s.cur[c] == |s.procs| + c && Inv(SwitchIn(s, c, j))
  {
    hide Passed, PLockOk, LockOk, Formed, Holding;
    var t0, g := s.cur[c], SwitchIn(s, c, j);
    assert ProcOk(s, j);
    assert ThreadOk(s, t0) && CpuOk(s, c) && PickOk(s, t0) && ThreadOk(s, j);
    SwitchInCore(s, c, j);
    SwitchInProcs(s, c, j);
    forall t | 0 <= t < |g.pc| ensures LifeOk(g, t) { assert LifeOk(s, t); }
    forall i | 0 <= i < |g.procs| ensures FamilyOk(g, i) { assert FamilyOk(s, i); }
    forall t, i | 0 <= t < |g.pc| && 0 <= i < |g.procs| ensures ClearOk(g, t, i) { assert ClearOk(s, t, i); }
  }

  lemma SwitchOutProcs(s: State, c: nat, k: Kont)
    requires Inv(s) && Running(s, c) && s.cur[c] < |s.procs| && s.pc[s.cur[c]] == Sched(k)
    ensures ProcFacets(SwitchOut(s, c, k))
  {
    hide FamilyOk, ClearOk, LifeOk, PLockOk, LockOk, Holding, Formed;
    var t0, g := s.cur[c], SwitchOut(s, c, k);
    assert ThreadOk(s, t0) && CpuOk(s, c);
    assert ProcOk(s, t0);
    forall i | 0 <= i < |g.procs| ensures ProcOk(g, i) { assert ProcOk(s, i); }
    forall u | 0 <= u < |g.pc| ensures PickOk(g, u) { assert PickOk(s, u); }
    forall t, i | 0 <= t < |g.pc| && 0 <= i < |g.procs| ensures Passed(g, t, i) { assert Passed(s, t, i); }
  }

  lemma SwitchOutOk(s: State, c: nat, k: Kont)
    requires Inv(s) && Running(s, c) && s.cur[c] < |s.procs| && s.pc[s.cur[c]] == Sched(k)
    ensures s.plock[s.cur[c]] == c && s.noff[c] == 1 && !s.intr[c]
    ensures Inv(SwitchOut(s, c, k))
  {
    hide PLockOk, LockOk;
    var t0, g := s.cur[c], SwitchOut(s, c, k);
    assert ThreadOk(s, t0) && CpuOk(s, c);
    SwitchOutCore(s, c, k);
    assert ProcOk(s, t0);
    SwitchOutProcs(s, c, k);
    forall t | 0 <= t < |g.pc| ensures LifeOk(g, t) { assert LifeOk(s, t); }
    forall i | 0 <= i < |g.procs| ensures FamilyOk(g, i) { assert FamilyOk(s, i); }
    forall t, i | 0 <= t < |g.pc| && 0 <= i < |g.procs| ensures ClearOk(g, t, i) { assert ClearOk(s, t, i); }
  }
}
