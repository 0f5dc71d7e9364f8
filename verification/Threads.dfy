/** CPUs, kernel threads and locks: who runs where, and which CPU holds which lock.
    Threads 0 .. np-1 are the kernel threads of the processes; thread np+c is the scheduler of CPU c. */
module Threads {

  const INIT := 0    // the slot of init_proc
  const WAIT := 0    // lock number 0 is wait_lock

  /** Why a process calls sched. */
  datatype Kont = KYield(ret: PC) | KSleep(chan: nat, lk: nat, ret: PC) | KExit

  /** Where a thread is. */
  datatype PC =
    // a process thread that is not on a CPU
    | Fresh                                       // will start in forkret
    | Out(k: Kont)                                // inside swtch, called by sched
    // a process thread on a CPU
    | ForkRet
    | Kernel                                      // kernel code between the calls below
    | YieldSet(ret: PC)                           // own lock taken
    | SleepRel(chan: nat, lk: nat, ret: PC)       // own lock taken, lk still held
    | SleepSet(chan: nat, lk: nat, ret: PC)       // lk released
    | Sched(k: Kont)                              // status set, about to swtch
    | Back(k: Kont)                               // swtch has returned
    | SleepAcq(lk: nat, ret: PC)
    | WakeScan(chan: nat, lk: nat, j: nat, ret: PC)
    | WakeHeld(chan: nat, lk: nat, j: nat, ret: PC)
    | KillHeld(j: nat)
    | ForkScan(j: nat) | ForkHeld(j: nat) | ForkMade(j: nat) | ForkLink(j: nat)
    | ForkParent(j: nat) | ForkUnwait(j: nat) | ForkReady(j: nat) | ForkRun(j: nat) | ForkEnd(j: nat)
    | ExitReparent(j: nat) | ExitOwn | ExitSet | ExitRel
    | WaitScan(j: nat, kids: bool) | WaitHeld(j: nat) | WaitFreed(j: nat) | WaitDone
    // a scheduler thread; SOut is the only one not on its CPU
    | SLoop(j: nat) | SHeld(j: nat) | SMark(j: nat) | SPoint(j: nat) | SOut(j: nat) | SBack(j: nat) | SNull(j: nat)

  datatype Status = UNUSED | USED | SLEEPING | RUNNABLE | RUNNING | ZOMBIE

  datatype Slot = Slot(status: Status, chan: nat, parent: int)

  /** cur: the thread on each CPU; on: the CPU of each thread, or -1; held: the locks each thread holds, apart
      from process locks; plock and lock: the CPU recorded in each process lock and each other lock, or -1;
      noff, intr, cproc: the per-CPU fields. maker, exits and reaps are history: the thread that is forking a
      slot, and how often the slot's process has exited and been reaped. */
  datatype State = State(cur: seq<nat>, on: seq<int>, pc: seq<PC>, held: seq<set<nat>>,
                         plock: seq<int>, lock: seq<int>, noff: seq<nat>, intr: seq<bool>, cproc: seq<int>,
                         procs: seq<Slot>, maker: seq<int>, exits: seq<nat>, reaps: seq<nat>)

  predicate Off(p: PC) { p.Fresh? || p.Out? || p.SOut? }

  /** Program counters of scheduler threads; an interrupt handler on an idle CPU may call wakeup. */
  predicate OfSched(p: PC) {
    match p
    case WakeScan(_, _, _, ret) => OfSched(ret)
    case WakeHeld(_, _, _, ret) => OfSched(ret)
    case _ => p.SLoop? || p.SHeld? || p.SMark? || p.SPoint? || p.SOut? || p.SBack? || p.SNull?
  }

  /** The process whose lock a thread holds at this point, or -1. */
  function Own(p: PC, t: nat): int {
    match p
    case ForkRet => t case YieldSet(_) => t case SleepRel(_, _, _) => t case SleepSet(_, _, _) => t
    case Sched(_) => t case Back(_) => t case ExitSet => t case ExitRel => t
    case WakeHeld(_, _, j, _) => j case KillHeld(j) => j
    case ForkHeld(j) => j case ForkMade(j) => j case ForkRun(j) => j case ForkEnd(j) => j
    case WaitHeld(j) => j case WaitFreed(j) => j
    case SHeld(j) => j case SMark(j) => j case SPoint(j) => j case SBack(j) => j case SNull(j) => j
    case _ => -1
  }

  /** Which other locks a thread holds at this point. */
  predicate Holding(p: PC, h: set<nat>) {
    match p
    case Kernel => true
    case SLoop(_) => true
    case WakeScan(_, lk, _, ret) => lk in h && Holding(ret, h)
    case WakeHeld(_, lk, _, ret) => lk in h && Holding(ret, h)
    case SleepRel(_, lk, _) => h == {lk}
    case ForkParent(_) => h == {WAIT} case ForkUnwait(_) => h == {WAIT}
    case ExitReparent(_) => h == {WAIT} case ExitOwn => h == {WAIT}
    case ExitSet => h == {WAIT} case ExitRel => h == {WAIT}
    case WaitScan(_, _) => h == {WAIT} case WaitHeld(_) => h == {WAIT}
    case WaitFreed(_) => h == {WAIT} case WaitDone => h == {WAIT}
    case _ => h == {}
  }

  /** Where wakeup may be called from, and where sleep returns to. */
  predicate WakeReturn(p: PC) { p.Kernel? || p.SLoop? || p.ExitReparent? || p.ExitOwn? }
  predicate SleepReturn(p: PC, lk: nat) { p.Kernel? || (p == WaitScan(0, false) && lk == WAIT) }

  /** Where a process may be made to yield: in kernel code without a lock, be it its own or a routine's. */
  predicate YieldOk(p: PC, np: nat, nl: nat) {
    match p
    case Kernel => true
    case ForkScan(j) => j <= np case ForkLink(j) => j < np case ForkReady(j) => j < np
    case SleepAcq(lk, ret) => lk < nl && SleepReturn(ret, lk)
    case _ => false
  }

  predicate KontOk(k: Kont, np: nat, nl: nat) {
    match k
    case KYield(ret) => YieldOk(ret, np, nl)
    case KSleep(_, lk, ret) => lk < nl && SleepReturn(ret, lk)
    case KExit => true
  }

  /** Indices are in range and nested returns are those of the code. */
  predicate Formed(p: PC, np: nat, nl: nat) {
    match p
    case Out(k) => KontOk(k, np, nl) case Sched(k) => KontOk(k, np, nl) case Back(k) => KontOk(k, np, nl) && !k.KExit?
    case YieldSet(ret) => YieldOk(ret, np, nl)
    case SleepRel(_, lk, ret) => lk < nl && SleepReturn(ret, lk)
    case SleepSet(_, lk, ret) => lk < nl && SleepReturn(ret, lk)
    case SleepAcq(lk, ret) => lk < nl && SleepReturn(ret, lk)
    case WakeScan(_, lk, j, ret) => lk < nl && j <= np && WakeReturn(ret) && Formed(ret, np, nl)
    case WakeHeld(_, lk, j, ret) => lk < nl && j < np && WakeReturn(ret) && Formed(ret, np, nl)
    case KillHeld(j) => j < np
    case ForkScan(j) => j <= np case ForkHeld(j) => j < np case ForkMade(j) => j < np case ForkLink(j) => j < np
    case ForkParent(j) => j < np case ForkUnwait(j) => j < np case ForkReady(j) => j < np
    case ForkRun(j) => j < np case ForkEnd(j) => j < np
    case ExitReparent(j) => j <= np
    case WaitScan(j, _) => j <= np case WaitHeld(j) => j < np case WaitFreed(j) => j < np
    case SLoop(j) => j <= np case SHeld(j) => j < np case SMark(j) => j < np case SPoint(j) => j < np
    case SOut(j) => j < np case SBack(j) => j < np case SNull(j) => j < np
    case _ => true
  }

  predicate Sized(s: State) {
    var np, nc := |s.procs|, |s.cur|;
    && np > INIT && |s.lock| > WAIT
    && |s.on| == |s.pc| == |s.held| == np + nc && |s.plock| == np
    && |s.noff| == |s.intr| == |s.cproc| == nc && |s.maker| == |s.exits| == |s.reaps| == np
  }

  /** Thread t is on at most one CPU, which runs it; a thread off the CPUs holds nothing. */
  predicate ThreadOk(s: State, t: nat)
    requires Sized(s) && t < |s.pc|
  {
    && Formed(s.pc[t], |s.procs|, |s.lock|)
    && (s.on[t] == -1 <==> Off(s.pc[t]))
    && (s.on[t] == -1 || (0 <= s.on[t] < |s.cur| && s.cur[s.on[t]] == t))
    && Holding(s.pc[t], s.held[t])
    && (OfSched(s.pc[t]) <==> t >= |s.procs|)
    && (t >= |s.procs| && s.on[t] != -1 ==> s.on[t] == t - |s.procs|)
  }

  function PointedAt(p: PC): int {
    match p
    case SPoint(j) => j case SOut(j) => j case SBack(j) => j case _ => -1
  }

  /** The locks recorded for CPU c are those its thread holds, noff counts them, and interrupts are off while
      there are any. The scheduler of c is switched out exactly for the process that runs on c. */
  predicate CpuOk(s: State, c: nat)
    requires Sized(s) && c < |s.cur|
  {
    var t := s.cur[c];
    && t < |s.pc| && s.on[t] == c
    && (0 <= Own(s.pc[t], t) < |s.procs| ==> s.plock[Own(s.pc[t], t)] == c)
    && (forall l {:trigger l in s.held[t]} :: l in s.held[t] ==> l < |s.lock| && s.lock[l] == c)
    && s.noff[c] == |s.held[t]| + (if Own(s.pc[t], t) == -1 then 0 else 1)
    && (s.noff[c] > 0 ==> !s.intr[c])
    && (t < |s.procs| ==> s.pc[|s.procs| + c] == SOut(t))
    && (s.pc[|s.procs| + c].SOut? ==> t == s.pc[|s.procs| + c].j)
    && s.cproc[c] == PointedAt(s.pc[|s.procs| + c])
  }

  predicate PLockOk(s: State, i: nat)
    requires Sized(s) && i < |s.procs|
  {
    var c := s.plock[i];
    c == -1 || (0 <= c < |s.cur| && s.cur[c] < |s.pc| && Own(s.pc[s.cur[c]], s.cur[c]) == i)
  }

  predicate LockOk(s: State, l: nat)
    requires Sized(s) && l < |s.lock|
  {
    var c := s.lock[l];
    c == -1 || (0 <= c < |s.cur| && s.cur[c] < |s.pc| && l in s.held[s.cur[c]])
  }

  ghost predicate Core(s: State) {
    && Sized(s)
    && (forall t {:trigger ThreadOk(s, t)} :: 0 <= t < |s.pc| ==> ThreadOk(s, t))
    && (forall c {:trigger CpuOk(s, c)} :: 0 <= c < |s.cur| ==> CpuOk(s, c))
    && (forall i {:trigger PLockOk(s, i)} :: 0 <= i < |s.procs| ==> PLockOk(s, i))
    && (forall l {:trigger LockOk(s, l)} :: 0 <= l < |s.lock| ==> LockOk(s, l))
  }

  // ---- the updates that steps are made of; the thread is the one on CPU c ----

  /** Goes to p without touching a lock. */
  function Goto(s: State, c: nat, p: PC): State
    requires c < |s.cur| && s.cur[c] < |s.pc|
  {
    s.(pc := s.pc[s.cur[c] := p])
  }

  /** push_off and a successful test-and-set of process lock i. */
  function TakeP(s: State, c: nat, i: nat, p: PC): State
    requires Sized(s) && c < |s.cur| && s.cur[c] < |s.pc| && i < |s.procs|
  {
    Goto(s, c, p).(plock := s.plock[i := c], noff := s.noff[c := s.noff[c] + 1], intr := s.intr[c := false])
  }

  /** Release of process lock i and pop_off, which may turn interrupts on again. */
  function DropP(s: State, c: nat, i: nat, p: PC, on: bool): State
    requires Sized(s) && c < |s.cur| && s.cur[c] < |s.pc| && i < |s.procs| && s.noff[c] > 0
  {
    Goto(s, c, p).(plock := s.plock[i := -1], noff := s.noff[c := s.noff[c] - 1],
                   intr := s.intr[c := on && s.noff[c] == 1])
  }

  function TakeL(s: State, c: nat, l: nat, p: PC): State
    requires Sized(s) && c < |s.cur| && s.cur[c] < |s.pc| && l < |s.lock|
  {
    var t := s.cur[c];
    Goto(s, c, p).(lock := s.lock[l := c], held := s.held[t := s.held[t] + {l}],
                   noff := s.noff[c := s.noff[c] + 1], intr := s.intr[c := false])
  }

  function DropL(s: State, c: nat, l: nat, p: PC, on: bool): State
    requires Sized(s) && c < |s.cur| && s.cur[c] < |s.pc| && l < |s.lock| && s.noff[c] > 0
  {
    var t := s.cur[c];
    Goto(s, c, p).(lock := s.lock[l := -1], held := s.held[t := s.held[t] - {l}],
                   noff := s.noff[c := s.noff[c] - 1], intr := s.intr[c := on && s.noff[c] == 1])
  }

  /** What the new program counter must satisfy. */
  predicate Fits(s: State, t: nat, p: PC, h: set<nat>)
    requires Sized(s)
  {
    Formed(p, |s.procs|, |s.lock|) && !Off(p) && Holding(p, h) && (OfSched(p) <==> t >= |s.procs|) &&
    (t >= |s.procs| ==> PointedAt(p) == -1)
  }

  /** A change of the running thread's program counter and held locks alone. */
  lemma ThreadsStep(s: State, g: State, c: nat, p: PC, h: set<nat>)
    requires Core(s) && Sized(g) && c < |s.cur| && s.cur[c] < |s.pc|
    requires g.cur == s.cur && g.on == s.on && |g.procs| == |s.procs| && |g.lock| == |s.lock|
    requires g.pc == s.pc[s.cur[c] := p] && g.held == s.held[s.cur[c] := h]
    requires Formed(p, |s.procs|, |s.lock|) && !Off(p) && Holding(p, h) && (OfSched(p) <==> s.cur[c] >= |s.procs|)
    ensures forall t {:trigger ThreadOk(g, t)} :: 0 <= t < |g.pc| ==> ThreadOk(g, t)
  {
    hide Formed, Holding, Own, OfSched, PLockOk, LockOk;
    assert CpuOk(s, c);
    forall t | 0 <= t < |g.pc| ensures ThreadOk(g, t) { assert ThreadOk(s, t); }
  }

  /** A scheduler thread runs only on its own CPU. */
  lemma SchedulerHere(s: State, c: nat)
    requires Core(s) && c < |s.cur| && s.cur[c] < |s.pc|
    ensures s.cur[c] < |s.procs| || s.cur[c] == |s.procs| + c
  {
    hide Formed, Holding, Own, OfSched, PLockOk, LockOk;
    assert CpuOk(s, c) && ThreadOk(s, s.cur[c]);
  }

  lemma GotoCore(s: State, c: nat, p: PC)
    requires Core(s) && c < |s.cur| && s.cur[c] < |s.pc|
    requires Fits(s, s.cur[c], p, s.held[s.cur[c]]) && Own(p, s.cur[c]) == Own(s.pc[s.cur[c]], s.cur[c])
    requires PointedAt(s.pc[s.cur[c]]) == -1
    ensures Core(Goto(s, c, p))
  {
    hide ThreadOk, Formed, Holding, OfSched;
    var g := Goto(s, c, p);
    ThreadsStep(s, g, c, p, s.held[s.cur[c]]);
    SchedulerHere(s, c);
    assert CpuOk(s, c);
    forall d | 0 <= d < |g.cur| ensures CpuOk(g, d) { assert CpuOk(s, d); }
    forall i | 0 <= i < |g.procs| ensures PLockOk(g, i) { assert PLockOk(s, i); }
    forall l | 0 <= l < |g.lock| ensures LockOk(g, l) { assert LockOk(s, l); }
  }

  lemma TakePCore(s: State, c: nat, i: nat, p: PC)
    requires Core(s) && c < |s.cur| && s.cur[c] < |s.pc| && i < |s.procs|
    requires Fits(s, s.cur[c], p, s.held[s.cur[c]]) && Own(s.pc[s.cur[c]], s.cur[c]) == -1 && Own(p, s.cur[c]) == i
    requires PointedAt(s.pc[s.cur[c]]) == -1 && s.plock[i] == -1
    ensures Core(TakeP(s, c, i, p))
  {
    hide ThreadOk, Formed, Holding, OfSched;
    var g := TakeP(s, c, i, p);
    ThreadsStep(s, g, c, p, s.held[s.cur[c]]);
    SchedulerHere(s, c);
    assert CpuOk(s, c);
    forall d | 0 <= d < |g.cur| ensures CpuOk(g, d) { assert CpuOk(s, d); }
    forall i | 0 <= i < |g.procs| ensures PLockOk(g, i) { assert PLockOk(s, i); }
    forall l | 0 <= l < |g.lock| ensures LockOk(g, l) { assert LockOk(s, l); }
  }

  /** noff is 1 or more and the lock is held by the releasing CPU: neither panic of release is reached. */
  lemma HoldsP(s: State, c: nat)
    requires Core(s) && c < |s.cur| && s.cur[c] < |s.pc| && 0 <= Own(s.pc[s.cur[c]], s.cur[c]) < |s.procs|
    ensures s.plock[Own(s.pc[s.cur[c]], s.cur[c])] == c && s.noff[c] > 0 && !s.intr[c]
  {
    assert CpuOk(s, c);
  }

  lemma DropPCore(s: State, c: nat, i: nat, p: PC, on: bool)
    requires Core(s) && c < |s.cur| && s.cur[c] < |s.pc| && i < |s.procs| && s.noff[c] > 0
    requires Fits(s, s.cur[c], p, s.held[s.cur[c]]) && Own(s.pc[s.cur[c]], s.cur[c]) == i && Own(p, s.cur[c]) == -1
    requires PointedAt(s.pc[s.cur[c]]) == -1
    ensures Core(DropP(s, c, i, p, on))
  {
    hide ThreadOk, Formed, Holding, OfSched;
    var g := DropP(s, c, i, p, on);
    ThreadsStep(s, g, c, p, s.held[s.cur[c]]);
    SchedulerHere(s, c);
    assert CpuOk(s, c);
    forall d | 0 <= d < |g.cur| ensures CpuOk(g, d) { assert CpuOk(s, d); }
    forall i | 0 <= i < |g.procs| ensures PLockOk(g, i) { assert PLockOk(s, i); }
    forall l | 0 <= l < |g.lock| ensures LockOk(g, l) { assert LockOk(s, l); }
  }

  lemma TakeLCore(s: State, c: nat, l: nat, p: PC)
    requires Core(s) && c < |s.cur| && s.cur[c] < |s.pc| && l < |s.lock|
    requires Fits(s, s.cur[c], p, s.held[s.cur[c]] + {l}) && Own(s.pc[s.cur[c]], s.cur[c]) == Own(p, s.cur[c])
    requires PointedAt(s.pc[s.cur[c]]) == -1 && s.lock[l] == -1
    ensures Core(TakeL(s, c, l, p))
  {
    hide ThreadOk, Formed, Holding, OfSched, Own;
    var g := TakeL(s, c, l, p);
    ThreadsStep(s, g, c, p, s.held[s.cur[c]] + {l});
    SchedulerHere(s, c);
    assert CpuOk(s, c);
    assert l !in s.held[s.cur[c]] && |s.held[s.cur[c]] + {l}| == |s.held[s.cur[c]]| + 1;
    forall d | 0 <= d < |g.cur| ensures CpuOk(g, d) { assert CpuOk(s, d); }
    forall i | 0 <= i < |g.procs| ensures PLockOk(g, i) { assert PLockOk(s, i); }
    forall l | 0 <= l < |g.lock| ensures LockOk(g, l) { assert LockOk(s, l); }
  }

  lemma HoldsL(s: State, c: nat, l: nat)
    requires Core(s) && c < |s.cur| && s.cur[c] < |s.pc| && l in s.held[s.cur[c]]
    ensures l < |s.lock| && s.lock[l] == c && s.noff[c] > 0 && !s.intr[c]
  {
    assert CpuOk(s, c);
    assert {l} <= s.held[s.cur[c]];
  }

  lemma DropLCore(s: State, c: nat, l: nat, p: PC, on: bool)
    requires Core(s) && c < |s.cur| && s.cur[c] < |s.pc| && l < |s.lock| && s.noff[c] > 0
    requires l in s.held[s.cur[c]]
    requires Fits(s, s.cur[c], p, s.held[s.cur[c]] - {l}) && Own(s.pc[s.cur[c]], s.cur[c]) == Own(p, s.cur[c])
    requires PointedAt(s.pc[s.cur[c]]) == -1
    ensures Core(DropL(s, c, l, p, on))
  {
    hide ThreadOk, Formed, Holding, OfSched, Own;
    var g := DropL(s, c, l, p, on);
    ThreadsStep(s, g, c, p, s.held[s.cur[c]] - {l});
    SchedulerHere(s, c);
    assert CpuOk(s, c);
    forall d | 0 <= d < |g.cur| ensures CpuOk(g, d) { assert CpuOk(s, d); }
    forall i | 0 <= i < |g.procs| ensures PLockOk(g, i) { assert PLockOk(s, i); }
    forall l | 0 <= l < |g.lock| ensures LockOk(g, l) { assert LockOk(s, l); }
  }

  // ---- swtch: CPU c changes thread; the process lock of j stays with the CPU ----

  /** The scheduler of c, at SPoint(j), switches to process j. */
  function SwitchIn(s: State, c: nat, j: nat): State
    requires Sized(s) && c < |s.cur| && j < |s.procs|
  {
    var u := |s.procs| + c;
    var p := if s.pc[j].Out? then Back(s.pc[j].k) else ForkRet;
    s.(cur := s.cur[c := j], on := s.on[u := -1][j := c], pc := s.pc[u := SOut(j)][j := p])
  }

  /** Process t, on c, switches back to the scheduler. */
  function SwitchOut(s: State, c: nat, k: Kont): State
    requires Sized(s) && c < |s.cur| && s.cur[c] < |s.procs|
  {
    var t, u := s.cur[c], |s.procs| + c;
    s.(cur := s.cur[c := u], on := s.on[t := -1][u := c], pc := s.pc[t := Out(k)][u := SBack(t)])
  }

  lemma SwitchInThreads(s: State, c: nat, j: nat)
    requires Core(s) && c < |s.cur| && j < |s.procs|
    requires s.cur[c] == |s.procs| + c && s.pc[s.cur[c]] == SPoint(j) && s.on[j] == -1
    requires s.pc[j] != Out(KExit)
    ensures forall t {:trigger ThreadOk(SwitchIn(s, c, j), t)} :: 0 <= t < |s.pc| ==> ThreadOk(SwitchIn(s, c, j), t)
  {
    hide PLockOk, LockOk;
    var g := SwitchIn(s, c, j);
    var u := |s.procs| + c;
    assert CpuOk(s, c) && ThreadOk(s, u) && ThreadOk(s, j);
    forall t | 0 <= t < |s.pc| ensures ThreadOk(g, t) { assert ThreadOk(s, t); }
  }

  lemma SwitchInHere(s: State, c: nat, j: nat)
    requires Core(s) && c < |s.cur| && j < |s.procs|
    requires s.cur[c] == |s.procs| + c && s.pc[s.cur[c]] == SPoint(j) && s.on[j] == -1
    requires s.pc[j] != Out(KExit)
    ensures s.held[|s.procs| + c] == {} && s.held[j] == {} && |SwitchIn(s, c, j).pc| == |s.pc|
  {
    assert CpuOk(s, c) && ThreadOk(s, |s.procs| + c) && ThreadOk(s, j);
  }

  lemma SwitchInCore(s: State, c: nat, j: nat)
    requires Core(s) && c < |s.cur| && j < |s.procs|
    requires s.cur[c] == |s.procs| + c && s.pc[s.cur[c]] == SPoint(j) && s.on[j] == -1
    requires s.pc[j] != Out(KExit)
    ensures Core(SwitchIn(s, c, j))
  {
    hide ThreadOk, Formed, Holding, OfSched;
    var g := SwitchIn(s, c, j);
    var u := |s.procs| + c;
    SwitchInThreads(s, c, j);
    SwitchInHere(s, c, j);
    assert CpuOk(s, c);
    forall d | 0 <= d < |g.cur| ensures CpuOk(g, d) { assert CpuOk(s, d); }
    forall i | 0 <= i < |g.procs| ensures PLockOk(g, i) {
      assert PLockOk(s, i);
      if s.plock[i] != -1 { assert CpuOk(s, s.plock[i]); }
    }
    forall l | 0 <= l < |g.lock| ensures LockOk(g, l) {
      assert LockOk(s, l);
      if s.lock[l] != -1 { assert CpuOk(s, s.lock[l]); }
    }
  }

  lemma SwitchOutThreads(s: State, c: nat, k: Kont)
    requires Core(s) && c < |s.cur| && s.cur[c] < |s.procs| && s.pc[s.cur[c]] == Sched(k)
    ensures forall t {:trigger ThreadOk(SwitchOut(s, c, k), t)} :: 0 <= t < |s.pc| ==> ThreadOk(SwitchOut(s, c, k), t)
  {
    hide PLockOk, LockOk;
    var g := SwitchOut(s, c, k);
    var u := |s.procs| + c;
    assert CpuOk(s, c) && ThreadOk(s, u) && ThreadOk(s, s.cur[c]);
    forall t | 0 <= t < |s.pc| ensures ThreadOk(g, t) { assert ThreadOk(s, t); }
  }

  lemma SwitchOutHere(s: State, c: nat, k: Kont)
    requires Core(s) && c < |s.cur| && s.cur[c] < |s.procs| && s.pc[s.cur[c]] == Sched(k)
    ensures s.on[|s.procs| + c] == -1 && s.held[|s.procs| + c] == {} && s.held[s.cur[c]] == {} &&
            |SwitchOut(s, c, k).pc| == |s.pc|
  {
    assert CpuOk(s, c) && ThreadOk(s, |s.procs| + c) && ThreadOk(s, s.cur[c]);
  }

  lemma SwitchOutCore(s: State, c: nat, k: Kont)
    requires Core(s) && c < |s.cur| && s.cur[c] < |s.procs| && s.pc[s.cur[c]] == Sched(k)
    ensures Core(SwitchOut(s, c, k))
  {
    hide ThreadOk, Formed, Holding, OfSched;
    var g := SwitchOut(s, c, k);
    var u := |s.procs| + c;
    SwitchOutThreads(s, c, k);
    SwitchOutHere(s, c, k);
    assert CpuOk(s, c);
    forall d | 0 <= d < |g.cur| ensures CpuOk(g, d) { assert CpuOk(s, d); }
    forall i | 0 <= i < |g.procs| ensures PLockOk(g, i) {
      assert PLockOk(s, i);
      if s.plock[i] != -1 { assert CpuOk(s, s.plock[i]); }
    }
    forall l | 0 <= l < |g.lock| ensures LockOk(g, l) {
      assert LockOk(s, l);
      if s.lock[l] != -1 { assert CpuOk(s, s.lock[l]); }
    }
  }

  /** The scheduler sets or clears the process pointer of its CPU. */
  function Point(s: State, c: nat, j: int, p: PC): State
    requires Sized(s) && c < |s.cur| && s.cur[c] < |s.pc|
  {
    Goto(s, c, p).(cproc := s.cproc[c := j])
  }

  lemma PointCore(s: State, c: nat, j: int, p: PC)
    requires Core(s) && c < |s.cur| && s.cur[c] == |s.procs| + c
    requires Formed(p, |s.procs|, |s.lock|) && !Off(p) && Holding(p, s.held[s.cur[c]]) && OfSched(p) &&
             PointedAt(p) == j
    requires Own(p, s.cur[c]) == Own(s.pc[s.cur[c]], s.cur[c])
    ensures Core(Point(s, c, j, p))
  {
    hide ThreadOk, Formed, Holding, OfSched;
    var g := Point(s, c, j, p);
    ThreadsStep(s, g, c, p, s.held[s.cur[c]]);
    SchedulerHere(s, c);
    assert CpuOk(s, c);
    forall d | 0 <= d < |g.cur| ensures CpuOk(g, d) { assert CpuOk(s, d); }
    forall i | 0 <= i < |g.procs| ensures PLockOk(g, i) { assert PLockOk(s, i); }
    forall l | 0 <= l < |g.lock| ensures LockOk(g, l) { assert LockOk(s, l); }
  }
}
