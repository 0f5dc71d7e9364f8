/** What steps do to processes, and what wait and exit promise each other. */
module ProcWait {

  import opened Threads
  import opened Proc
  import opened ProcRun

  // ---- which step changes which process ----

  /** The status of process i after a step of thread t, which is at p. */
  function StatusAfter(p: PC, t: nat, ok: bool, i: nat, q: Slot): Status {
    match p
    case ForkHeld(j) => if j == i && q.status == UNUSED then USED else q.status
    case ForkMade(j) => if j == i && !ok then UNUSED else q.status
    case ForkRun(j) => if j == i then RUNNABLE else q.status
    case SHeld(j) => if j == i && q.status == RUNNABLE then RUNNING else q.status
    case YieldSet(_) => if i == t then RUNNABLE else q.status
    case SleepSet(_, _, _) => if i == t then SLEEPING else q.status
    case WakeHeld(chan, _, j, _) => if j == i && q.status == SLEEPING && q.chan == chan then RUNNABLE else q.status
    case KillHeld(j) => if j == i && q.status == SLEEPING then RUNNABLE else q.status
    case ExitSet => if i == t then ZOMBIE else q.status
    case WaitHeld(j) => if j == i && q.status == ZOMBIE && ok then UNUSED else q.status
    case _ => q.status
  }

  /** Its parent after the step. */
  function ParentAfter(p: PC, t: nat, ok: bool, i: nat, q: Slot): int {
    match p
    case ForkMade(j) => if j == i && !ok then -1 else q.parent
    case ForkParent(j) => if j == i then t else q.parent
    case ExitReparent(j) => if j == i && q.parent == t then INIT else q.parent
    case WaitHeld(j) => if j == i && q.status == ZOMBIE && ok then -1 else q.parent
    case _ => q.parent
  }

  predicate Fated(s: State, g: State, p: PC, t: nat, ok: bool, i: nat) {
    && |g.procs| == |s.procs| && |g.pc| == |s.pc|
    && (i < |s.procs| ==>
          && g.procs[i].status == StatusAfter(p, t, ok, i, s.procs[i])
          && g.procs[i].parent == ParentAfter(p, t, ok, i, s.procs[i]))
  }

  lemma SchedFates(s: State, c: nat, p: PC, a: Act, ok: bool, i: nat)
    requires Running(s, c) && OfSched(p) && !p.WakeScan? && !p.WakeHeld? && StepSched(s, c, p, a).Next?
    ensures Fated(s, StepSched(s, c, p, a).s, p, s.cur[c], ok, i)
  {}

  lemma KernelFates(s: State, c: nat, a: Act, ok: bool, i: nat)
    requires Running(s, c) && s.cur[c] < |s.procs| && StepKernel(s, c, a).Next?
    ensures Fated(s, StepKernel(s, c, a).s, Kernel, s.cur[c], ok, i)
  {}

  lemma WakeFates(s: State, c: nat, p: PC, ok: bool, on: bool, i: nat)
    requires Running(s, c) && StepWake(s, c, p, on).Next?
    ensures Fated(s, StepWake(s, c, p, on).s, p, s.cur[c], ok, i)
  {}

  lemma ExitFates(s: State, c: nat, p: PC, ok: bool, on: bool, i: nat)
    requires Running(s, c) && s.cur[c] < |s.procs| && StepExit(s, c, p, on).Next?
    ensures Fated(s, StepExit(s, c, p, on).s, p, s.cur[c], ok, i)
  {}

  lemma WaitFates(s: State, c: nat, p: PC, ok: bool, on: bool, i: nat)
    requires Running(s, c) && s.cur[c] < |s.procs| && StepWait(s, c, p, ok, on).Next?
    ensures Fated(s, StepWait(s, c, p, ok, on).s, p, s.cur[c], ok, i)
  {}

  lemma SleepFates(s: State, c: nat, p: PC, ok: bool, on: bool, i: nat)
    requires Running(s, c) && s.cur[c] < |s.procs| && StepSleep(s, c, p, on).Next?
    ensures Fated(s, StepSleep(s, c, p, on).s, p, s.cur[c], ok, i)
  {}

  lemma ForkFates(s: State, c: nat, p: PC, ok: bool, on: bool, i: nat)
    requires Running(s, c) && StepFork(s, c, p, ok, on).Next?
    ensures Fated(s, StepFork(s, c, p, ok, on).s, p, s.cur[c], ok, i)
  {}

  lemma YieldFates(s: State, c: nat, p: PC, ok: bool, i: nat)
    requires Running(s, c) && s.cur[c] < |s.procs| && YieldOk(p, |s.procs|, |s.lock|)
    requires AcquireP(s, c, s.cur[c], YieldSet(p)).Next?
    ensures Fated(s, AcquireP(s, c, s.cur[c], YieldSet(p)).s, p, s.cur[c], ok, i)
  {}

  /** The answer a step gets: of an allocation, a copy or a killed test. */
  function Answer(a: Act): bool { a.Go? && a.ok }

  /** These steps, and no others, change the status or the parent of a process, and this is how. */
  lemma StepFates(s: State, c: nat, a: Act, i: nat)
    requires Inv(s) && Running(s, c) && Step(s, c, a).Next?
    ensures Fated(s, Step(s, c, a).s, s.pc[s.cur[c]], s.cur[c], Answer(a), i)
  {
    hide Inv, ThreadOk, StepSched, StepKernel, StepWake, StepExit, StepWait, StepSleep, StepFork, Fated;
    var p, ok := s.pc[s.cur[c]], Answer(a);
    if OfSched(p) && !p.WakeScan? && !p.WakeHeld? {
      SchedFates(s, c, p, a, ok, i);
    } else if p.Kernel? && s.cur[c] < |s.procs| {
      KernelFates(s, c, a, ok, i);
    } else if a.Yield? {
      YieldFates(s, c, p, ok, i);
    } else if p.WakeScan? || p.WakeHeld? || p.KillHeld? {
      WakeFates(s, c, p, ok, a.on, i);
    } else if p.ExitReparent? || p.ExitOwn? || p.ExitSet? || p.ExitRel? {
      ExitFates(s, c, p, ok, a.on, i);
    } else if p.WaitScan? || p.WaitHeld? || p.WaitFreed? || p.WaitDone? {
      WaitFates(s, c, p, ok, a.on, i);
    } else if p.ForkRet? || p.YieldSet? || p.SleepRel? || p.SleepSet? || p.Sched? || p.Back? || p.SleepAcq? {
      SleepFates(s, c, p, ok, a.on, i);
    } else {
      ForkFates(s, c, p, ok, a.on, i);
    }
  }

  // ---- where steps take a thread that waits, exits or wakes others ----

  /** At p, a process is in the sleep of wait, before anybody has switched back to it. */
  predicate InWaitSleep(p: PC) {
    match p
    case SleepRel(_, _, ret) => ret.WaitScan?
    case SleepSet(_, _, ret) => ret.WaitScan?
    case Sched(k) => k.KSleep? && k.ret.WaitScan?
    case Out(k) => k.KSleep? && k.ret.WaitScan?
    case _ => false
  }

  function SleepChan(p: PC): nat {
    match p
    case SleepRel(chan, _, _) => chan
    case SleepSet(chan, _, _) => chan
    case Sched(k) => if k.KSleep? then k.chan else 0
    case Out(k) => if k.KSleep? then k.chan else 0
    case _ => 0
  }

  /** Process q has released wait_lock in the sleep of wait, and nobody has woken it. */
  predicate AsleepInWait(s: State, q: nat)
    requires Sized(s) && q < |s.procs|
  {
    InWaitSleep(s.pc[q]) && !s.pc[q].SleepRel? && (s.pc[q].SleepSet? || s.procs[q].status == SLEEPING)
  }

  /** exit is in the wakeup of its parent. */
  predicate Telling(p: PC) { (p.WakeScan? || p.WakeHeld?) && p.ret == ExitOwn }

  /** exit has finished that wakeup and still holds wait_lock. */
  predicate Told(p: PC) { p.ExitOwn? || p.ExitSet? || p.ExitRel? }

  /** Thread t runs wakeup(q) under wait_lock and has not passed q. */
  predicate WakingBy(s: State, t: nat, q: nat)
    requires t < |s.pc|
  {
    var p := s.pc[t];
    (p.WakeScan? || p.WakeHeld?) && p.chan == q + 1 && p.lk == WAIT && p.j <= q
  }

  /** How many slots wait has looked at since it last took wait_lock. */
  function Looked(p: PC, np: nat): nat {
    match p
    case WaitScan(j, _) => j
    case WaitHeld(j) => j
    case SleepRel(_, _, ret) => if ret.WaitScan? then np else 0
    case _ => 0
  }

  /** wait has seen a child, or sleeps because it has. */
  predicate SawKid(p: PC) { (p.WaitScan? && p.kids) || InWaitSleep(p) }

  predicate Child(s: State, t: nat, i: nat)
    requires i < |s.procs|
  {
    s.procs[i].parent == t
  }

  predicate ZombieChild(s: State, t: nat, i: nat)
    requires i < |s.procs|
  {
    s.procs[i].parent == t && s.procs[i].status == ZOMBIE
  }

  /** How exit and wakeup lead from p to o. */
  predicate ExitWay(s: State, t: nat, p: PC, o: PC) {
    var np := |s.procs|;
    && (Told(o) ==> Told(p) || (p.WakeScan? && Telling(p) && p.j >= np))
    && (Telling(o) ==> (if Telling(p) then o.chan == p.chan && o.lk == p.lk
                        else p.ExitReparent? && t < np && o.chan == s.procs[t].parent + 1 && o.lk == WAIT))
    && ((p.WakeScan? || p.WakeHeld?) && p.j < np ==>
          (o.WakeScan? || o.WakeHeld?) && o.chan == p.chan && o.lk == p.lk && o.j <= p.j + 1)
  }

  /** How wait leads from p to o. */
  predicate WaitWay(s: State, t: nat, p: PC, o: PC) {
    var np := |s.procs|;
    && (Looked(o, np) > Looked(p, np) ==>
          && (p.WaitScan? || p.WaitHeld?) && Looked(o, np) == Looked(p, np) + 1 <= np
          && !ZombieChild(s, t, Looked(p, np)))
    && (o.WaitScan? && !o.kids && o.j > 0 ==> p == WaitScan(o.j - 1, false) && o.j <= np && !Child(s, t, o.j - 1))
    && (SawKid(o) ==> SawKid(p) || (p.WaitHeld? && p.j < np && o == WaitScan(p.j + 1, true)))
    && (InWaitSleep(o) ==> (if InWaitSleep(p) then SleepChan(o) == SleepChan(p)
                            else p.WaitScan? && o.SleepRel? && SleepChan(o) == t + 1))
    && (o.SleepRel? && InWaitSleep(o) ==> p.WaitScan?)
  }

  predicate Course(s: State, t: nat, p: PC, o: PC) { ExitWay(s, t, p, o) && WaitWay(s, t, p, o) }

  /** At o, a thread has no part in all this. */
  predicate Apart(o: PC) { !Told(o) && !Telling(o) && !SawKid(o) && Looked(o, 1) == 0 }

  lemma ApartCourse(s: State, t: nat, p: PC, o: PC)
    requires Apart(o) && !p.WakeScan? && !p.WakeHeld?
    ensures Course(s, t, p, o)
  {}

  lemma LoopCourse(s: State, c: nat, p: PC, a: Act)
    requires Running(s, c) && s.pc[s.cur[c]] == p && p.SLoop? && StepSched(s, c, p, a).Next?
    ensures Course(s, s.cur[c], p, StepSched(s, c, p, a).s.pc[s.cur[c]])
  {
    hide Course;
    ApartCourse(s, s.cur[c], p, StepSched(s, c, p, a).s.pc[s.cur[c]]);
  }

  lemma SchedCourse(s: State, c: nat, p: PC, a: Act)
    requires Running(s, c) && s.pc[s.cur[c]] == p && StepSched(s, c, p, a).Next?
    requires !p.SLoop? && !p.WakeScan? && !p.WakeHeld?
    requires p.SPoint? ==> p.j != s.cur[c]
    ensures Course(s, s.cur[c], p, StepSched(s, c, p, a).s.pc[s.cur[c]])
  {
    hide Course;
    ApartCourse(s, s.cur[c], p, StepSched(s, c, p, a).s.pc[s.cur[c]]);
  }

  lemma KernelCourse(s: State, c: nat, a: Act)
    requires Running(s, c) && s.cur[c] < |s.procs| && s.pc[s.cur[c]] == Kernel && StepKernel(s, c, a).Next?
    ensures Course(s, s.cur[c], Kernel, StepKernel(s, c, a).s.pc[s.cur[c]])
  {
    hide Course;
    ApartCourse(s, s.cur[c], Kernel, StepKernel(s, c, a).s.pc[s.cur[c]]);
  }

  lemma WakeCourse(s: State, c: nat, p: PC, on: bool)
    requires Running(s, c) && ThreadOk(s, s.cur[c]) && s.pc[s.cur[c]] == p && StepWake(s, c, p, on).Next?
    ensures Course(s, s.cur[c], p, StepWake(s, c, p, on).s.pc[s.cur[c]])
  {
    hide Holding;
  }

  lemma ExitCourse(s: State, c: nat, p: PC, on: bool)
    requires Running(s, c) && s.cur[c] < |s.procs| && s.pc[s.cur[c]] == p && StepExit(s, c, p, on).Next?
    ensures Course(s, s.cur[c], p, StepExit(s, c, p, on).s.pc[s.cur[c]])
  {}

  lemma ScanCourse(s: State, c: nat, p: PC, ok: bool, on: bool)
    requires Running(s, c) && ThreadOk(s, s.cur[c]) && s.cur[c] < |s.procs| && s.pc[s.cur[c]] == p && p.WaitScan?
    requires StepWait(s, c, p, ok, on).Next?
    ensures Course(s, s.cur[c], p, StepWait(s, c, p, ok, on).s.pc[s.cur[c]])
  {
    hide Holding;
  }

  lemma WaitCourse(s: State, c: nat, p: PC, ok: bool, on: bool)
    requires Running(s, c) && ThreadOk(s, s.cur[c]) && s.cur[c] < |s.procs| && s.pc[s.cur[c]] == p
    requires p.WaitHeld? || p.WaitFreed? || p.WaitDone?
    requires StepWait(s, c, p, ok, on).Next?
    requires p.WaitHeld? ==> p.j != s.cur[c]
    ensures Course(s, s.cur[c], p, StepWait(s, c, p, ok, on).s.pc[s.cur[c]])
  {
    hide Holding;
  }

  lemma SleepCourse(s: State, c: nat, p: PC, on: bool)
    requires Running(s, c) && s.cur[c] < |s.procs| && s.pc[s.cur[c]] == p
    requires (p.SleepRel? || p.SleepSet? || p.Sched?) && StepSleep(s, c, p, on).Next?
    ensures Course(s, s.cur[c], p, StepSleep(s, c, p, on).s.pc[s.cur[c]])
  {}

  lemma BackCourse(s: State, c: nat, p: PC, on: bool)
    requires Running(s, c) && ThreadOk(s, s.cur[c]) && s.cur[c] < |s.procs| && s.pc[s.cur[c]] == p
    requires (p.ForkRet? || p.YieldSet? || p.Back? || p.SleepAcq?) && StepSleep(s, c, p, on).Next?
    ensures Course(s, s.cur[c], p, StepSleep(s, c, p, on).s.pc[s.cur[c]])
  {
    hide Course, Holding;
    ApartCourse(s, s.cur[c], p, StepSleep(s, c, p, on).s.pc[s.cur[c]]);
  }

  lemma ForkCourse(s: State, c: nat, p: PC, ok: bool, on: bool)
    requires Running(s, c) && s.pc[s.cur[c]] == p && StepFork(s, c, p, ok, on).Next?
    ensures Course(s, s.cur[c], p, StepFork(s, c, p, ok, on).s.pc[s.cur[c]])
  {
    hide Course;
    ApartCourse(s, s.cur[c], p, StepFork(s, c, p, ok, on).s.pc[s.cur[c]]);
  }

  lemma YieldCourse(s: State, c: nat, p: PC)
    requires Running(s, c) && s.cur[c] < |s.procs| && s.pc[s.cur[c]] == p && YieldOk(p, |s.procs|, |s.lock|)
    requires AcquireP(s, c, s.cur[c], YieldSet(p)).Next?
    ensures Course(s, s.cur[c], p, AcquireP(s, c, s.cur[c], YieldSet(p)).s.pc[s.cur[c]])
  {}

  lemma NotSelf(s: State, c: nat)
    requires Inv(s) && Running(s, c)
    ensures s.pc[s.cur[c]].WaitHeld? ==> s.pc[s.cur[c]].j != s.cur[c]
    ensures s.pc[s.cur[c]].SPoint? ==> s.pc[s.cur[c]].j != s.cur[c]
  {
    var t := s.cur[c];
    assert ThreadOk(s, t) && LifeOk(s, t);
    if s.pc[t].WaitHeld? { assert FamilyOk(s, s.pc[t].j); }
  }

  lemma StepCourse(s: State, c: nat, a: Act)
    requires Inv(s) && Running(s, c) && Step(s, c, a).Next?
    ensures |Step(s, c, a).s.pc| == |s.pc|
    ensures Course(s, s.cur[c], s.pc[s.cur[c]], Step(s, c, a).s.pc[s.cur[c]])
  {
    hide Inv, ThreadOk, StepSched, StepKernel, StepWake, StepExit, StepWait, StepSleep, StepFork, Course;
    var p := s.pc[s.cur[c]];
    AtHand(s, c);
    NotSelf(s, c);
    StepFates(s, c, a, 0);
    if OfSched(p) && !p.WakeScan? && !p.WakeHeld? {
      if p.SLoop? { LoopCourse(s, c, p, a); } else { SchedCourse(s, c, p, a); }
    } else if p.Kernel? && s.cur[c] < |s.procs| {
      KernelCourse(s, c, a);
    } else if a.Yield? {
      YieldCourse(s, c, p);
    } else if p.WakeScan? || p.WakeHeld? || p.KillHeld? {
      WakeCourse(s, c, p, a.on);
    } else if p.ExitReparent? || p.ExitOwn? || p.ExitSet? || p.ExitRel? {
      ExitCourse(s, c, p, a.on);
    } else if p.WaitScan? {
      ScanCourse(s, c, p, a.ok, a.on);
    } else if p.WaitHeld? || p.WaitFreed? || p.WaitDone? {
      WaitCourse(s, c, p, a.ok, a.on);
    } else if p.SleepRel? || p.SleepSet? || p.Sched? {
      SleepCourse(s, c, p, a.on);
    } else if p.ForkRet? || p.YieldSet? || p.Back? || p.SleepAcq? {
      BackCourse(s, c, p, a.on);
    } else {
      ForkCourse(s, c, p, a.ok, a.on);
    }
  }

  /** A step moves no other thread, except that swtch gives one the CPU and that wait renews a dead one. */
  predicate Undisturbed(p: PC, o: PC) { o == p || (Off(p) && (o.Back? || o.ForkRet? || o.SBack? || o.Fresh?)) }

  lemma SchedOthers(s: State, c: nat, p: PC, a: Act, t: nat)
    requires Inv(s) && Running(s, c) && s.pc[s.cur[c]] == p && StepSched(s, c, p, a).Next?
    requires OfSched(p) && !p.WakeScan? && !p.WakeHeld? && t < |s.pc| && t != s.cur[c]
    ensures Undisturbed(s.pc[t], StepSched(s, c, p, a).s.pc[t])
  {
    hide FamilyFacets, PLockOk, LockOk, ProcOk, Passed, Holding;
    assert PickOk(s, s.cur[c]) && ThreadOk(s, s.cur[c]) && CpuOk(s, c);
  }

  lemma SleepOthers(s: State, c: nat, p: PC, on: bool, t: nat)
    requires Inv(s) && Running(s, c) && s.cur[c] < |s.procs| && s.pc[s.cur[c]] == p && StepSleep(s, c, p, on).Next?
    requires t < |s.pc| && t != s.cur[c]
    ensures Undisturbed(s.pc[t], StepSleep(s, c, p, on).s.pc[t])
  {
    hide Facets, PLockOk, LockOk, Holding;
    assert CpuOk(s, c);
  }

  lemma WaitOthers(s: State, c: nat, p: PC, ok: bool, on: bool, t: nat)
    requires Inv(s) && Running(s, c) && s.cur[c] < |s.procs| && s.pc[s.cur[c]] == p && StepWait(s, c, p, ok, on).Next?
    requires t < |s.pc| && t != s.cur[c]
    ensures Undisturbed(s.pc[t], StepWait(s, c, p, ok, on).s.pc[t])
  {
    hide Inv;
    if p.WaitHeld? && p.j < |s.procs| && s.procs[p.j].status == ZOMBIE { ReapedIsOff(s, c, p.j); }
  }

  lemma KernelOthers(s: State, c: nat, a: Act, t: nat)
    requires Running(s, c) && s.cur[c] < |s.procs| && StepKernel(s, c, a).Next? && t < |s.pc| && t != s.cur[c]
    ensures Undisturbed(s.pc[t], StepKernel(s, c, a).s.pc[t])
  {}

  lemma WakeOthers(s: State, c: nat, p: PC, on: bool, t: nat)
    requires Running(s, c) && StepWake(s, c, p, on).Next? && t < |s.pc| && t != s.cur[c]
    ensures Undisturbed(s.pc[t], StepWake(s, c, p, on).s.pc[t])
  {}

  lemma ExitOthers(s: State, c: nat, p: PC, on: bool, t: nat)
    requires Running(s, c) && s.cur[c] < |s.procs| && StepExit(s, c, p, on).Next? && t < |s.pc| && t != s.cur[c]
    ensures Undisturbed(s.pc[t], StepExit(s, c, p, on).s.pc[t])
  {}

  lemma ForkOthers(s: State, c: nat, p: PC, ok: bool, on: bool, t: nat)
    requires Running(s, c) && StepFork(s, c, p, ok, on).Next? && t < |s.pc| && t != s.cur[c]
    ensures Undisturbed(s.pc[t], StepFork(s, c, p, ok, on).s.pc[t])
  {}

  lemma YieldOthers(s: State, c: nat, p: PC, t: nat)
    requires Running(s, c) && s.cur[c] < |s.procs| && t < |s.pc| && t != s.cur[c]
    requires AcquireP(s, c, s.cur[c], YieldSet(p)).Next?
    ensures Undisturbed(s.pc[t], AcquireP(s, c, s.cur[c], YieldSet(p)).s.pc[t])
  {}

  lemma StepOthers(s: State, c: nat, a: Act, t: nat)
    requires Inv(s) && Running(s, c) && Step(s, c, a).Next? && t < |s.pc| && t != s.cur[c]
    ensures |Step(s, c, a).s.pc| == |s.pc| && Undisturbed(s.pc[t], Step(s, c, a).s.pc[t])
  {
    hide Inv, StepSched, StepKernel, StepWake, StepExit, StepWait, StepSleep, StepFork, Undisturbed;
    var p := s.pc[s.cur[c]];
    StepFates(s, c, a, 0);
    if OfSched(p) && !p.WakeScan? && !p.WakeHeld? {
      SchedOthers(s, c, p, a, t);
    } else if p.Kernel? && s.cur[c] < |s.procs| {
      KernelOthers(s, c, a, t);
    } else if a.Yield? {
      YieldOthers(s, c, p, t);
    } else if p.WakeScan? || p.WakeHeld? || p.KillHeld? {
      WakeOthers(s, c, p, a.on, t);
    } else if p.ExitReparent? || p.ExitOwn? || p.ExitSet? || p.ExitRel? {
      ExitOthers(s, c, p, a.on, t);
    } else if p.WaitScan? || p.WaitHeld? || p.WaitFreed? || p.WaitDone? {
      WaitOthers(s, c, p, a.ok, a.on, t);
    } else if p.ForkRet? || p.YieldSet? || p.SleepRel? || p.SleepSet? || p.Sched? || p.Back? || p.SleepAcq? {
      SleepOthers(s, c, p, a.on, t);
    } else {
      ForkOthers(s, c, p, a.ok, a.on, t);
    }
  }

  // ---- what wait and exit keep under wait_lock ----

  ghost predicate Steps(s: State, c: nat, a: Act, g: State) { Inv(s) && Running(s, c) && Step(s, c, a) == Next(g) }

  lemma OneHolder(s: State, t: nat, u: nat, l: nat)
    requires Inv(s) && t < |s.pc| && u < |s.pc| && l in s.held[t] && l in s.held[u]
    requires s.on[t] != -1 && s.on[u] != -1
    ensures t == u
  {
    hide Facets, PLockOk, LockOk, Holding, Own, Formed;
    assert ThreadOk(s, t) && ThreadOk(s, u);
    assert CpuOk(s, s.on[t]) && CpuOk(s, s.on[u]);
  }

  /** These hold wait_lock. */
  predicate UnderWait(p: PC) {
    || Told(p) || Telling(p) || p.ExitReparent? || p.ForkParent? || p.WaitScan? || p.WaitHeld?
    || (p.SleepRel? && InWaitSleep(p))
  }

  lemma UnderWaitHolds(p: PC, h: set<nat>, np: nat, nl: nat)
    requires UnderWait(p) && Formed(p, np, nl) && Holding(p, h)
    ensures WAIT in h && !Off(p)
  {
    if Telling(p) { assert Holding(p.ret, h); }
  }

  /** Two threads that are where wait_lock is held are one. */
  lemma OneUnderWait(s: State, t: nat, u: nat)
    requires Inv(s) && t < |s.pc| && u < |s.pc| && UnderWait(s.pc[t]) && UnderWait(s.pc[u])
    ensures t == u
  {
    hide Facets, PLockOk, LockOk, Own, Holding, Formed;
    assert ThreadOk(s, t) && ThreadOk(s, u);
    UnderWaitHolds(s.pc[t], s.held[t], |s.procs|, |s.lock|);
    UnderWaitHolds(s.pc[u], s.held[u], |s.procs|, |s.lock|);
    OneHolder(s, t, u, WAIT);
  }

  /** A process falls asleep in wait only where it releases wait_lock. */
  lemma FallsAsleep(s: State, c: nat, a: Act, g: State, q: nat)
    requires Steps(s, c, a, g) && Sized(g) && q < |s.procs| && q < |g.procs| && AsleepInWait(g, q)
    ensures AsleepInWait(s, q) || (q == s.cur[c] && s.pc[q].SleepRel? && InWaitSleep(s.pc[q]))
  {
    hide Step, FamilyFacets, PLockOk, LockOk, Holding, Own, Formed, Passed, PickOk;
    StepFates(s, c, a, q);
    if q == s.cur[c] {
      StepCourse(s, c, a);
      assert ProcOk(s, q) && ThreadOk(s, q) && CpuOk(s, c);
    } else {
      StepOthers(s, c, a, q);
    }
  }

  /** The parent of a process changes only under wait_lock. */
  lemma ParentChanges(s: State, c: nat, a: Act, g: State, i: nat)
    requires Steps(s, c, a, g) && i < |s.procs| && i < |g.procs| && g.procs[i].parent != s.procs[i].parent
    ensures var p := s.pc[s.cur[c]];
            || (p == ForkParent(i) && s.procs[i].status == USED && s.procs[i].parent == -1)
            || (p == ExitReparent(i) && s.procs[i].parent == s.cur[c] && g.procs[i].parent == INIT)
            || (p == WaitHeld(i) && s.procs[i].parent == s.cur[c] && g.procs[i].status == UNUSED)
  {
    hide Step, ProcFacets, Core;
    StepFates(s, c, a, i);
    assert LifeOk(s, s.cur[c]);
  }

  lemma WakingOn(s: State, c: nat, a: Act, g: State, t: nat, q: nat)
    requires Steps(s, c, a, g) && Inv(g) && t < |s.pc| && t < |g.pc| && q < |s.procs| && q < |g.procs|
    requires WakingBy(s, t, q) && AsleepInWait(g, q) && SleepChan(g.pc[q]) == q + 1
    ensures WakingBy(g, t, q)
  {
    hide Step, FamilyFacets, PLockOk, LockOk, Holding, Own, PickOk, ProcOk;
    assert ThreadOk(g, q) && ThreadOk(g, t);
    if t == s.cur[c] {
      StepCourse(s, c, a);
      assert Passed(g, t, q);
    } else {
      StepOthers(s, c, a, t);
    }
  }

  /** exit wakes its own parent, under wait_lock; wait sleeps on its own address. */
  predicate ChanOk(s: State, t: nat)
    requires Sized(s) && t < |s.pc|
  {
    var p := s.pc[t];
    && (Telling(p) && t < |s.procs| ==> p.chan == s.procs[t].parent + 1 && p.lk == WAIT)
    && (InWaitSleep(p) ==> SleepChan(p) == t + 1)
  }

  /** An exit that has finished the wakeup has left its parent awake. */
  predicate ToldOk(s: State, t: nat)
    requires Sized(s) && t < |s.procs|
  {
    Told(s.pc[t]) && 0 <= s.procs[t].parent < |s.procs| ==> !AsleepInWait(s, s.procs[t].parent)
  }

  /** What wait has looked at is no zombie child; and where it has found no child, there is none. */
  predicate SeenOk(s: State, t: nat, i: nat)
    requires Sized(s) && t < |s.pc| && i < |s.procs|
  {
    var p := s.pc[t];
    && (i < Looked(p, |s.procs|) ==> !ZombieChild(s, t, i))
    && (p.WaitScan? && !p.kids && i < p.j ==> !Child(s, t, i))
  }

  /** wait goes to sleep only with a child. */
  ghost predicate KidOk(s: State, t: nat)
    requires Sized(s) && t < |s.pc|
  {
    SawKid(s.pc[t]) ==> exists i :: 0 <= i < |s.procs| && Child(s, t, i)
  }

  /** While a process sleeps in wait and a child of it is a zombie, somebody is about to wake it. */
  ghost predicate SafeOk(s: State, q: nat, i: nat)
    requires Sized(s) && q < |s.procs| && i < |s.procs|
  {
    AsleepInWait(s, q) && ZombieChild(s, q, i) ==> exists t :: 0 <= t < |s.pc| && WakingBy(s, t, q)
  }

  ghost predicate WaitInv(s: State) {
    && Inv(s)
    && (forall t {:trigger ChanOk(s, t)} :: 0 <= t < |s.pc| ==> ChanOk(s, t))
    && (forall t {:trigger ToldOk(s, t)} :: 0 <= t < |s.procs| ==> ToldOk(s, t))
    && (forall t, i {:trigger SeenOk(s, t, i)} :: 0 <= t < |s.pc| && 0 <= i < |s.procs| ==> SeenOk(s, t, i))
    && (forall t {:trigger KidOk(s, t)} :: 0 <= t < |s.pc| ==> KidOk(s, t))
    && (forall q, i {:trigger SafeOk(s, q, i)} :: 0 <= q < |s.procs| && 0 <= i < |s.procs| ==> SafeOk(s, q, i))
  }

  /** Where wait_lock is held, nobody else changes a parent or becomes a zombie. */
  lemma Held(s: State, c: nat, a: Act, g: State, t: nat, i: nat)
    requires Steps(s, c, a, g) && t < |s.pc| && i < |s.procs| && i < |g.procs|
    requires UnderWait(s.pc[t]) && t != s.cur[c]
    ensures g.procs[i].parent == s.procs[i].parent
    ensures g.procs[i].status == ZOMBIE ==> s.procs[i].status == ZOMBIE
  {
    hide Inv, Step;
    var u := s.cur[c];
    if UnderWait(s.pc[u]) {
      OneUnderWait(s, t, u);
    } else {
      StepFates(s, c, a, i);
      if g.procs[i].parent != s.procs[i].parent { ParentChanges(s, c, a, g, i); }
    }
  }

  lemma NoSelfParent(s: State, i: nat)
    requires Inv(s) && i < |s.procs|
    ensures s.procs[i].parent != i
  {
    assert FamilyOk(s, i);
  }

  lemma SleepsOnSelf(s: State, q: nat)
    requires Inv(s) && q < |s.procs| && ChanOk(s, q) && AsleepInWait(s, q)
    ensures Asleep(s, q, q + 1, WAIT)
  {
    hide Facets, Holding;
    assert ThreadOk(s, q);
  }

  lemma ChanStep(s: State, c: nat, a: Act, g: State, t: nat)
    requires WaitInv(s) && Steps(s, c, a, g) && Inv(g) && t < |g.pc| && |g.pc| == |s.pc| && |g.procs| == |s.procs|
    ensures ChanOk(g, t)
  {
    hide Inv, Step;
    assert ChanOk(s, t);
    if t == s.cur[c] {
      StepCourse(s, c, a);
      if t < |s.procs| {
        NoSelfParent(s, t);
        StepFates(s, c, a, t);
      }
    } else {
      StepOthers(s, c, a, t);
      if Telling(s.pc[t]) && t < |s.procs| { Held(s, c, a, g, t, t); }
    }
  }

  /** The process whose parent t has told is not asleep in wait. */
  lemma TellingEnds(s: State, t: nat)
    requires WaitInv(s) && t < |s.procs| && Telling(s.pc[t]) && s.pc[t].j >= |s.procs|
    ensures ToldOk(s, t) && (0 <= s.procs[t].parent < |s.procs| ==> !AsleepInWait(s, s.procs[t].parent))
  {
    hide Core, AsleepInWait, ProcOk, PickOk, FamilyFacets;
    var q := s.procs[t].parent;
    assert ChanOk(s, t);
    NoSelfParent(s, t);
    if 0 <= q < |s.procs| {
      assert Passed(s, t, q) && ChanOk(s, q);
      if AsleepInWait(s, q) { SleepsOnSelf(s, q); }
    }
  }

  lemma ToldStep(s: State, c: nat, a: Act, g: State, t: nat)
    requires WaitInv(s) && Steps(s, c, a, g) && Inv(g) && t < |g.procs| && |g.pc| == |s.pc| && |g.procs| == |s.procs|
    ensures ToldOk(g, t)
  {
    assert Sized(g);
    hide Inv, Step, AsleepInWait;
    var q := g.procs[t].parent;
    if Told(g.pc[t]) && 0 <= q < |g.procs| {
      assert ToldOk(s, t);
      NoSelfParent(s, t);
      if t == s.cur[c] {
        StepCourse(s, c, a);
        StepFates(s, c, a, t);
        if Telling(s.pc[t]) { TellingEnds(s, t); }
      } else {
        StepOthers(s, c, a, t);
        Held(s, c, a, g, t, t);
      }
      if AsleepInWait(g, q) {
        FallsAsleep(s, c, a, g, q);
        if UnderWait(s.pc[q]) { OneUnderWait(s, t, q); }
      }
    }
  }

  lemma SeenStep(s: State, c: nat, a: Act, g: State, t: nat, i: nat)
    requires WaitInv(s) && Steps(s, c, a, g) && Inv(g) && |g.pc| == |s.pc| && |g.procs| == |s.procs|
    requires t < |g.pc| && i < |g.procs|
    ensures SeenOk(g, t, i)
  {
    hide Inv, Step;
    assert SeenOk(s, t, i);
    if t == s.cur[c] {
      StepCourse(s, c, a);
      StepFates(s, c, a, i);
    } else {
      StepOthers(s, c, a, t);
      if UnderWait(s.pc[t]) { Held(s, c, a, g, t, i); }
    }
  }

  lemma KidStep(s: State, c: nat, a: Act, g: State, t: nat)
    requires WaitInv(s) && Steps(s, c, a, g) && Inv(g) && t < |g.pc| && |g.pc| == |s.pc| && |g.procs| == |s.procs|
    ensures KidOk(g, t)
  {
    hide Inv, Step, SawKid;
    if SawKid(g.pc[t]) {
      var i := KidBefore(s, c, a, g, t);
      StepFates(s, c, a, i);
      if g.procs[i].parent != s.procs[i].parent { ParentChanges(s, c, a, g, i); }
      assert Child(g, t, i);
    }
  }

  /** A thread that has seen a child after a step has one before it. */
  lemma KidBefore(s: State, c: nat, a: Act, g: State, t: nat) returns (i: nat)
    requires WaitInv(s) && Steps(s, c, a, g) && Inv(g) && t < |g.pc| && |g.pc| == |s.pc| && |g.procs| == |s.procs|
    requires SawKid(g.pc[t])
    ensures i < |s.procs| && Child(s, t, i) && (t == s.cur[c] ==> !s.pc[t].ExitReparent?)
    ensures t == s.cur[c] && s.pc[t].WaitHeld? ==> g.procs[i].status != UNUSED
  {
    hide Core, ProcFacets, Step;
    assert KidOk(s, t) && LifeOk(s, t);
    if t == s.cur[c] {
      StepCourse(s, c, a);
    } else {
      StepOthers(s, c, a, t);
    }
    if s.pc[t].WaitHeld? {
      i := s.pc[t].j;
      assert FamilyOk(s, i);
      StepFates(s, c, a, i);
    } else {
      i :| 0 <= i < |s.procs| && Child(s, t, i);
    }
  }

  /** A process that is asleep in wait after a step was so before, or no child that it has now is a zombie. */
  lemma WasAsleep(s: State, c: nat, a: Act, g: State, q: nat, i: nat)
    requires WaitInv(s) && Steps(s, c, a, g) && Inv(g) && |g.pc| == |s.pc| && |g.procs| == |s.procs|
    requires q < |g.procs| && i < |g.procs| && AsleepInWait(g, q) && ZombieChild(g, q, i)
    ensures AsleepInWait(s, q)
  {
    assert Sized(g);
    hide Inv, Step, AsleepInWait;
    FallsAsleep(s, c, a, g, q);
    if !AsleepInWait(s, q) {
      assert SeenOk(s, q, i);
      StepFates(s, c, a, i);
    }
  }

  lemma SafeStep(s: State, c: nat, a: Act, g: State, q: nat, i: nat)
    requires WaitInv(s) && Steps(s, c, a, g) && Inv(g) && |g.pc| == |s.pc| && |g.procs| == |s.procs|
    requires q < |g.procs| && i < |g.procs| && ChanOk(g, q)
    ensures SafeOk(g, q, i)
  {
    assert Sized(g) && Sized(s);
    hide Inv, Step, AsleepInWait, InWaitSleep;
    var t0 := s.cur[c];
    if AsleepInWait(g, q) && ZombieChild(g, q, i) {
      WasAsleep(s, c, a, g, q, i);
      assert SafeOk(s, q, i) && ToldOk(s, i);
      if ZombieChild(s, q, i) {
        var t :| 0 <= t < |s.pc| && WakingBy(s, t, q);
        assert InWaitSleep(g.pc[q]) by { AsleepMeans(g, q); }
        WakingOn(s, c, a, g, t, q);
      } else if g.procs[i].parent != s.procs[i].parent {
        ParentChanges(s, c, a, g, i);
        ReparentWakes(s, c, a, g, i);
      } else {
        StepFates(s, c, a, i);
      }
    }
  }

  lemma AsleepMeans(s: State, q: nat)
    requires Sized(s) && q < |s.procs| && AsleepInWait(s, q)
    ensures InWaitSleep(s.pc[q])
  {}

  /** A zombie that is handed to init: init is about to be woken. */
  lemma ReparentWakes(s: State, c: nat, a: Act, g: State, i: nat)
    requires Steps(s, c, a, g) && i < |s.procs| && i < |g.procs| && g.procs[i].parent != s.procs[i].parent
    requires g.procs[i].status == ZOMBIE
    ensures g.procs[i].parent == INIT && s.cur[c] < |g.pc| && WakingBy(g, s.cur[c], INIT)
  {
    hide Inv, StepSched, StepKernel, StepWake, StepWait, StepSleep, StepFork;
    ParentChanges(s, c, a, g, i);
    StepFates(s, c, a, i);
  }

  lemma StepWaits(s: State, c: nat, a: Act, g: State)
    requires WaitInv(s) && Steps(s, c, a, g)
    ensures WaitInv(g)
  {
    hide Inv, Step, ChanOk, ToldOk, SeenOk, KidOk, SafeOk;
    StepOk(s, c, a);
    StepFates(s, c, a, 0);
    SizedHere(g);
    forall t | 0 <= t < |g.pc| ensures ChanOk(g, t) { ChanStep(s, c, a, g, t); }
    forall t | 0 <= t < |g.procs| ensures ToldOk(g, t) { ToldStep(s, c, a, g, t); }
    forall t, i | 0 <= t < |g.pc| && 0 <= i < |g.procs| ensures SeenOk(g, t, i) { SeenStep(s, c, a, g, t, i); }
    forall t | 0 <= t < |g.pc| ensures KidOk(g, t) { KidStep(s, c, a, g, t); }
    forall q, i | 0 <= q < |g.procs| && 0 <= i < |g.procs| ensures SafeOk(g, q, i) { SafeStep(s, c, a, g, q, i); }
  }

  lemma SizedHere(s: State)
    requires Inv(s)
    ensures Sized(s) && |s.procs| <= |s.pc|
  {}

  lemma BootWaits(np: nat, nc: nat, nl: nat)
    requires np > INIT && nl > WAIT
    ensures WaitInv(Boot(np, nc, nl))
  {
    BootInv(np, nc, nl);
    var g := Boot(np, nc, nl);
    forall t | 0 <= t < |g.pc| ensures ChanOk(g, t) && KidOk(g, t) {}
    forall t | 0 <= t < |g.procs| ensures ToldOk(g, t) {}
    forall t, i | 0 <= t < |g.pc| && 0 <= i < |g.procs| ensures SeenOk(g, t, i) {}
    forall q, i | 0 <= q < |g.procs| && 0 <= i < |g.procs| ensures SafeOk(g, q, i) {}
  }

  lemma {:induction false} RunWaits(tr: seq<State>, np: nat, nc: nat, nl: nat, k: nat)
    requires np > INIT && nl > WAIT && IsRun(tr, np, nc, nl) && k < |tr|
    ensures WaitInv(tr[k])
  {
    hide WaitInv, Step, Boot;
    if k == 0 {
      BootWaits(np, nc, nl);
    } else {
      RunWaits(tr, np, nc, nl, k - 1);
      RunInv(tr, np, nc, nl, k - 1);
      assert Moves(tr[k - 1], tr[k]);
      var c: nat, a: Act :| Running(tr[k - 1], c) && Step(tr[k - 1], c, a) == Next(tr[k]);
      StepWaits(tr[k - 1], c, a, tr[k]);
    }
  }

  // ---- what this means ----

  ghost predicate HasChild(s: State, t: nat) { exists i :: 0 <= i < |s.procs| && Child(s, t, i) }

  ghost predicate HasZombieChild(s: State, t: nat) { exists i :: 0 <= i < |s.procs| && ZombieChild(s, t, i) }

  /** In every run, whenever wait_lock is free, a process that sleeps in wait sleeps on its own address, has a child,
      and has no child that is a zombie: every exit and every reparenting has woken it. */
  lemma NoZombieMissed(tr: seq<State>, np: nat, nc: nat, nl: nat, k: nat, q: nat)
    requires np > INIT && nl > WAIT && IsRun(tr, np, nc, nl) && k < |tr|
    requires Sized(tr[k]) && q < |tr[k].procs| && AsleepInWait(tr[k], q)
    ensures Asleep(tr[k], q, q + 1, WAIT) && HasChild(tr[k], q)
    ensures tr[k].lock[WAIT] == -1 ==> !HasZombieChild(tr[k], q)
  {
    hide Inv, Step, Boot, IsRun;
    RunWaits(tr, np, nc, nl, k);
    var s := tr[k];
    assert ChanOk(s, q) && KidOk(s, q);
    SleepsOnSelf(s, q);
    if s.lock[WAIT] == -1 && HasZombieChild(s, q) {
      var i :| 0 <= i < |s.procs| && ZombieChild(s, q, i);
      assert SafeOk(s, q, i);
      var t :| 0 <= t < |s.pc| && WakingBy(s, t, q);
      NobodyWakes(s, t, q);
    }
  }

  lemma NobodyWakes(s: State, t: nat, q: nat)
    requires Inv(s) && t < |s.pc| && s.lock[WAIT] == -1
    ensures !WakingBy(s, t, q)
  {
    hide Facets, PLockOk, LockOk, Formed;
    assert ThreadOk(s, t);
    if s.on[t] != -1 { assert CpuOk(s, s.on[t]); }
  }

  /** In every run, a wait that has come to the end of the table has seen a child exactly if it has one, and none of
      its children is a zombie. So it sleeps exactly if it has a child and has not been killed, and returns otherwise;
      and it reaps a child, where the copy succeeds, exactly if that child is a zombie. */
  lemma WaitAnswers(tr: seq<State>, np: nat, nc: nat, nl: nat, k: nat, c: nat, ok: bool, on: bool, g: State)
    requires np > INIT && nl > WAIT && IsRun(tr, np, nc, nl) && k < |tr| && Running(tr[k], c)
    requires Step(tr[k], c, Go(ok, on)) == Next(g)
    ensures var s, t := tr[k], tr[k].cur[c];
            && |g.pc| == |s.pc| && |g.procs| == |s.procs|
            && (s.pc[t].WaitScan? && s.pc[t].j == |s.procs| ==>
                  && !HasZombieChild(s, t)
                  && (g.pc[t] == SleepRel(t + 1, WAIT, WaitScan(0, false)) <==> ok && HasChild(s, t))
                  && (g.pc[t] == Kernel <==> !ok || !HasChild(s, t)))
            && (s.pc[t].WaitHeld? && s.pc[t].j < |s.procs| ==>
                  && Child(s, t, s.pc[t].j)
                  && (g.procs[s.pc[t].j].status == UNUSED <==> ok && ZombieChild(s, t, s.pc[t].j)))
  {
    hide Step, Boot, IsRun, Core, ProcFacets;
    RunWaits(tr, np, nc, nl, k);
    var s, t := tr[k], tr[k].cur[c];
    StepFates(s, c, Go(ok, on), 0);
    assert KidOk(s, t) && LifeOk(s, t);
    if s.pc[t].WaitScan? && s.pc[t].j == |s.procs| {
      forall i | 0 <= i < |s.procs| ensures !ZombieChild(s, t, i) && (!s.pc[t].kids ==> !Child(s, t, i)) {
        assert SeenOk(s, t, i);
      }
      EndOfTable(s, c, ok, on);
    }
    if s.pc[t].WaitHeld? && s.pc[t].j < |s.procs| {
      StepFates(s, c, Go(ok, on), s.pc[t].j);
      assert FamilyOk(s, s.pc[t].j);
    }
  }

  lemma EndOfTable(s: State, c: nat, ok: bool, on: bool)
    requires Inv(s) && Running(s, c) && Step(s, c, Go(ok, on)).Next?
    requires s.pc[s.cur[c]].WaitScan? && s.pc[s.cur[c]].j == |s.procs|
    ensures var t := s.cur[c];
            var g := Step(s, c, Go(ok, on)).s;
            t < |g.pc| && g.pc[t] == if s.pc[t].kids && ok then SleepRel(t + 1, WAIT, WaitScan(0, false)) else Kernel
  {
    hide Facets, CpuOk, PLockOk, LockOk, Holding;
    assert ThreadOk(s, s.cur[c]);
  }

  /** In every run, a step of kill leaves its target not SLEEPING; one of wakeup wakes just a sleeper on its channel;
      and a scheduler that holds the lock of a slot picks it exactly if it is RUNNABLE. */
  lemma KillsAndPicks(tr: seq<State>, np: nat, nc: nat, nl: nat, k: nat, c: nat, a: Act, g: State, i: nat)
    requires np > INIT && nl > WAIT && IsRun(tr, np, nc, nl) && k < |tr| && Running(tr[k], c)
    requires Step(tr[k], c, a) == Next(g) && i < |tr[k].procs|
    ensures var s, p := tr[k], tr[k].pc[tr[k].cur[c]];
            && |g.pc| == |s.pc| && |g.procs| == |s.procs|
            && (p == KillHeld(i) ==> g.procs[i].status != SLEEPING)
            && (p == SHeld(i) ==>
                  && (g.pc[s.cur[c]] == SMark(i) <==> s.procs[i].status == RUNNABLE)
                  && (g.pc[s.cur[c]] == SMark(i) ==> g.procs[i].status == RUNNING))
            && (s.procs[i].status == SLEEPING ==>
                  (g.procs[i].status != SLEEPING <==>
                     p == KillHeld(i) || (p.WakeHeld? && p.j == i && p.chan == s.procs[i].chan)))
            && (s.procs[i].status == RUNNABLE ==> (g.procs[i].status != RUNNABLE <==> p == SHeld(i)))
  {
    hide IsRun, Inv, StepKernel, StepWake, StepExit, StepWait, StepSleep, StepFork;
    RunInv(tr, np, nc, nl, k);
    StatusHere(tr[k], c, i);
    StepFates(tr[k], c, a, i);
  }

  lemma StatusHere(s: State, c: nat, i: nat)
    requires Inv(s) && Running(s, c) && i < |s.procs|
    ensures var p := s.pc[s.cur[c]];
            && (p == ForkMade(i) || p == ForkRun(i) ==> s.procs[i].status == USED)
            && ((p.YieldSet? || p.SleepSet? || p.ExitSet?) && i == s.cur[c] ==> s.procs[i].status == RUNNING)
  {
    hide Core;
    assert LifeOk(s, s.cur[c]) && ProcOk(s, i);
  }
}
