/** Any interleaving of file system operations on the log: begin_op, lwrite, end_op and the commit it starts. */
module LogRun {
  import opened Blocks
  import opened Crash

  /** The operations in progress, each with the number of lwrite calls it has made; whether a commit is
      running; and the listed blocks. */
  datatype State = State(ops: seq<nat>, committing: bool, bs: seq<nat>)

  const Start := State([], false, [])

  datatype Event =
    | Begin              // begin_op, each time it holds the lock
    | Lwrite(i: nat, k: nat)   // operation i logs block k
    | End(i: nat)        // the first critical section of end_op of operation i
    | Clear              // commit sets n to 0
    | Finish             // the second critical section of end_op

  datatype Outcome = Next(s: State) | Wait | TooBig | EndWhileCommitting

  /** The list after a block is logged: a block already listed is absorbed. */
  function Joined(bs: seq<nat>, k: nat): seq<nat> {
    if k in bs then bs else bs + [k]
  }

  function Without(ops: seq<nat>, i: nat): seq<nat>
    requires i < |ops|
  {
    ops[..i] + ops[i + 1..]
  }

  /** What callers may do: operations log and end only between begin and end; commit runs in its order. */
  predicate Allowed(s: State, e: Event) {
    match e
    case Begin => true
    case Lwrite(i, _) => i < |s.ops|
    case End(i) => i < |s.ops|
    case Clear => s.committing
    case Finish => s.committing && s.bs == []
  }

  function Step(size: nat, s: State, e: Event): Outcome
    requires Allowed(s, e)
  {
    match e
    case Begin =>
      if s.committing then Wait
      else if |s.bs| + (|s.ops| + 1) * MAXOPBLOCKS > LOGSIZE then Wait
      else Next(s.(ops := s.ops + [0]))
    case Lwrite(i, k) =>
      if |s.bs| >= LOGSIZE || |s.bs| + 1 >= size then TooBig
      else Next(s.(ops := s.ops[i := s.ops[i] + 1], bs := Joined(s.bs, k)))
    case End(i) =>
      if s.committing then EndWhileCommitting
      else Next(s.(ops := Without(s.ops, i), committing := |s.ops| == 1))
    case Clear => Next(s.(bs := []))
    case Finish => Next(s.(committing := false))
  }

  /** No operation makes more than MAXOPBLOCKS calls of lwrite. */
  predicate InBudget(s: State, e: Event) {
    e.Lwrite? && e.i < |s.ops| ==> s.ops[e.i] < MAXOPBLOCKS
  }

  /** The state after a run; the run stops at a panic and skips over waits. */
  function Run(size: nat, evs: seq<Event>): Outcome {
    if evs == [] then Next(Start) else
      var before := Run(size, evs[..|evs| - 1]);
      var e := evs[|evs| - 1];
      if !before.Next? then before
      else if !Allowed(before.s, e) || Step(size, before.s, e).Wait? then before
      else Step(size, before.s, e)
  }

  /** Every event of the run is within its operation's budget. */
  predicate RunInBudget(size: nat, evs: seq<Event>) {
    evs == [] ||
    var before := Run(size, evs[..|evs| - 1]);
    RunInBudget(size, evs[..|evs| - 1]) && (before.Next? ==> InBudget(before.s, evs[|evs| - 1]))
  }

  /** What the operations in progress may still log. */
  function Unused(ops: seq<nat>): int {
    if ops == [] then 0 else Unused(ops[..|ops| - 1]) + MAXOPBLOCKS - ops[|ops| - 1]
  }

  lemma {:induction false} UnusedConcat(a: seq<nat>, b: seq<nat>)
    ensures Unused(a + b) == Unused(a) + Unused(b)
  {
    if b == [] {
      assert a + b == a;
    } else {
      UnusedConcat(a, b[..|b| - 1]);
      assert (a + b)[..|a + b| - 1] == a + b[..|b| - 1];
    }
  }

  lemma UnusedAt(ops: seq<nat>, i: nat, x: nat)
    requires i < |ops|
    ensures Unused(ops) == Unused(Without(ops, i)) + MAXOPBLOCKS - ops[i]
    ensures Unused(ops[i := x]) == Unused(ops) + ops[i] - x
  {
    var l, r := ops[..i], ops[i + 1..];
    UnusedConcat(l, r);
    UnusedConcat(l, [ops[i]]);
    UnusedConcat(l + [ops[i]], r);
    UnusedConcat(l, [x]);
    UnusedConcat(l + [x], r);
    assert ops == l + [ops[i]] + r && ops[i := x] == l + [x] + r;
  }

  lemma {:induction false} UnusedBound(ops: seq<nat>)
    ensures Unused(ops) <= |ops| * MAXOPBLOCKS
  {
    if ops != [] { UnusedBound(ops[..|ops| - 1]); }
  }

  predicate WithinBudget(ops: seq<nat>) { forall i :: 0 <= i < |ops| ==> ops[i] <= MAXOPBLOCKS }

  lemma {:induction false} UnusedNonNegative(ops: seq<nat>)
    requires WithinBudget(ops)
    ensures Unused(ops) >= 0
  {
    if ops != [] { UnusedNonNegative(ops[..|ops| - 1]); }
  }

  /** What holds between any two events, whatever the callers log. */
  predicate Inv(size: nat, s: State) {
    && (s.committing ==> s.ops == []) && (s.ops == [] && !s.committing ==> s.bs == [])
    && Distinct(s.bs) && |s.bs| <= LOGSIZE && (s.bs == [] || |s.bs| < size)
  }

  /** The list and what the operations may still add to it fit the log. */
  predicate Reserved(s: State) {
    WithinBudget(s.ops) && |s.bs| + Unused(s.ops) <= LOGSIZE
  }

  lemma JoinedDistinct(bs: seq<nat>, k: nat)
    requires Distinct(bs)
    ensures Distinct(Joined(bs, k))
  {
    var r := Joined(bs, k);
    forall i, j | 0 <= i < j < |r| ensures Entry(r, i) != Entry(r, j) {
      if j < |bs| { assert Entry(bs, i) != Entry(bs, j); }
    }
  }

  lemma StepInv(size: nat, s: State, e: Event)
    requires Inv(size, s) && Allowed(s, e)
    ensures Step(size, s, e).Next? ==> Inv(size, Step(size, s, e).s)
    ensures !Step(size, s, e).EndWhileCommitting?
  {
    if e.Lwrite? { JoinedDistinct(s.bs, e.k); }
  }

  lemma BeginReserved(s: State)
    requires Reserved(s) && |s.bs| + (|s.ops| + 1) * MAXOPBLOCKS <= LOGSIZE
    ensures Reserved(s.(ops := s.ops + [0]))
  {
    UnusedBound(s.ops);
    UnusedConcat(s.ops, [0]);
  }

  lemma LwriteReserved(s: State, i: nat, k: nat)
    requires Reserved(s) && i < |s.ops| && s.ops[i] < MAXOPBLOCKS
    ensures Reserved(s.(ops := s.ops[i := s.ops[i] + 1], bs := Joined(s.bs, k)))
    ensures |s.bs| < LOGSIZE
  {
    UnusedAt(s.ops, i, s.ops[i] + 1);
    UnusedNonNegative(Without(s.ops, i));
  }

  lemma EndReserved(s: State, i: nat)
    requires Reserved(s) && i < |s.ops|
    ensures WithinBudget(Without(s.ops, i)) && |s.bs| + Unused(Without(s.ops, i)) <= LOGSIZE
  {
    UnusedAt(s.ops, i, 0);
  }

  lemma StepReserved(size: nat, s: State, e: Event)
    requires Inv(size, s) && Reserved(s) && Allowed(s, e) && InBudget(s, e)
    ensures Step(size, s, e).Next? ==> Reserved(Step(size, s, e).s)
    ensures Step(size, s, e).TooBig? ==> size <= LOGSIZE
  {
    match e
    case Begin => if Step(size, s, e).Next? { BeginReserved(s); }
    case Lwrite(i, k) => LwriteReserved(s, i, k);
    case End(i) => EndReserved(s, i);
    case Clear =>
    case Finish =>
  }

  /** In every reachable state: no operation is in progress during a commit, and with neither nothing is listed, so
      whatever has been logged is committed by the last operation to end; the listed blocks are distinct and stay
      below both limits, and ending an operation never meets a running commit. */
  lemma {:induction false} RunInv(size: nat, evs: seq<Event>)
    ensures Run(size, evs).Next? || Run(size, evs).TooBig?
    ensures Run(size, evs).Next? ==> Inv(size, Run(size, evs).s)
    ensures Run(size, evs).Next? ==> var s := Run(size, evs).s; s.ops == [] && !s.committing ==> s.bs == []
  {
    if evs != [] {
      RunInv(size, evs[..|evs| - 1]);
      var before := Run(size, evs[..|evs| - 1]);
      var e := evs[|evs| - 1];
      if before.Next? && Allowed(before.s, e) { StepInv(size, before.s, e); }
    }
  }

  /** Every run without a panic can go on until no operation is open, nothing is listed and the log takes the next
      operation. */
  lemma {:induction false} Reopens(size: nat, evs: seq<Event>) returns (more: seq<Event>)
    requires Run(size, evs).Next?
    ensures Run(size, evs + more) == Next(Start) && Step(size, Start, Begin) == Next(State([0], false, []))
    decreases |Run(size, evs).s.ops|, Run(size, evs).s.committing
  {
    RunInv(size, evs);
    var s := Run(size, evs).s;
    if s.committing {
      more := [Clear, Finish];
      assert (evs + [Clear])[..|evs + [Clear]| - 1] == evs;
      assert (evs + more)[..|evs + more| - 1] == evs + [Clear];
    } else if s.ops == [] {
      more := [];
      assert evs + more == evs;
    } else {
      assert (evs + [End(0)])[..|evs + [End(0)]| - 1] == evs;
      more := Reopens(size, evs + [End(0)]);
      assert evs + ([End(0)] + more) == evs + [End(0)] + more;
      more := [End(0)] + more;
    }
  }

  /** While no operation exceeds its budget, the list plus the unused reservations stays within LOGSIZE. */
  lemma {:induction false} RunReserved(size: nat, evs: seq<Event>)
    requires RunInBudget(size, evs)
    ensures Run(size, evs).Next? ==> Reserved(Run(size, evs).s)
    ensures Run(size, evs).TooBig? ==> size <= LOGSIZE
  {
    if evs != [] {
      RunReserved(size, evs[..|evs| - 1]);
      RunInv(size, evs[..|evs| - 1]);
      var before := Run(size, evs[..|evs| - 1]);
      var e := evs[|evs| - 1];
      if before.Next? && Allowed(before.s, e) { StepReserved(size, before.s, e); }
    }
  }

  // ---- the reservation test is one block too generous for the log size that mkfs writes ----

  /** Three operations begin; then operation j/10 logs block j, for j = 0, 1, ... */
  function Busy(m: nat): seq<Event> {
    if m == 0 then [] else if m <= 3 then Busy(m - 1) + [Begin] else Busy(m - 1) + [Lwrite((m - 4) / 10, m - 4)]
  }

  function Share(i: nat, m: nat): nat {
    if m <= 10 * i then 0 else if m < 10 * i + 10 then m - 10 * i else 10
  }

  function BusyState(m: nat): State {
    State([Share(0, m), Share(1, m), Share(2, m)], false, seq(m, j => j))
  }

  lemma RunMore(size: nat, evs: seq<Event>, s: State, e: Event)
    requires Run(size, evs) == Next(s) && RunInBudget(size, evs) && Allowed(s, e) && InBudget(s, e)
    requires !Step(size, s, e).Wait?
    ensures Run(size, evs + [e]) == Step(size, s, e) && RunInBudget(size, evs + [e])
  {
    assert (evs + [e])[..|evs|] == evs;
  }

  lemma RunNothing(size: nat)
    ensures Run(size, []) == Next(Start) && RunInBudget(size, [])
  {
  }

  lemma BusyBegins(size: nat)
    ensures Run(size, Busy(3)) == Next(BusyState(0)) && RunInBudget(size, Busy(3))
  {
    hide Run, RunInBudget;
    RunNothing(size);
    RunMore(size, [], Start, Begin);
    assert [] + [Begin] == [Begin] && [Begin] + [Begin] == [Begin, Begin] && [0] + [0] == [0, 0];
    RunMore(size, [Begin], State([0], false, []), Begin);
    RunMore(size, [Begin, Begin], State([0, 0], false, []), Begin);
    assert Busy(1) == [Begin];
    assert Busy(2) == [Begin, Begin];
    assert BusyState(0) == State([0, 0, 0], false, []);
  }

  lemma BusyStep(size: nat, j: nat)
    requires j < LOGSIZE && j + 1 < size
    ensures var s := BusyState(j); var e := Lwrite(j / 10, j);
      Allowed(s, e) && InBudget(s, e) && Step(size, s, e) == Next(BusyState(j + 1))
  {
    var s := BusyState(j);
    var q := j / 10;
    assert j !in s.bs;
    assert s.bs + [j] == BusyState(j + 1).bs;
    assert 0 <= q <= 2 && s.ops[q] == Share(q, j) == j - 10 * q;
    assert s.ops[q := s.ops[q] + 1] == BusyState(j + 1).ops;
  }

  lemma {:induction false} BusyRun(size: nat, m: nat)
    requires m <= LOGSIZE && (m == 0 || m < size)
    ensures Run(size, Busy(m + 3)) == Next(BusyState(m)) && RunInBudget(size, Busy(m + 3))
  {
    hide Run, RunInBudget;
    if m == 0 {
      BusyBegins(size);
    } else {
      BusyRun(size, m - 1);
      BusyStep(size, m - 1);
      RunMore(size, Busy(m + 2), BusyState(m - 1), Lwrite((m - 1) / 10, m - 1));
    }
  }

  /** Some run within budget reaches a call of lwrite that panics because the transaction is too big. */
  ghost predicate CanOverflow(size: nat) {
    exists evs :: RunInBudget(size, evs) && Run(size, evs).TooBig?
  }

  /** begin_op's reservation keeps the size panic out of reach exactly when the log has more than LOGSIZE
      blocks; with the LOGSIZE blocks that mkfs gives it, three full operations can reach it. */
  lemma OverflowExactly(size: nat)
    ensures CanOverflow(size) <==> size <= LOGSIZE
  {
    hide Run, RunInBudget;
    if size <= LOGSIZE {
      var m := if size == 0 then 0 else size - 1;
      BusyRun(size, m);
      assert m / 10 < 3 && BusyState(m).ops[m / 10] < 10;
      RunMore(size, Busy(m + 3), BusyState(m), Lwrite(m / 10, m));
    }
    if CanOverflow(size) {
      var evs :| RunInBudget(size, evs) && Run(size, evs).TooBig?;
      RunReserved(size, evs);
    }
  }
}
