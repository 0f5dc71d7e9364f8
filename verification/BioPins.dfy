/** Pins over runs of the cache: lwrite pins, and nothing in the kernel unpins. */
module BioPins {

  import opened Blocks
  import opened Bio
  import opened BioRun

  /** A step of the code, which has no call of bupin. */
  predicate OfCode(e: Event) { !e.UnpinIt? }

  predicate AllOfCode(es: seq<Event>) { forall k {:trigger es[k]} :: 0 <= k < |es| ==> OfCode(es[k]) }

  /** A pinned buffer stays pinned, and with its block. */
  lemma PinsGrow(c: Core, e: Event, b: nat)
    requires CoreOk(c) && Can(c, e) && OfCode(e) && b < NBUF
    ensures var d := Do(c, e);
            && |d.pins| == |d.buf| == NBUF && c.pins[b] <= d.pins[b]
            && (c.pins[b] > 0 ==> d.buf[b].blockno == c.buf[b].blockno && d.buf[b].dev == DEV && c.buf[b].dev == DEV)
  {
    hide CleanOk, View, Held, Pinned;
    assert c.buf[b].refcnt == c.users[b] + c.pins[b];
    if e.Miss? { ReassignKeeps(c, e.b, e.blockno); }
  }

  /** Every buffer is pinned. */
  predicate Exhausted(c: Core) { |c.pins| == NBUF && forall b {:trigger c.pins[b]} :: 0 <= b < NBUF ==> c.pins[b] > 0 }

  /** No buffer can be recycled, whoever asks and for whichever block. */
  ghost predicate NoMiss(c: Core) { CoreOk(c) && forall e: Event {:trigger Can(c, e)} :: e.Miss? ==> !Can(c, e) }

  lemma ExhaustedNoMiss(c: Core)
    requires CoreOk(c) && Exhausted(c)
    ensures NoMiss(c) && forall b {:trigger c.buf[b]} :: 0 <= b < NBUF ==> c.buf[b].refcnt > 0
  {
    forall b | 0 <= b < NBUF ensures c.buf[b].refcnt > 0 { assert c.pins[b] > 0; }
  }

  /** Once every buffer is pinned that stays so in every run of the code: bget of a block that is not cached fails, and
      no block that is not cached ever becomes so. */
  lemma {:induction false} ExhaustedForGood(c: Core, v: seq<Block>, es: seq<Event>, d: Core, w: seq<Block>)
    requires CoreOk(c) && Exhausted(c) && Runs(c, v, es, d, w) && AllOfCode(es)
    ensures CoreOk(d) && Exhausted(d) && NoMiss(d) && d.at.Keys == c.at.Keys
    decreases |es|
  {
    hide View, Plain;
    ExhaustedNoMiss(c);
    if es != [] {
      var e := Do(c, es[0]);
      assert OfCode(es[0]);
      DoOk(c, es[0]);
      forall b | 0 <= b < NBUF ensures |e.pins| == NBUF && e.pins[b] > 0 {
        assert c.pins[b] > 0;
        PinsGrow(c, es[0], b);
      }
      SameCached(c, es[0]);
      forall k | 0 <= k < |es[1..]| ensures OfCode(es[1..][k]) { assert es[1..][k] == es[k + 1]; }
      ExhaustedForGood(e, Plain(c, es[0], v), es[1..], d, w);
    }
  }

  lemma SameCached(c: Core, e: Event)
    requires CoreOk(c) && NoMiss(c) && Can(c, e)
    ensures Do(c, e).at == c.at
  {
    hide CleanOk, View;
  }

  // ---- NBUF different blocks exhaust the cache ----

  /** The buffers of the pinned blocks. */
  ghost function PinnedBufs(c: Core, ks: set<nat>): set<nat>
    requires CoreOk(c) && ks <= Pinned(c)
  {
    set k | k in ks :: c.at[k]
  }

  lemma {:induction false} AsMany(c: Core, ks: set<nat>)
    requires CoreOk(c) && ks <= Pinned(c)
    ensures |PinnedBufs(c, ks)| == |ks|
    decreases |ks|
  {
    hide CleanOk, View, RefsOk;
    if ks != {} {
      var k :| k in ks;
      AsMany(c, ks - {k});
      assert PinnedBufs(c, ks) == PinnedBufs(c, ks - {k}) + {c.at[k]};
      assert c.at[k] !in PinnedBufs(c, ks - {k}) by {
        forall j | j in ks - {k} ensures c.at[j] != c.at[k] {
          assert c.buf[c.at[j]].blockno == j && c.buf[c.at[k]].blockno == k;
        }
      }
    }
  }

  lemma {:induction false} Fewer(a: set<nat>, n: nat)
    requires forall x {:trigger x in a} :: x in a ==> x < n
    ensures |a| <= n
    decreases n
  {
    if n > 0 {
      Fewer(a - {n - 1}, n - 1);
    } else {
      forall x ensures x !in a {}
      assert a == {};
    }
  }

  lemma {:induction false} FewerBut(a: set<nat>, n: nat, b: nat)
    requires b < n && b !in a && forall x {:trigger x in a} :: x in a ==> x < n
    ensures |a| < n
    decreases n
  {
    if b == n - 1 {
      Fewer(a, n - 1);
    } else {
      FewerBut(a - {n - 1}, n - 1, b);
    }
  }

  /** When NBUF different blocks are pinned, every buffer is. */
  lemma ManyPinned(c: Core)
    requires CoreOk(c) && |Pinned(c)| >= NBUF
    ensures Exhausted(c)
  {
    hide CleanOk, View;
    var ps := PinnedBufs(c, Pinned(c));
    AsMany(c, Pinned(c));
    forall b | 0 <= b < NBUF ensures c.pins[b] > 0 {
      if b !in ps { FewerBut(ps, NBUF, b); }
    }
  }

  /** The blocks that are pinned in a run. */
  ghost function PinnedIn(c: Core, es: seq<Event>): set<nat>
    decreases |es|
  {
    if es == [] || !CoreOk(c) || !Can(c, es[0]) then {}
    else (if es[0].PinIt? then {c.buf[es[0].b].blockno} else {}) + PinnedIn(Do(c, es[0]), es[1..])
  }

  lemma PinnedStays(c: Core, e: Event, k: nat)
    requires CoreOk(c) && Can(c, e) && OfCode(e) && CoreOk(Do(c, e))
    ensures k in Pinned(c) ==> k in Pinned(Do(c, e))
    ensures e.PinIt? ==> c.buf[e.b].blockno in Pinned(Do(c, e))
  {
    hide CleanOk, View;
    if k in Pinned(c) { PinsGrow(c, e, c.at[k]); }
  }

  /** In every run of the code, what has been pinned is pinned at the end. */
  lemma {:induction false} PinsStay(c: Core, v: seq<Block>, es: seq<Event>, d: Core, w: seq<Block>, k: nat)
    requires CoreOk(c) && Runs(c, v, es, d, w) && AllOfCode(es)
    ensures CoreOk(d) && (k in Pinned(c) || k in PinnedIn(c, es) ==> k in Pinned(d))
    decreases |es|
  {
    hide View, Plain, Pinned, CoreOk, Can, Do;
    if es != [] {
      assert OfCode(es[0]);
      DoOk(c, es[0]);
      PinnedStays(c, es[0], k);
      forall j | 0 <= j < |es[1..]| ensures OfCode(es[1..][j]) { assert es[1..][j] == es[j + 1]; }
      PinsStay(Do(c, es[0]), Plain(c, es[0], v), es[1..], d, w, k);
    }
  }

  /** A run of the code that pins NBUF different blocks leaves every buffer pinned. */
  lemma Exhausts(c: Core, v: seq<Block>, es: seq<Event>, d: Core, w: seq<Block>)
    requires CoreOk(c) && Runs(c, v, es, d, w) && AllOfCode(es) && |PinnedIn(c, es)| >= NBUF
    ensures CoreOk(d) && Exhausted(d)
  {
    hide View, Runs, PinnedIn, Pinned, MapOk, RefsOk, CleanOk;
    PinsStay(c, v, es, d, w, 0);
    forall k | k in PinnedIn(c, es) ensures k in Pinned(d) { PinsStay(c, v, es, d, w, k); }
    SubsetSize(PinnedIn(c, es), Pinned(d));
    ManyPinned(d);
  }

  lemma SubsetSize(a: set<nat>, b: set<nat>)
    requires a <= b
    ensures |a| <= |b|
  {
    assert b == a + (b - a);
  }
}
