/** Pipes: a byte stream through a ring of 512 bytes, with writers and readers that sleep and resume. */
module Pipe {

  import opened Wrap

  const PIPESIZE := 512

  // ---- the ring ----

  datatype R = R(data: seq<nat>, nread: nat, nwrite: nat, readopen: bool, writeopen: bool)

  function Count(r: R): nat
    requires r.nread < W32
  {
    Sub(r.nwrite, r.nread)
  }

  predicate ROk(r: R) { |r.data| == PIPESIZE && r.nread < W32 && r.nwrite < W32 && Count(r) <= PIPESIZE }

  /** The bytes in the pipe, oldest first. */
  function Contents(r: R): (c: seq<nat>)
    requires ROk(r)
    ensures |c| == Count(r) && forall k {:trigger c[k]} :: 0 <= k < |c| ==> c[k] == r.data[(r.nread + k) % PIPESIZE]
  {
    seq(Count(r), k requires 0 <= k => r.data[(r.nread + k) % PIPESIZE])
  }

  function Put(r: R, ch: nat): R
    requires |r.data| == PIPESIZE
  {
    r.(data := r.data[r.nwrite % PIPESIZE := ch], nwrite := Inc(r.nwrite))
  }

  function Get(r: R): R { r.(nread := Inc(r.nread)) }

  lemma SubIs(a: nat, b: nat)
    requires a < W32 && b < W32
    ensures Sub(b, a) == if b >= a then b - a else b + W32 - a
  {}

  lemma RingSlot(a: nat, b: nat)
    requires a < W32 && b < W32
    ensures b % PIPESIZE == (a + Sub(b, a)) % PIPESIZE
  {
    hide Sub;
    SubIs(a, b);
    SlotLow(b + W32, PIPESIZE);
  }

  lemma CountSteps(a: nat, b: nat)
    requires a < W32 && b < W32 && Sub(b, a) <= PIPESIZE
    ensures Sub(b, a) < PIPESIZE ==> Sub(Inc(b), a) == Sub(b, a) + 1
    ensures Sub(b, a) > 0 ==> Sub(b, Inc(a)) == Sub(b, a) - 1
  {
    hide Sub;
    SubIs(a, b);
    SubIs(a, Inc(b));
    SubIs(Inc(a), b);
  }

  lemma AfterInc(a: nat, k: nat)
    requires a < W32
    ensures (Inc(a) + k) % PIPESIZE == (a + k + 1) % PIPESIZE
  {
    if a + 1 == W32 {
      assert a + k + 1 == PIPESIZE * 0x80_0000 + k;
    }
  }

  lemma PutContents(r: R, ch: nat)
    requires ROk(r) && Count(r) < PIPESIZE
    ensures ROk(Put(r, ch)) && Contents(Put(r, ch)) == Contents(r) + [ch]
  {
    RingSlot(r.nread, r.nwrite);
    CountSteps(r.nread, r.nwrite);
    var c, d := Contents(Put(r, ch)), Contents(r) + [ch];
    forall k | 0 <= k < |c| ensures c[k] == d[k] { Slots(r.nread + k, r.nread + Count(r), PIPESIZE); }
  }

  lemma GetContents(r: R)
    requires ROk(r) && Count(r) > 0
    ensures ROk(Get(r)) && Contents(r) == [r.data[r.nread % PIPESIZE]] + Contents(Get(r))
  {
    RingSlot(r.nread, r.nwrite);
    CountSteps(r.nread, r.nwrite);
    var c, d := Contents(r), [r.data[r.nread % PIPESIZE]] + Contents(Get(r));
    forall k | 0 <= k < |c| ensures c[k] == d[k] { if k > 0 { AfterInc(r.nread, k - 1); } }
  }

  /** The pipe is full, or empty, exactly when the 32-bit tests say so. */
  lemma RingTests(r: R)
    requires ROk(r)
    ensures r.nwrite == (r.nread + PIPESIZE) % W32 <==> Count(r) == PIPESIZE
    ensures r.nread == r.nwrite <==> Count(r) == 0
  {}

  // ---- legs: what one stay under the pipe's lock does ----

  datatype Leg = Finished | Asleep | Failed

  function Min(a: nat, b: nat): nat { if a < b then a else b }

  /** The byte at which a leg of pipewrite that starts at byte i of n stops. Only the first `good` bytes can be copied
      in, and from byte killAt on the writer has been killed. */
  function Stop(r: R, i: nat, n: nat, good: nat, killAt: nat): (e: nat)
    requires ROk(r) && i <= n
    ensures i <= e <= n && e - i <= PIPESIZE - Count(r)
  {
    if !r.readopen || killAt <= i || good <= i then i
    else Min(Min(n, good), Min(killAt, i + (PIPESIZE - Count(r))))
  }

  function PutUpTo(r: R, src: seq<nat>, i: nat, e: nat): (t: R)
    requires i <= e <= |src| && |r.data| == PIPESIZE
    ensures |t.data| == PIPESIZE
    decreases e - i
  {
    if i == e then r else Put(PutUpTo(r, src, i, e - 1), src[e - 1])
  }

  lemma {:induction false} PutUpToContents(r: R, src: seq<nat>, i: nat, e: nat)
    requires ROk(r) && i <= e <= |src| && Count(r) + (e - i) <= PIPESIZE
    ensures ROk(PutUpTo(r, src, i, e)) && Contents(PutUpTo(r, src, i, e)) == Contents(r) + src[i..e]
    ensures PutUpTo(r, src, i, e) == r.(data := PutUpTo(r, src, i, e).data, nwrite := PutUpTo(r, src, i, e).nwrite)
    decreases e - i
  {
    if i < e {
      PutUpToContents(r, src, i, e - 1);
      PutContents(PutUpTo(r, src, i, e - 1), src[e - 1]);
      assert src[i..e] == src[i..e - 1] + [src[e - 1]];
    }
  }

  function GetN(r: R, k: nat): R { if k == 0 then r else Get(GetN(r, k - 1)) }

  lemma {:induction false} GetNContents(r: R, k: nat)
    requires ROk(r) && k <= Count(r)
    ensures ROk(GetN(r, k)) && Contents(GetN(r, k)) == Contents(r)[k..] && GetN(r, k) == r.(nread := GetN(r, k).nread)
  {
    if k > 0 {
      GetNContents(r, k - 1);
      GetContents(GetN(r, k - 1));
      assert Contents(r)[k - 1..][1..] == Contents(r)[k..];
    }
  }

  class Pipe {
    var data: seq<nat>
    var nread: nat
    var nwrite: nat
    var readopen: bool
    var writeopen: bool

    ghost function Ring(): R
      reads this
    {
      R(data, nread, nwrite, readopen, writeopen)
    }

    constructor ()
      ensures ROk(Ring()) && Contents(Ring()) == [] && readopen && writeopen
    {
      data, nread, nwrite, readopen, writeopen := seq(PIPESIZE, i => 0), 0, 0, true, true;
    }

    /** One leg of pipewrite, from byte i on: to its end, or to the point where it must sleep because the pipe is full.
        Only the first `good` bytes can be copied in; from byte killAt on the writer has been killed. */
    method Write(src: seq<nat>, i: nat, good: nat, killAt: nat) returns (i': nat, leg: Leg)
      requires ROk(Ring()) && i <= |src|
      modifies this`data, this`nwrite
      ensures ROk(Ring()) && i' == Stop(old(Ring()), i, |src|, good, killAt)
      ensures Ring() == PutUpTo(old(Ring()), src, i, i')
      ensures Contents(Ring()) == old(Contents(Ring())) + src[i..i']
      ensures leg == Failed <==> i' < |src| && (!readopen || killAt <= i')
      ensures leg == Asleep <==> i' < |src| && readopen && i' < killAt && Count(Ring()) == PIPESIZE
      ensures leg == Finished ==> i' == |src| || good <= i'
      ensures i' > i ==> readopen && i' <= killAt && i' <= good
    {
      hide Sub, Put, Contents;
      ghost var r := Ring();
      PutUpToContents(r, src, i, i);
      i', leg := i, Finished;
      while i' < |src|
        invariant i <= i' <= |src| && Ring() == PutUpTo(r, src, i, i') && leg == Finished
        invariant ROk(Ring()) && Contents(Ring()) == Contents(r) + src[i..i']
        invariant i' > i ==> readopen && i' <= killAt && i' <= good
      {
        if !readopen || killAt <= i' {
          leg := Failed;
          return;
        }
        RingTests(Ring());
        if nwrite == (nread + PIPESIZE) % W32 {
          leg := Asleep;
          return;
        }
        if i' >= good { break; }
        PutUpToContents(r, src, i, i' + 1);
        PutIs(Ring(), src[i']);
        data := data[nwrite % PIPESIZE := src[i']];
        nwrite := Inc(nwrite);
        i' := i' + 1;
      }
    }

    /** One leg of piperead: it sleeps, or delivers at most n bytes. Only the first `room` bytes can be copied out; the
        next one is taken from the pipe and lost. It delivers nothing, where it could, only at the end of the file. */
    method Read(n: nat, room: nat, killed: bool) returns (out: seq<nat>, leg: Leg)
      requires ROk(Ring())
      modifies this`nread
      ensures ROk(Ring())
      ensures leg != Finished <==> old(Contents(Ring())) == [] && writeopen
      ensures leg != Finished ==> Ring() == old(Ring()) && out == [] && (leg == Failed <==> killed)
      ensures leg == Finished ==>
        && |out| == Min(Min(n, |old(Contents(Ring()))|), room) && out <= old(Contents(Ring()))
        && Ring() == GetN(old(Ring()), Min(Min(n, |old(Contents(Ring()))|), room + 1))
        && Contents(Ring()) == old(Contents(Ring()))[Min(Min(n, |old(Contents(Ring()))|), room + 1)..]
      ensures leg == Finished && n > 0 && room >= n ==> (out == [] <==> old(Contents(Ring())) == [] && !writeopen)
    {
      hide Sub, Get;
      ghost var r := Ring();
      out, leg := [], Finished;
      RingTests(r);
      if nread == nwrite && writeopen { return [], if killed then Failed else Asleep; }
      var i := 0;
      while i < n
        invariant i == |out| <= n && i <= Count(r) && i <= room && Ring() == GetN(r, i) && ROk(Ring())
        invariant out == Contents(r)[..i] && Contents(Ring()) == Contents(r)[i..]
      {
        RingTests(Ring());
        if nread == nwrite { break; }
        GetContents(Ring());
        GetNContents(r, i + 1);
        GetIs(Ring());
        var ch := data[nread % PIPESIZE];
        nread := Inc(nread);
        if i >= room { break; }
        out := out + [ch];
        i := i + 1;
      }
    }

    /** Closes one end; `dead` is whether the pipe is freed, which it is exactly when both ends are closed. */
    method Close(writable: bool) returns (dead: bool)
      requires ROk(Ring())
      modifies this`readopen, this`writeopen
      ensures ROk(Ring()) && dead == (!readopen && !writeopen)
      ensures Ring() == if writable then old(Ring()).(writeopen := false) else old(Ring()).(readopen := false)
    {
      if writable { writeopen := false; } else { readopen := false; }
      dead := !readopen && !writeopen;
    }
  }

  lemma PutIs(r: R, ch: nat)
    requires |r.data| == PIPESIZE
    ensures Put(r, ch) == r.(data := r.data[r.nwrite % PIPESIZE := ch], nwrite := Inc(r.nwrite))
  {}

  lemma GetIs(r: R)
    ensures Get(r) == r.(nread := Inc(r.nread))
  {}

  // ---- runs ----

  datatype Event =
    | Wrote(src: seq<nat>, i: nat, good: nat, killAt: nat)
    | Took(n: nat, room: nat)
    | Closed(writable: bool)

  /** A byte taken out of the pipe, and whether its reader received it. */
  datatype Taken = Taken(ch: nat, delivered: bool)

  /** The legs that the methods run: the ring after it, the bytes that went in and the bytes that came out. */
  datatype Effect = Effect(r: R, put: seq<nat>, got: seq<Taken>)

  function Act(r: R, e: Event): Effect
    requires ROk(r) && (e.Wrote? ==> e.i <= |e.src|)
  {
    match e
    case Wrote(src, i, good, killAt) =>
      var s := Stop(r, i, |src|, good, killAt);
      Effect(PutUpTo(r, src, i, s), src[i..s], [])
    case Took(n, room) =>
      var k := Min(Min(n, Count(r)), room + 1);
      Effect(GetN(r, k), [], seq(k, j requires 0 <= j < k => Taken(Contents(r)[j], j < room)))
    case Closed(writable) => Effect(if writable then r.(writeopen := false) else r.(readopen := false), [], [])
  }

  function Bytes(got: seq<Taken>): (b: seq<nat>)
    ensures |b| == |got| && forall k {:trigger b[k]} :: 0 <= k < |b| ==> b[k] == got[k].ch
  {
    seq(|got|, k requires 0 <= k < |got| => got[k].ch)
  }

  /** What readers received. */
  function Delivered(got: seq<Taken>): seq<nat> {
    if got == [] then [] else (if got[0].delivered then [got[0].ch] else []) + Delivered(got[1..])
  }

  /** r becomes t by a run of legs in which `put` went in and `got` came out. */
  ghost predicate Runs(r: R, es: seq<Event>, t: R, put: seq<nat>, got: seq<Taken>)
    decreases |es|
  {
    if es == [] then t == r && put == [] && got == []
    else
      && ROk(r) && (es[0].Wrote? ==> es[0].i <= |es[0].src|)
      && var x := Act(r, es[0]);
         |x.put| <= |put| && put[..|x.put|] == x.put && |x.got| <= |got| && got[..|x.got|] == x.got &&
         Runs(x.r, es[1..], t, put[|x.put|..], got[|x.got|..])
  }

  lemma ActConserves(r: R, e: Event)
    requires ROk(r) && (e.Wrote? ==> e.i <= |e.src|)
    ensures ROk(Act(r, e).r) && Contents(r) + Act(r, e).put == Bytes(Act(r, e).got) + Contents(Act(r, e).r)
  {
    hide Sub, Put, Get;
    match e {
      case Wrote(src, i, good, killAt) => PutUpToContents(r, src, i, Stop(r, i, |src|, good, killAt));
      case Took(n, room) => GetNContents(r, Min(Min(n, Count(r)), room + 1));
      case Closed(writable) =>
        assert Contents(Act(r, e).r) == Contents(r);
    }
  }

  lemma Chained(a: seq<nat>, p: seq<nat>, x: seq<nat>, b: seq<nat>, q: seq<nat>, y: seq<nat>, c: seq<nat>)
    requires a + p == x + b && b + q == y + c
    ensures a + (p + q) == (x + y) + c
  {
    assert a + (p + q) == (a + p) + q;
    assert (x + b) + q == x + (b + q);
    assert x + (y + c) == (x + y) + c;
  }

  lemma BytesSplit(got: seq<Taken>, n: nat)
    requires n <= |got|
    ensures Bytes(got) == Bytes(got[..n]) + Bytes(got[n..])
  {}

  /** First in, first out: over any interleaving of legs, what was in the pipe followed by what went in is what came
      out followed by what is in it now, and at most 512 bytes ever are. */
  lemma {:induction false} RunFifo(r: R, es: seq<Event>, t: R, put: seq<nat>, got: seq<Taken>)
    requires ROk(r) && Runs(r, es, t, put, got)
    ensures ROk(t) && Contents(r) + put == Bytes(got) + Contents(t)
    decreases |es|
  {
    hide Act, Contents, Bytes, ROk;
    if es != [] {
      var x := Act(r, es[0]);
      var put', got' := put[|x.put|..], got[|x.got|..];
      ActConserves(r, es[0]);
      RunFifo(x.r, es[1..], t, put', got');
      BytesSplit(got, |x.got|);
      Chained(Contents(r), x.put, Bytes(x.got), Contents(x.r), put', Bytes(got'), Contents(t));
      assert put == x.put + put';
    } else {
      NoBytes();
    }
  }

  lemma NoBytes()
    ensures Bytes([]) == []
  {}

  /** In every run an end is open exactly if it was and nobody has closed it, and nothing goes into a pipe whose read
      end is closed. */
  lemma {:induction false} OpenExactly(r: R, es: seq<Event>, t: R, put: seq<nat>, got: seq<Taken>)
    requires ROk(r) && Runs(r, es, t, put, got)
    ensures t.writeopen <==> r.writeopen && Closed(true) !in es
    ensures t.readopen <==> r.readopen && Closed(false) !in es
    ensures !r.readopen ==> put == []
    decreases |es|
  {
    hide Contents, Bytes;
    if es != [] {
      var e, x := es[0], Act(r, es[0]);
      ActConserves(r, e);
      ActOpen(r, e);
      OpenExactly(x.r, es[1..], t, put[|x.put|..], got[|x.got|..]);
      assert forall d :: d in es <==> d == e || d in es[1..] by { assert es == [e] + es[1..]; }
      assert put == x.put + put[|x.put|..];
    }
  }

  lemma ActOpen(r: R, e: Event)
    requires ROk(r) && (e.Wrote? ==> e.i <= |e.src|)
    ensures var t := Act(r, e).r;
            && (t.writeopen <==> r.writeopen && e != Closed(true))
            && (t.readopen <==> r.readopen && e != Closed(false))
            && (!r.readopen ==> Act(r, e).put == [])
  {
    hide Contents, Put, Get;
    match e {
      case Wrote(src, i, good, killAt) => PutUpToContents(r, src, i, Stop(r, i, |src|, good, killAt));
      case Took(n, room) => GetNContents(r, Min(Min(n, Count(r)), room + 1));
      case Closed(_) =>
    }
  }

  /** Every copy to a reader succeeds. */
  predicate Copies(e: Event) { e.Took? ==> e.room >= e.n }

  /** If so, the readers received all that came out: a prefix of what went in, in its order. */
  lemma {:induction false} RunDelivers(r: R, es: seq<Event>, t: R, put: seq<nat>, got: seq<Taken>)
    requires ROk(r) && Runs(r, es, t, put, got)
    requires forall k {:trigger es[k]} :: 0 <= k < |es| ==> Copies(es[k])
    ensures Delivered(got) == Bytes(got) && Delivered(got) <= Contents(r) + put
    decreases |es|
  {
    RunFifo(r, es, t, put, got);
    AllReceived(r, es, t, put, got);
    AllDelivered(got);
  }

  lemma {:induction false} AllReceived(r: R, es: seq<Event>, t: R, put: seq<nat>, got: seq<Taken>)
    requires ROk(r) && Runs(r, es, t, put, got)
    requires forall k {:trigger es[k]} :: 0 <= k < |es| ==> Copies(es[k])
    ensures forall k {:trigger got[k]} :: 0 <= k < |got| ==> got[k].delivered
    decreases |es|
  {
    if es != [] {
      var x := Act(r, es[0]);
      ActConserves(r, es[0]);
      assert Copies(es[0]);
      forall k | 0 <= k < |es[1..]| ensures Copies(es[1..][k]) { assert es[1..][k] == es[k + 1]; }
      AllReceived(x.r, es[1..], t, put[|x.put|..], got[|x.got|..]);
      forall k | 0 <= k < |got| ensures got[k].delivered {
        if k < |x.got| { assert got[k] == x.got[k]; } else { assert got[k] == got[|x.got|..][k - |x.got|]; }
      }
    }
  }

  lemma {:induction false} AllDelivered(got: seq<Taken>)
    requires forall k {:trigger got[k]} :: 0 <= k < |got| ==> got[k].delivered
    ensures Delivered(got) == Bytes(got)
  {
    if got != [] {
      AllDelivered(got[1..]);
      assert Bytes(got) == [got[0].ch] + Bytes(got[1..]);
    }
  }

  /** The one byte a read loses when a copy fails is the one behind the bytes it delivers. */
  lemma LostByte(r: R, n: nat, room: nat)
    requires ROk(r)
    ensures var got := Act(r, Took(n, room)).got;
            && Bytes(got) == Contents(r)[..|got|]
            && (forall k {:trigger got[k]} :: 0 <= k < |got| ==> (got[k].delivered <==> k < room))
            && (room < n && room < Count(r) <==> |got| == room + 1)
            && (room >= n || room >= Count(r) <==> |got| == Min(n, Count(r)) && |got| <= room)
  {
    var got := Act(r, Took(n, room)).got;
    assert Bytes(got) == Contents(r)[..|got|];
  }
}
