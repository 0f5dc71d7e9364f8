/** The virtio disk driver. */
module Virtio {

  import opened VirtioQueue

  lemma FreeIsClear(s: Q)
    requires Ok(s)
    ensures forall i {:trigger s.free[i]} :: 0 <= i < NUM && s.free[i] ==> s.desc[i] == CLEAR
  {
    forall i | 0 <= i < NUM && s.free[i] ensures s.desc[i] == CLEAR { assert DescOk(s, i); }
  }

  class Disk {
    var free: seq<bool>
    var desc: seq<Desc>
    var info: seq<nat>
    var status: seq<nat>
    var ops: seq<Req>
    var ring: seq<nat>
    var aidx: nat
    var uring: seq<nat>
    var uidx: nat
    var seen: nat
    var busy: set<nat>
    ghost var q: Q

    /** The fields are those of a queue in good order. */
    ghost predicate Valid()
      reads this
    {
      && Ok(q) && Sized(q)
      && free == q.free && desc == q.desc && info == q.info && status == q.status && ops == q.ops
      && ring == q.ring && aidx == q.aidx && uring == q.uring && uidx == q.uidx && seen == q.seen && busy == q.busy
    }

    /** The state in which init leaves the driver and the rings. */
    constructor ()
      ensures Valid() && q == Initial()
    {
      InitialOk();
      var s := Initial();
      free, desc, info, status, ops := s.free, s.desc, s.info, s.status, s.ops;
      ring, aidx, uring, uidx, seen, busy, q := s.ring, s.aidx, s.uring, s.uidx, s.seen, s.busy, s;
    }

    /** Takes the lowest free descriptor; -1 exactly when there is none. */
    method AllocDesc() returns (i: int)
      requires |free| == NUM
      modifies this`free
      ensures -1 <= i < NUM && |free| == NUM && (i == -1 ==> free == old(free))
      ensures i >= 0 ==> old(free)[i] && free == old(free)[i := false]
      ensures forall k {:trigger old(free)[k]} :: 0 <= k < (if i == -1 then NUM else i) ==> !old(free)[k]
    {
      i := 0;
      while i < NUM
        invariant 0 <= i <= NUM && free == old(free)
        invariant forall k {:trigger free[k]} :: 0 <= k < i ==> !free[k]
      {
        if free[i] {
          free := free[i := false];
          return;
        }
        i := i + 1;
      }
      return -1;
    }

    /** false stands for the two panics. */
    method FreeDesc(i: nat) returns (ok: bool)
      requires |free| == |desc| == NUM
      modifies this`free, this`desc
      ensures ok == (i < NUM && !old(free)[i])
      ensures if ok then free == old(free)[i := true] && desc == old(desc)[i := CLEAR]
              else free == old(free) && desc == old(desc)
    {
      if i >= NUM { return false; }
      if free[i] { return false; }
      desc := desc[i := CLEAR];
      free := free[i := true];
      ok := true;
    }

    /** alloc3_desc's way back: the descriptors taken so far are freed again. */
    method GiveBack(idx: seq<nat>)
      requires |free| == |desc| == NUM
      requires forall k {:trigger idx[k]} :: 0 <= k < |idx| ==> idx[k] < NUM && !free[idx[k]] && desc[idx[k]] == CLEAR
      requires forall j, k {:trigger idx[j], idx[k]} :: 0 <= j < k < |idx| ==> idx[j] != idx[k]
      modifies this`free, this`desc
      ensures desc == old(desc) && |free| == NUM
      ensures forall k {:trigger free[k]} :: 0 <= k < NUM ==> free[k] == (old(free)[k] || k in idx)
    {
      var j := 0;
      while j < |idx|
        invariant 0 <= j <= |idx| && desc == old(desc) && |free| == NUM
        invariant forall k {:trigger free[k]} :: 0 <= k < NUM ==> free[k] == (old(free)[k] || k in idx[..j])
      {
        var freed := FreeDesc(idx[j]);
        j := j + 1;
      }
      assert idx[..j] == idx;
    }

    /** Takes three different free descriptors, or, exactly when fewer than three are free, changes nothing. */
    method Alloc3Desc() returns (ok: bool, idx: seq<nat>)
      requires |free| == |desc| == NUM && forall i {:trigger free[i]} :: 0 <= i < NUM && free[i] ==> desc[i] == CLEAR
      modifies this`free, this`desc
      ensures desc == old(desc) && |free| == NUM
      ensures ok ==>
        && |idx| == 3 && (forall k {:trigger idx[k]} :: 0 <= k < 3 ==> idx[k] < NUM && old(free)[idx[k]])
        && idx[0] != idx[1] && idx[0] != idx[2] && idx[1] != idx[2]
        && free == old(free)[idx[0] := false][idx[1] := false][idx[2] := false]
      ensures !ok ==> free == old(free)
      ensures ok <==> !Few(old(free))
    {
      hide Few;
      idx := [];
      while |idx| < 3
        invariant |idx| <= 3 && desc == old(desc) && |free| == NUM
        invariant forall k {:trigger idx[k]} :: 0 <= k < |idx| ==> idx[k] < NUM && old(free)[idx[k]] && !free[idx[k]]
        invariant forall j, k {:trigger idx[j], idx[k]} :: 0 <= j < k < |idx| ==> idx[j] != idx[k]
        invariant free == Less(old(free), idx)
        decreases 3 - |idx|
      {
        var i := AllocDesc();
        if i < 0 {
          GiveBack(idx);
          LessBack(old(free), idx, free);
          AtMostTwo(old(free), idx);
          return false, idx;
        }
        idx := idx + [i];
        assert free == Less(old(free), idx);
      }
      Three(old(free), idx[0], idx[1], idx[2]);
      ok := true;
    }

    /** Frees the chain at i, following next while the flags say so; false stands for a panic on the way. */
    method FreeChain(i: nat, ghost c: nat, ghost d: nat) returns (ok: bool)
      requires |free| == |desc| == NUM && LinksTo(free, desc, i, c, d)
      modifies this`free, this`desc
      ensures ok && free == old(free)[i := true][c := true][d := true] &&
              desc == old(desc)[i := CLEAR][c := CLEAR][d := CLEAR]
    {
      ghost var n := 0;
      var x := i;
      while true
        invariant 0 <= n < 3 && x == (if n == 0 then i else if n == 1 then c else d) && |free| == |desc| == NUM
        invariant desc == if n == 0 then old(desc)
                          else if n == 1 then old(desc)[i := CLEAR]
                          else old(desc)[i := CLEAR][c := CLEAR]
        invariant free == if n == 0 then old(free)
                          else if n == 1 then old(free)[i := true]
                          else old(free)[i := true][c := true]
        decreases 3 - n
      {
        var flag, nxt := desc[x].flags, desc[x].next;
        ok := FreeDesc(x);
        if !ok { return; }
        if flag % 2 == 1 {
          x := nxt;
          n := n + 1;
        } else {
          return;
        }
      }
    }

    /** disk_rw up to the notification: false means that it must sleep for descriptors, and that nothing has changed. */
    method Begin(b: nat, blockno: nat, write: bool) returns (ok: bool, h: nat)
      requires Valid() && b > 0 && b !in q.holder
      modifies this
      ensures Valid() && (!ok ==> q == old(q)) && (!ok <==> Few(old(free)))
      ensures ok ==>
        exists c, d :: CanSubmit(old(q), h, c, d, Job(b, blockno, write)) &&
                       q == Submitted(old(q), h, c, d, Job(b, blockno, write))
      ensures ok ==> h < |ops| && ops[h].write == write && h in q.job && q.job[h] == Job(b, blockno, write)
      ensures ok ==> (ops[h].sector * 512 == blockno * 1024 <==> blockno < 0x8000_0000)
    {
      hide Ok, Chained, Sector, Submitted;
      h := 0;
      FreeIsClear(q);
      var idx;
      ok, idx := Alloc3Desc();
      if !ok { return; }
      h := idx[0];
      Fill(idx, b, blockno, write);
      Publish(h, idx[1], idx[2], b, Job(b, blockno, write));
      SectorExactly(blockno);
      SubmittedJob(old(q), h, idx[1], idx[2], Job(b, blockno, write));
    }

    /** Records the buffer and makes the chain available. */
    method Publish(h: nat, ghost c: nat, ghost d: nat, b: nat, ghost j: Job)
      requires Ok(q) && CanSubmit(q, h, c, d, j) && j.b == b
      requires free == q.free[h := false][c := false][d := false] && desc == Chained(q.desc, h, c, d, j)
      requires ops == q.ops[h := Req(j.write, Sector(j.blockno))] && status == q.status[h := UNSET] &&
               info == q.info && ring == q.ring
      requires aidx == q.aidx && uring == q.uring && uidx == q.uidx && seen == q.seen && busy == q.busy
      modifies this`busy, this`info, this`ring, this`aidx, this`q
      ensures Valid() && q == Submitted(old(q), h, c, d, j)
    {
      hide Ok, Chained, Sector;
      SubmittedOk(q, h, c, d, j);
      busy := busy + {b};
      info := info[h := b];
      ring := ring[aidx % NUM := h];
      aidx := (aidx + 1) % IDX;
      q := Submitted(q, h, c, d, j);
    }

    /** Fills the three descriptors, the request header and the status byte. */
    method Fill(idx: seq<nat>, b: nat, blockno: nat, write: bool)
      requires |idx| == 3 && |desc| == |ops| == |status| == NUM && idx[0] < NUM && idx[1] < NUM && idx[2] < NUM
      modifies this`desc, this`ops, this`status
      ensures desc == Chained(old(desc), idx[0], idx[1], idx[2], Job(b, blockno, write))
      ensures ops == old(ops)[idx[0] := Req(write, Sector(blockno))] && status == old(status)[idx[0] := UNSET]
    {
      var h := idx[0];
      ops := ops[h := Req(write, Sector(blockno))];
      desc := desc[h := Desc(HeaderOf(h), REQ_SIZE, F_NEXT, idx[1])];
      desc := desc[idx[1] := Desc(DataOf(b), BSIZE, (if write then 0 else F_WRITE) + F_NEXT, idx[2])];
      status := status[h := UNSET];
      desc := desc[idx[2] := Desc(StatusOf(h), 1, F_WRITE, 0)];
    }

    /** The rest of disk_rw, once the buffer's disk field is 0: exactly its own chain is freed, without a panic. */
    method End(h: nat) returns (ok: bool)
      requires Valid() && h in q.ph && q.ph[h] == Done
      modifies this
      ensures ok && Valid()
      ensures exists c, d :: IsChain(old(q), h, c, d) && h in old(q).job && q == Freed(old(q), h, c, d)
    {
      hide Ok;
      ChainOf(q, h);
      ghost var c := desc[h].next;
      ghost var d := desc[c].next;
      FreedOk(q, h, c, d);
      info := info[h := 0];
      ok := FreeChain(h, c, d);
      q := Freed(q, h, c, d);
    }

    /** The interrupt handler: every entry of the used ring is noticed and its buffer let go. It panics, `ok` being
        false, exactly if the device has completed a request with a status that is not 0. */
    method Intr() returns (ok: bool)
      requires Valid()
      modifies this
      ensures Valid() && q.ph.Keys == old(q).ph.Keys && status == old(status)
      ensures ok <==> forall h {:trigger old(q).ph[h]} :: h in old(q).ph && old(q).ph[h].Completed? ==>
                        h < NUM && old(status)[h] == 0
      ensures ok ==> seen == uidx && q.done == q.done' && q.done' == old(q).done'
      ensures ok ==> forall h {:trigger q.ph[h]} :: h in q.ph ==>
                q.ph[h] == if old(q).ph[h].Completed? then Done else old(q).ph[h]
    {
      hide Ok;
      ok := true;
      while seen != uidx
        invariant Valid() && ok && q.done' == old(q).done' && q.ph.Keys == old(q).ph.Keys && status == old(status)
        invariant forall h {:trigger q.ph[h]} :: h in q.ph ==>
                    q.ph[h] == old(q).ph[h] || (old(q).ph[h].Completed? && q.ph[h] == Done && h < NUM && status[h] == 0)
        decreases q.done' - q.done
      {
        NoticedOk(q);
        var id := uring[seen % NUM];
        if status[id] != 0 { return false; }
        busy := busy - {info[id]};
        seen := (seen + 1) % IDX;
        q := Noticed(q);
      }
      AllNoticed(q);
    }
  }

  /** With the two indices equal, no chain is left in the used ring. */
  lemma AllNoticed(s: Q)
    requires Ok(s) && s.seen == s.uidx
    ensures s.done == s.done' && forall h {:trigger s.ph[h]} :: h in s.ph ==> !s.ph[h].Completed?
  {
    SameIdx(s.done, s.done');
    forall h | h in s.ph ensures !s.ph[h].Completed? { assert HeadOk(s, h); }
  }

  /** The free map without some descriptors. */
  function Less(free: seq<bool>, idx: seq<nat>): (r: seq<bool>)
    ensures |r| == |free| && forall k {:trigger r[k]} :: 0 <= k < |r| ==> r[k] == (free[k] && k !in idx)
  {
    seq(|free|, k requires 0 <= k < |free| => free[k] && k !in idx)
  }

  lemma LessBack(free: seq<bool>, idx: seq<nat>, now: seq<bool>)
    requires |now| == |free| && forall k {:trigger idx[k]} :: 0 <= k < |idx| ==> idx[k] < |free| && free[idx[k]]
    requires forall k {:trigger now[k]} :: 0 <= k < |now| ==> now[k] == (Less(free, idx)[k] || k in idx)
    ensures now == free
  {}

  /** Fewer than three descriptors are free. */
  predicate Few(free: seq<bool>)
    requires |free| == NUM
  {
    forall a, b, c {:trigger free[a], free[b], free[c]} :: 0 <= a < b < c < NUM ==> !(free[a] && free[b] && free[c])
  }

  lemma AtMostTwo(free: seq<bool>, idx: seq<nat>)
    requires |free| == NUM && |idx| <= 2 && forall k {:trigger free[k]} :: 0 <= k < NUM ==> free[k] ==> k in idx
    ensures Few(free)
  {}

  lemma Three(free: seq<bool>, x: nat, y: nat, z: nat)
    requires |free| == NUM && x < NUM && y < NUM && z < NUM && x != y && x != z && y != z
    requires free[x] && free[y] && free[z]
    ensures !Few(free)
  {
    var a := if x < y && x < z then x else if y < z then y else z;
    var c := if x > y && x > z then x else if y > z then y else z;
    var b := x + y + z - a - c;
    assert 0 <= a < b < c < NUM && free[a] && free[b] && free[c];
  }
}
