/** The virtqueue shared by the disk driver and the device, for a device that completes requests in any order. */
module VirtioQueue {

  const NUM := 8
  const IDX := 65536            // ring indices are 16 bits wide
  const F_NEXT := 1
  const F_WRITE := 2
  const BSIZE := 1024
  const REQ_SIZE := 16          // the size of a request header
  const UNSET := 0xff           // the status byte before the device has written it

  /** What a descriptor points at: the header or the status byte kept for a chain head, or the data of a buffer. */
  datatype Addr = Nowhere | HeaderOf(h: nat) | DataOf(b: nat) | StatusOf(h: nat)

  datatype Desc = Desc(addr: Addr, len: nat, flags: nat, next: nat)

  const CLEAR := Desc(Nowhere, 0, 0, 0)

  datatype Req = Req(write: bool, sector: nat)

  /** The request a chain stands for: buffer b, 0 being the null pointer, its block, and the direction. */
  datatype Job = Job(b: nat, blockno: nat, write: bool)

  /** Where a descriptor is: unused, or the k-th of the chain that starts at h. */
  datatype Place = Unused | Part(h: nat, k: nat)

  /** How far a chain has got: in the available ring at position p, at the device, in the used ring at position p,
      or seen by the interrupt handler. */
  datatype Phase = Pending(p: nat) | AtDevice | Completed(p: nat) | Done

  /** free .. seen are the fields of the driver and of the two rings; busy is the set of buffers whose disk field is 1.
      The rest is history: the place of each descriptor, the job and phase of each chain, the chain of each buffer, and
      the ring positions counted without wrapping: sent .. sent' - 1 are available, done .. done' - 1 are used. */
  datatype Q = Q(free: seq<bool>, desc: seq<Desc>, info: seq<nat>, status: seq<nat>, ops: seq<Req>,
                 ring: seq<nat>, aidx: nat, uring: seq<nat>, uidx: nat, seen: nat, busy: set<nat>,
                 place: seq<Place>, job: map<nat, Job>, ph: map<nat, Phase>, holder: map<nat, nat>,
                 sent: nat, sent': nat, done: nat, done': nat)

  predicate Sized(s: Q) {
    |s.free| == |s.desc| == |s.info| == |s.status| == |s.ops| == |s.ring| == |s.uring| == |s.place| == NUM
  }

  function Sector(blockno: nat): nat { blockno * (BSIZE / 512) % 0x1_0000_0000 }

  /** The chain that starts at h carries its job: header, data and status, in three descriptors. */
  predicate HeadOk(s: Q, h: nat)
    requires Sized(s)
  {
    h in s.ph ==>
      && h < NUM && h in s.job && s.place[h] == Part(h, 0)
      && var j := s.job[h];
         var c := s.desc[h].next;
         && c < NUM && s.place[c] == Part(h, 1)
         && var d := s.desc[c].next;
            && d < NUM && s.place[d] == Part(h, 2)
            && s.desc[h] == Desc(HeaderOf(h), REQ_SIZE, F_NEXT, c)
            && s.desc[c] == Desc(DataOf(j.b), BSIZE, (if j.write then 0 else F_WRITE) + F_NEXT, d)
            && s.desc[d] == Desc(StatusOf(h), 1, F_WRITE, 0)
            && s.ops[h] == Req(j.write, Sector(j.blockno))
            && s.info[h] == j.b && j.b > 0 && j.b in s.holder && s.holder[j.b] == h
            && (j.b in s.busy <==> s.ph[h] != Done)
            && (s.ph[h].Pending? ==> s.sent <= s.ph[h].p < s.sent' && s.ring[s.ph[h].p % NUM] == h)
            && (s.ph[h].Completed? ==> s.done <= s.ph[h].p < s.done' && s.uring[s.ph[h].p % NUM] == h)
  }

  /** A descriptor is free exactly if it is in no chain, and is in at most one. */
  predicate DescOk(s: Q, i: nat)
    requires Sized(s) && i < NUM
  {
    && (s.free[i] <==> s.place[i] == Unused) && (s.free[i] ==> s.desc[i] == CLEAR) && (i !in s.ph ==> s.info[i] == 0)
    && (s.place[i].Part? ==>
          var h, k := s.place[i].h, s.place[i].k;
          h in s.ph && h < NUM && k < 3 && i == if k == 0 then h else if k == 1 then s.desc[h].next
                                             else if s.desc[h].next < NUM then s.desc[s.desc[h].next].next else i)
  }

  predicate AvailOk(s: Q, p: nat)
    requires Sized(s)
  {
    s.sent <= p < s.sent' ==> s.ring[p % NUM] in s.ph && s.ph[s.ring[p % NUM]] == Pending(p)
  }

  predicate UsedOk(s: Q, p: nat)
    requires Sized(s)
  {
    s.done <= p < s.done' ==> s.uring[p % NUM] in s.ph && s.ph[s.uring[p % NUM]] == Completed(p)
  }

  ghost predicate Ok(s: Q) {
    && Sized(s)
    && s.sent <= s.sent' <= s.sent + NUM && s.done <= s.done' <= s.done + NUM
    && s.aidx == s.sent' % IDX && s.uidx == s.done' % IDX && s.seen == s.done % IDX
    && (forall h {:trigger HeadOk(s, h)} :: HeadOk(s, h))
    && (forall i {:trigger DescOk(s, i)} :: 0 <= i < NUM ==> DescOk(s, i))
    && (forall p {:trigger AvailOk(s, p)} :: AvailOk(s, p))
    && (forall p {:trigger UsedOk(s, p)} :: UsedOk(s, p))
  }

  // ---- indices ----

  /** Wrapping at 65536 does not disturb the ring slot. */
  lemma SlotOf(n: nat)
    ensures n % IDX % NUM == n % NUM
  {
    var q := n / IDX;
    assert n == NUM * (8192 * q) + n % IDX;
  }

  lemma NextIdx(n: nat)
    ensures (n % IDX + 1) % IDX == (n + 1) % IDX
  {}

  /** Equal 16-bit indices are equal positions, for positions that are close. */
  lemma SameIdx(m: nat, n: nat)
    requires m <= n <= m + NUM
    ensures m % IDX == n % IDX <==> m == n
  {}

  lemma NearSlots(m: nat, n: nat)
    requires m <= n < m + NUM
    ensures m % NUM == n % NUM <==> m == n
  {}

  // ---- there is room in the rings ----

  function Heads(ring: seq<nat>, from: nat, k: nat): set<nat>
    requires |ring| == NUM
  {
    if k == 0 then {} else Heads(ring, from, k - 1) + {ring[(from + k - 1) % NUM]}
  }

  predicate Distinct(ring: seq<nat>, from: nat, n: nat)
    requires |ring| == NUM
  {
    forall p, q {:trigger ring[p % NUM], ring[q % NUM]} :: from <= p < q < from + n ==> ring[p % NUM] != ring[q % NUM]
  }

  lemma HeadsIn(ring: seq<nat>, from: nat, k: nat, x: nat) returns (p: nat)
    requires |ring| == NUM && x in Heads(ring, from, k)
    ensures from <= p < from + k && ring[p % NUM] == x
  {
    p := from + k - 1;
    if x != ring[p % NUM] { p := HeadsIn(ring, from, k - 1, x); }
  }

  lemma {:induction false} HeadsSize(ring: seq<nat>, from: nat, k: nat)
    requires |ring| == NUM && Distinct(ring, from, k)
    ensures |Heads(ring, from, k)| == k
  {
    if k > 0 {
      HeadsSize(ring, from, k - 1);
      var x := ring[(from + k - 1) % NUM];
      if x in Heads(ring, from, k - 1) {
        var p := HeadsIn(ring, from, k - 1, x);
        assert false;
      }
    }
  }

  lemma {:induction false} SubsetSize(a: set<nat>, b: set<nat>)
    requires a <= b
    ensures |a| <= |b|
  {
    if a != {} {
      var x :| x in a;
      SubsetSize(a - {x}, b - {x});
    }
  }

  /** Positions that hold different heads, none of them h, do not fill a ring. */
  lemma Room(ring: seq<nat>, from: nat, n: nat, h: nat)
    requires |ring| == NUM && n <= NUM && h < NUM && Distinct(ring, from, n)
    requires forall p {:trigger ring[p % NUM]} :: from <= p < from + n ==> ring[p % NUM] < NUM && ring[p % NUM] != h
    ensures n < NUM
  {
    var all := {0, 1, 2, 3, 4, 5, 6, 7};
    HeadsSize(ring, from, n);
    forall x | x in Heads(ring, from, n) ensures x in all - {h} {
      var p := HeadsIn(ring, from, n, x);
    }
    SubsetSize(Heads(ring, from, n), all - {h});
  }

  lemma AvailRoom(s: Q, h: nat)
    requires Ok(s) && h < NUM && (h in s.ph ==> !s.ph[h].Pending?)
    ensures s.sent' < s.sent + NUM
  {
    forall p | s.sent <= p < s.sent + (s.sent' - s.sent) ensures s.ring[p % NUM] < NUM && s.ring[p % NUM] != h {
      assert AvailOk(s, p) && HeadOk(s, s.ring[p % NUM]);
    }
    forall p, q | s.sent <= p < q < s.sent + (s.sent' - s.sent) ensures s.ring[p % NUM] != s.ring[q % NUM] {
      assert AvailOk(s, p) && AvailOk(s, q);
    }
    Room(s.ring, s.sent, s.sent' - s.sent, h);
  }

  lemma UsedRoom(s: Q, h: nat)
    requires Ok(s) && h < NUM && (h in s.ph ==> !s.ph[h].Completed?)
    ensures s.done' < s.done + NUM
  {
    forall p | s.done <= p < s.done + (s.done' - s.done) ensures s.uring[p % NUM] < NUM && s.uring[p % NUM] != h {
      assert UsedOk(s, p) && HeadOk(s, s.uring[p % NUM]);
    }
    forall p, q | s.done <= p < q < s.done + (s.done' - s.done) ensures s.uring[p % NUM] != s.uring[q % NUM] {
      assert UsedOk(s, p) && UsedOk(s, q);
    }
    Room(s.uring, s.done, s.done' - s.done, h);
  }

  // ---- the steps ----

  /** disk_rw's three descriptors, all different and free. */
  predicate CanSubmit(s: Q, h: nat, c: nat, d: nat, j: Job) {
    && Sized(s) && h < NUM && c < NUM && d < NUM && h != c && h != d && c != d
    && s.free[h] && s.free[c] && s.free[d] && j.b > 0 && j.b !in s.holder
  }

  /** The descriptors as disk_rw fills them. */
  function Chained(desc: seq<Desc>, h: nat, c: nat, d: nat, j: Job): (r: seq<Desc>)
    requires |desc| == NUM && h < NUM && c < NUM && d < NUM
    ensures |r| == NUM
  {
    desc[h := Desc(HeaderOf(h), REQ_SIZE, F_NEXT, c)]
        [c := Desc(DataOf(j.b), BSIZE, (if j.write then 0 else F_WRITE) + F_NEXT, d)]
        [d := Desc(StatusOf(h), 1, F_WRITE, 0)]
  }

  function Submitted(s: Q, h: nat, c: nat, d: nat, j: Job): Q
    requires CanSubmit(s, h, c, d, j)
  {
    s.(free := s.free[h := false][c := false][d := false], desc := Chained(s.desc, h, c, d, j),
       info := s.info[h := j.b], status := s.status[h := UNSET], ops := s.ops[h := Req(j.write, Sector(j.blockno))],
       ring := s.ring[s.aidx % NUM := h], aidx := (s.aidx + 1) % IDX, busy := s.busy + {j.b},
       place := s.place[h := Part(h, 0)][c := Part(h, 1)][d := Part(h, 2)],
       job := s.job[h := j], ph := s.ph[h := Pending(s.sent')], holder := s.holder[j.b := h], sent' := s.sent' + 1)
  }

  lemma SubmittedOk(s: Q, h: nat, c: nat, d: nat, j: Job)
    requires Ok(s) && CanSubmit(s, h, c, d, j)
    ensures Ok(Submitted(s, h, c, d, j)) && h !in s.ph
  {
    var g := Submitted(s, h, c, d, j);
    assert HeadOk(s, h) && DescOk(s, h) && DescOk(s, c) && DescOk(s, d);
    AvailRoom(s, h);
    SlotOf(s.sent');
    NextIdx(s.sent');
    SubmittedHeads(s, h, c, d, j);
    SubmittedDescs(s, h, c, d, j);
    forall p: nat ensures AvailOk(g, p) {
      assert AvailOk(s, p);
      if s.sent <= p <= s.sent' { NearSlots(p, s.sent'); }
    }
    forall p: nat ensures UsedOk(g, p) { assert UsedOk(s, p); }
  }

  lemma SubmittedDescs(s: Q, h: nat, c: nat, d: nat, j: Job)
    requires Ok(s) && CanSubmit(s, h, c, d, j) && s.place[h] == s.place[c] == s.place[d] == Unused
    ensures forall i {:trigger DescOk(Submitted(s, h, c, d, j), i)} ::
              0 <= i < NUM ==> DescOk(Submitted(s, h, c, d, j), i)
  {
    hide AvailOk, UsedOk;
    var g := Submitted(s, h, c, d, j);
    forall i | 0 <= i < NUM ensures DescOk(g, i) {
      assert DescOk(s, i);
      if s.place[i].Part? { assert HeadOk(s, s.place[i].h); }
    }
  }

  lemma SubmittedHeads(s: Q, h: nat, c: nat, d: nat, j: Job)
    requires Ok(s) && CanSubmit(s, h, c, d, j) && s.sent' < s.sent + NUM && h !in s.ph && s.aidx % NUM == s.sent' % NUM
    requires s.place[h] == s.place[c] == s.place[d] == Unused
    ensures forall x {:trigger HeadOk(Submitted(s, h, c, d, j), x)} :: HeadOk(Submitted(s, h, c, d, j), x)
  {
    hide DescOk, AvailOk, UsedOk;
    var g := Submitted(s, h, c, d, j);
    forall x ensures HeadOk(g, x) {
      assert HeadOk(s, x);
      if x in s.ph && s.ph[x].Pending? { NearSlots(s.ph[x].p, s.sent'); }
    }
  }

  /** The device takes the next available chain. */
  function Taken(s: Q): Q
    requires Sized(s)
  {
    s.(ph := s.ph[s.ring[s.sent % NUM] := AtDevice], sent := s.sent + 1)
  }

  lemma TakenOk(s: Q)
    requires Ok(s) && s.sent < s.sent'
    ensures Ok(Taken(s)) && s.ring[s.sent % NUM] in s.ph && s.ph[s.ring[s.sent % NUM]] == Pending(s.sent)
  {
    var g, h := Taken(s), s.ring[s.sent % NUM];
    assert AvailOk(s, s.sent) && HeadOk(s, h);
    forall x ensures HeadOk(g, x) { assert HeadOk(s, x); }
    forall i | 0 <= i < NUM ensures DescOk(g, i) { assert DescOk(s, i); }
    forall p: nat ensures AvailOk(g, p) { assert AvailOk(s, p); }
    forall p: nat ensures UsedOk(g, p) { assert UsedOk(s, p); }
  }

  /** The device is done with chain h: it writes the status byte, 0 if all went well, and a used entry. */
  function Finished(s: Q, h: nat, st: nat): Q
    requires Sized(s) && h < NUM
  {
    s.(status := s.status[h := st], uring := s.uring[s.uidx % NUM := h], uidx := (s.uidx + 1) % IDX,
       ph := s.ph[h := Completed(s.done')], done' := s.done' + 1)
  }

  lemma FinishedOk(s: Q, h: nat, st: nat)
    requires Ok(s) && h in s.ph && s.ph[h] == AtDevice
    ensures h < NUM && Ok(Finished(s, h, st))
  {
    assert HeadOk(s, h);
    var g := Finished(s, h, st);
    UsedRoom(s, h);
    SlotOf(s.done');
    NextIdx(s.done');
    forall x ensures HeadOk(g, x) {
      assert HeadOk(s, x);
      if x in s.ph && s.ph[x].Completed? { NearSlots(s.ph[x].p, s.done'); }
    }
    forall i | 0 <= i < NUM ensures DescOk(g, i) { assert DescOk(s, i); }
    forall p: nat ensures AvailOk(g, p) { assert AvailOk(s, p); }
    forall p: nat ensures UsedOk(g, p) {
      assert UsedOk(s, p);
      if s.done <= p <= s.done' { NearSlots(p, s.done'); }
    }
  }

  /** The interrupt handler looks at the next used entry. */
  function Noticed(s: Q): Q
    requires Sized(s) && s.uring[s.seen % NUM] < NUM
  {
    var h := s.uring[s.seen % NUM];
    s.(busy := s.busy - {s.info[h]}, seen := (s.seen + 1) % IDX, ph := s.ph[h := Done], done := s.done + 1)
  }

  /** What it finds there is a chain the device has completed, of a buffer that is waiting. */
  lemma NoticedOk(s: Q)
    requires Ok(s) && s.seen != s.uidx
    ensures var h := s.uring[s.seen % NUM];
            && h < NUM && h in s.ph && s.ph[h] == Completed(s.done)
            && s.info[h] > 0 && h in s.job && s.info[h] == s.job[h].b && s.info[h] in s.busy
            && Ok(Noticed(s)) && s.done < s.done'
  {
    SameIdx(s.done, s.done');
    SlotOf(s.done);
    NextIdx(s.done);
    var h := s.uring[s.seen % NUM];
    assert UsedOk(s, s.done) && HeadOk(s, h);
    var g := Noticed(s);
    forall x ensures HeadOk(g, x) { assert HeadOk(s, x); }
    forall i | 0 <= i < NUM ensures DescOk(g, i) { assert DescOk(s, i); }
    forall p: nat ensures AvailOk(g, p) { assert AvailOk(s, p); }
    forall p: nat ensures UsedOk(g, p) { assert UsedOk(s, p); }
  }

  /** disk_rw's end: the chain of a finished request is freed. */
  function Freed(s: Q, h: nat, c: nat, d: nat): Q
    requires Sized(s) && h < NUM && c < NUM && d < NUM && h in s.job
  {
    s.(free := s.free[h := true][c := true][d := true], desc := s.desc[h := CLEAR][c := CLEAR][d := CLEAR],
       info := s.info[h := 0], place := s.place[h := Unused][c := Unused][d := Unused],
       job := s.job - {h}, ph := s.ph - {h}, holder := s.holder - {s.job[h].b})
  }

  /** Three different descriptors in use, linked by next while the flags say so. */
  predicate LinksTo(free: seq<bool>, desc: seq<Desc>, h: nat, c: nat, d: nat)
    requires |free| == |desc| == NUM
  {
    && h < NUM && c < NUM && d < NUM && h != c && h != d && c != d
    && c == desc[h].next && d == desc[c].next && desc[h].flags % 2 == 1 && desc[c].flags % 2 == 1 &&
       desc[d].flags % 2 == 0
    && !free[h] && !free[c] && !free[d]
  }

  predicate IsChain(s: Q, h: nat, c: nat, d: nat)
    requires Sized(s)
  {
    LinksTo(s.free, s.desc, h, c, d)
  }

  lemma ChainOf(s: Q, h: nat)
    requires Ok(s) && h in s.ph
    ensures h < NUM && h in s.job && s.desc[h].next < NUM && s.desc[s.desc[h].next].next < NUM
    ensures IsChain(s, h, s.desc[h].next, s.desc[s.desc[h].next].next)
  {
    assert HeadOk(s, h);
    var c := s.desc[h].next;
    var d := s.desc[c].next;
    assert DescOk(s, h) && DescOk(s, c) && DescOk(s, d);
  }

  lemma FreedOk(s: Q, h: nat, c: nat, d: nat)
    requires Ok(s) && h in s.ph && s.ph[h] == Done && IsChain(s, h, c, d)
    ensures h in s.job && Ok(Freed(s, h, c, d))
  {
    assert HeadOk(s, h);
    var g := Freed(s, h, c, d);
    forall x ensures HeadOk(g, x) { assert HeadOk(s, x); }
    forall i | 0 <= i < NUM ensures DescOk(g, i) {
      assert DescOk(s, i);
      if s.place[i].Part? { assert HeadOk(s, s.place[i].h); }
    }
    forall p: nat ensures AvailOk(g, p) { assert AvailOk(s, p); }
    forall p: nat ensures UsedOk(g, p) { assert UsedOk(s, p); }
  }

  // ---- runs ----

  datatype Event = Submit(h: nat, c: nat, d: nat, j: Job) | Take | Finish(fh: nat, st: nat) | Notice | Free(dh: nat)

  /** What the driver and a conforming device may do next; the handler goes on only past a status of 0. */
  predicate Enabled(s: Q, e: Event)
    requires Sized(s)
  {
    match e
    case Submit(h, c, d, j) => CanSubmit(s, h, c, d, j)
    case Take => s.sent < s.sent'
    case Finish(h, _) => h < NUM && h in s.ph && s.ph[h] == AtDevice
    case Notice => s.seen != s.uidx && s.uring[s.seen % NUM] < NUM && s.status[s.uring[s.seen % NUM]] == 0
    case Free(h) =>
      && h in s.ph && s.ph[h] == Done && h in s.job && h < NUM
      && s.desc[h].next < NUM && s.desc[s.desc[h].next].next < NUM
  }

  function Next(s: Q, e: Event): Q
    requires Sized(s) && Enabled(s, e)
  {
    match e
    case Submit(h, c, d, j) => Submitted(s, h, c, d, j)
    case Take => Taken(s)
    case Finish(h, st) => Finished(s, h, st)
    case Notice => Noticed(s)
    case Free(h) => Freed(s, h, s.desc[h].next, s.desc[s.desc[h].next].next)
  }

  lemma NextOk(s: Q, e: Event)
    requires Sized(s) && Ok(s) && Enabled(s, e)
    ensures Ok(Next(s, e))
  {
    hide Ok, Submitted, Taken, Finished, Noticed, Freed;
    match e {
      case Submit(h, c, d, j) => SubmittedOk(s, h, c, d, j);
      case Take => TakenOk(s);
      case Finish(h, st) => FinishedOk(s, h, st);
      case Notice => NoticedOk(s);
      case Free(h) =>
        ChainOf(s, h);
        FreedOk(s, h, s.desc[h].next, s.desc[s.desc[h].next].next);
    }
  }

  ghost predicate Runs(s: Q, es: seq<Event>, t: Q)
    decreases |es|
  {
    if es == [] then t == s
    else Sized(s) && Enabled(s, es[0]) && Runs(Next(s, es[0]), es[1..], t)
  }

  function Initial(): Q {
    Q(seq(NUM, i => true), seq(NUM, i => CLEAR), seq(NUM, i => 0), seq(NUM, i => 0), seq(NUM, i => Req(false, 0)),
      seq(NUM, i => 0), 0, seq(NUM, i => 0), 0, 0, {}, seq(NUM, i => Unused), map[], map[], map[], 0, 0, 0, 0)
  }

  lemma InitialOk()
    ensures Ok(Initial())
  {}

  lemma {:induction false} RunOk(s: Q, es: seq<Event>, t: Q)
    requires Ok(s) && Runs(s, es, t)
    ensures Ok(t)
    decreases |es|
  {
    hide Ok;
    if es != [] {
      NextOk(s, es[0]);
      RunOk(Next(s, es[0]), es[1..], t);
    }
  }

  /** In every run: each descriptor is free or in exactly one chain of three, and whatever the handler finds in the used
      ring is a chain of a waiting, non-null buffer, whose request is the one the chain describes. */
  lemma RunSafe(es: seq<Event>, t: Q)
    requires Runs(Initial(), es, t)
    ensures Sized(t)
    ensures forall i :: 0 <= i < NUM ==>
              (t.free[i] <==> !exists h :: h in t.ph && InChain(t, i, h))
    ensures forall i, g, h :: 0 <= i < NUM && g in t.ph && h in t.ph && InChain(t, i, g) && InChain(t, i, h) ==> g == h
    ensures t.seen != t.uidx ==>
              var h := t.uring[t.seen % NUM];
              h < NUM && h in t.ph && t.ph[h].Completed? && t.info[h] > 0 && t.info[h] in t.busy
    ensures forall i :: 0 <= i < NUM && i !in t.ph ==> t.info[i] == 0
  {
    hide Initial;
    InitialOk();
    RunOk(Initial(), es, t);
    if t.seen != t.uidx { NoticedOk(t); }
    forall i, h | 0 <= i < NUM && h in t.ph ensures InChain(t, i, h) <==> t.place[i].Part? && t.place[i].h == h {
      ChainPlaces(t, i, h);
    }
    forall i | 0 <= i < NUM ensures t.free[i] <==> !exists h :: h in t.ph && InChain(t, i, h) {
      assert DescOk(t, i);
      if t.place[i].Part? { assert InChain(t, i, t.place[i].h); }
    }
    forall i | 0 <= i < NUM && i !in t.ph ensures t.info[i] == 0 { assert DescOk(t, i); }
  }

  /** Descriptor i is one of the three of the chain at h. */
  predicate InChain(t: Q, i: nat, h: nat)
    requires Sized(t)
  {
    h < NUM && (i == h || i == t.desc[h].next || (t.desc[h].next < NUM && i == t.desc[t.desc[h].next].next))
  }

  lemma ChainPlaces(t: Q, i: nat, h: nat)
    requires Ok(t) && i < NUM && h in t.ph
    ensures InChain(t, i, h) <==> t.place[i].Part? && t.place[i].h == h
  {
    assert HeadOk(t, h) && DescOk(t, i);
  }

  // ---- what a chain asks the device to do ----

  /** The header has the sector where the block starts exactly for blocks below 2^31. */
  lemma SectorExactly(blockno: nat)
    ensures Sector(blockno) * 512 == blockno * 1024 <==> blockno < 0x8000_0000
  {}

  /** Blocks below that bound lie in disjoint ranges of two sectors. */
  lemma SectorsApart(j: nat, k: nat)
    requires j < k < 0x8000_0000
    ensures Sector(j) + 2 <= Sector(k)
  {}

  /** In every run, a chain in flight asks for the sectors of its block exactly if the block is below 2^31; and chains
      of different such blocks ask for disjoint ranges. */
  lemma RunSectors(es: seq<Event>, t: Q, h: nat, g: nat)
    requires Runs(Initial(), es, t) && h in t.ph && g in t.ph
    ensures Sized(t) && h < NUM && g < NUM && h in t.job && g in t.job
    ensures t.ops[h].sector * 512 == t.job[h].blockno * 1024 <==> t.job[h].blockno < 0x8000_0000
    ensures t.job[h].blockno < t.job[g].blockno < 0x8000_0000 ==> t.ops[h].sector + 2 <= t.ops[g].sector
  {
    hide Initial, Sector;
    InitialOk();
    RunOk(Initial(), es, t);
    assert HeadOk(t, h) && HeadOk(t, g);
    SectorExactly(t.job[h].blockno);
    if t.job[h].blockno < t.job[g].blockno < 0x8000_0000 { SectorsApart(t.job[h].blockno, t.job[g].blockno); }
  }

  lemma SubmittedJob(s: Q, h: nat, c: nat, d: nat, j: Job)
    requires CanSubmit(s, h, c, d, j)
    ensures h in Submitted(s, h, c, d, j).job && Submitted(s, h, c, d, j).job[h] == j
  {}

  /** The bytes of the disk and of the buffers. */
  datatype World = World(disk: seq<int>, bufs: map<nat, seq<int>>)

  datatype Served = Served(w: World) | Malformed

  /** A device that follows the chain at h as sections 2.7.5 and 5.2.6 of version 1.2 of the Virtual I/O Device standard
      say: a descriptor with bit 0 of its flags set has a successor, one with bit 1 set may only be written by the
      device, one without only read; the header gives direction and sector, in units of 512 bytes. */
  function Serve(t: Q, h: nat, w: World): Served
    requires Sized(t)
  {
    if h >= NUM || t.desc[h].addr != HeaderOf(h) || t.desc[h].len != 16 || t.desc[h].flags != 1 then Malformed
    else
      var c := t.desc[h].next;
      if c >= NUM || !t.desc[c].addr.DataOf? || t.desc[c].addr.b !in w.bufs || t.desc[c].flags % 2 != 1 then Malformed
      else
        var d := t.desc[c].next;
        if d >= NUM || t.desc[d] != Desc(StatusOf(h), 1, 2, 0) then Malformed
        else
          var b, n, from := t.desc[c].addr.b, t.desc[c].len, t.ops[h].sector * 512;
          if |w.bufs[b]| < n || |w.disk| < from + n then Malformed
          else if t.ops[h].write && t.desc[c].flags / 2 % 2 == 0 then
            Served(w.(disk := w.disk[..from] + w.bufs[b][..n] + w.disk[from + n..]))
          else if !t.ops[h].write && t.desc[c].flags / 2 % 2 == 1 then
            Served(w.(bufs := w.bufs[b := w.disk[from..from + n] + w.bufs[b][n..]]))
          else Malformed
  }

  function Before(w: World, k: nat): seq<int>
    requires k * 1024 <= |w.disk|
  {
    w.disk[..k * 1024]
  }

  function After(w: World, k: nat): seq<int>
    requires (k + 1) * 1024 <= |w.disk|
  {
    w.disk[(k + 1) * 1024..]
  }

  /** In every run, what the device does with a chain in flight is to write the 1024 bytes of its buffer to its block,
      or to read its block into its buffer, and nothing else, for every block below 2^31 of the disk. */
  lemma RunServes(es: seq<Event>, t: Q, h: nat, w: World)
    requires Runs(Initial(), es, t) && h in t.ph && Sized(t) && h in t.job
    requires var j := t.job[h];
             j.blockno < 0x8000_0000 && (j.blockno + 1) * 1024 <= |w.disk| && j.b in w.bufs && |w.bufs[j.b]| == 1024
    ensures var j := t.job[h];
            Serve(t, h, w) ==
            if j.write then Served(w.(disk := Before(w, j.blockno) + w.bufs[j.b] + After(w, j.blockno)))
            else Served(w.(bufs := w.bufs[j.b := w.disk[j.blockno * 1024..(j.blockno + 1) * 1024]]))
  {
    hide Initial, Sector;
    InitialOk();
    RunOk(Initial(), es, t);
    assert HeadOk(t, h);
    var j := t.job[h];
    SectorExactly(j.blockno);
    assert w.bufs[j.b][..1024] == w.bufs[j.b] && w.bufs[j.b][1024..] == [];
    var from := j.blockno * 1024;
    assert w.disk[from..from + 1024] + [] == w.disk[from..from + 1024];
  }
}
