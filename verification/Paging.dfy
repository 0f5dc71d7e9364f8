/** Sv39 address arithmetic. Words are naturals below 2^64; a shift is a division or a multiplication by a power of
    two and a mask is a remainder. */
module Paging {

  const PGSIZE := 4096
  const VA_MAX := 0x40_0000_0000         // 2^38
  const WORD := 0x1_0000_0000_0000_0000  // 2^64
  const HALF := 0x1_0000_0000            // 2^32
  const PA_END := 0x100_0000_0000_0000   // 2^56, the end of Sv39 physical addresses

  const PTE_V := 1
  const PTE_R := 2
  const PTE_W := 4
  const PTE_X := 8
  const PTE_U := 16

  /** The three table indices of an address, from the root table down. */
  datatype Page = Page(i: nat, j: nat, l: nat)

  function PX(level: nat, va: nat): nat
    requires level < 3
  {
    va / (if level == 0 then 0x1000 else if level == 1 then 0x20_0000 else 0x4000_0000) % 512
  }

  function PageOf(va: nat): Page { Page(PX(2, va), PX(1, va), PX(0, va)) }

  function PTE2PA(pte: nat): nat { pte / 1024 * 4096 % WORD }
  function PA2PTE(pa: nat): nat { pa / 4096 * 1024 }
  function PteFlags(pte: nat): nat { pte % 1024 }

  /** The entry map_pages writes: the frame, the flags and PTE_V. */
  function PteWord(pa: nat, flags: nat): nat { PA2PTE(pa) + (if flags % 2 == 1 then flags else flags + 1) }

  predicate Bit(pte: nat, flag: nat)
    requires flag > 0
  {
    pte / flag % 2 == 1
  }

  /** The mask is a 32-bit constant widened to 64 bits: it clears the upper half too. */
  function RoundDown(a: nat): nat { a % HALF / PGSIZE * PGSIZE }
  function RoundUp(a: nat): nat { RoundDown((a + PGSIZE - 1) % WORD) }

  // ---- what these compute ----

  function TrueDown(a: nat): nat { a / PGSIZE * PGSIZE }
  function TrueUp(a: nat): nat { TrueDown(a + PGSIZE - 1) }

  lemma Split(a: nat)
    ensures a == a / HALF * HALF + a % HALF && a % HALF / PGSIZE * PGSIZE <= a % HALF
  {}

  /** Rounding is right exactly when the rounded result is below 2^32. */
  lemma RoundDownExactly(a: nat)
    ensures RoundDown(a) == TrueDown(a) <==> TrueDown(a) < HALF
  {
    Split(a);
    if a < HALF { assert a % HALF == a; }
    assert TrueDown(a) >= a - (PGSIZE - 1) && HALF % PGSIZE == 0;
    if a >= HALF { assert TrueDown(a) >= HALF; }
  }

  lemma RoundUpExactly(a: nat)
    requires a < WORD
    ensures RoundUp(a) == TrueUp(a) <==> TrueUp(a) < HALF
  {
    var b := a + PGSIZE - 1;
    if b < WORD {
      assert b % WORD == b;
      RoundDownExactly(b);
    } else {
      Split(b % WORD);
      assert RoundUp(a) < HALF <= TrueUp(a);
    }
  }

  /** An address a program may well ask for, 4 GB, is rounded to 0. */
  lemma RoundUpWraps()
    ensures RoundUp(HALF) == 0 && TrueUp(HALF) == HALF
  {}

  /** A page number is determined by its three indices, for every address that walk accepts. */
  lemma PageInjective(a: nat, b: nat)
    requires a <= VA_MAX && b <= VA_MAX && PageOf(a) == PageOf(b)
    ensures a / PGSIZE == b / PGSIZE
  {
    PageNumber(a);
    PageNumber(b);
  }

  lemma PageNumber(a: nat)
    requires a <= VA_MAX
    ensures a / PGSIZE == PX(2, a) * 0x4_0000 + PX(1, a) * 512 + PX(0, a)
  {
    var v := a / PGSIZE;
    assert a / 0x20_0000 == v / 512 && a / 0x4000_0000 == v / 512 / 512;
    assert v / 512 / 512 < 512;
  }

  predicate PageOk(pg: Page) { pg.i < 512 && pg.j < 512 && pg.l < 512 }

  function Vpn(pg: Page): nat { pg.i * 0x4_0000 + pg.j * 512 + pg.l }

  lemma VpnOf(a: nat)
    requires a <= VA_MAX
    ensures PageOk(PageOf(a)) && Vpn(PageOf(a)) == a / PGSIZE
  {
    PageNumber(a);
  }

  lemma VpnInjective(p: Page, q: Page)
    requires PageOk(p) && PageOk(q) && Vpn(p) == Vpn(q)
    ensures p == q
  {}

  predicate FrameOk(f: nat) { f % PGSIZE == 0 && 0 < f < PA_END }

  /** A page table entry gives back the frame and the flags it was made of. */
  lemma PteRoundTrip(f: nat, flags: nat)
    requires FrameOk(f) && flags < 1024
    ensures PTE2PA(PA2PTE(f) + flags) == f && PteFlags(PA2PTE(f) + flags) == flags
  {
    var n := f / 4096;
    assert (n * 1024 + flags) / 1024 == n;
  }

  /** The flag bits of an entry are those of its flags. */
  lemma PteBits(f: nat, flags: nat)
    requires flags < 1024
    ensures Bit(PA2PTE(f) + flags, PTE_V) == Bit(flags, PTE_V)
    ensures Bit(PA2PTE(f) + flags, PTE_U) == Bit(flags, PTE_U)
    ensures Bit(PA2PTE(f) + flags, PTE_W) == Bit(flags, PTE_W)
  {
    BitAbove(f / 4096 * 32, flags, PTE_U);
    BitAbove(f / 4096 * 128, flags, PTE_W);
    BitAbove(f / 4096 * 512, flags, PTE_V);
  }

  lemma BitAbove(n: nat, m: nat, flag: nat)
    requires flag == PTE_V || flag == PTE_W || flag == PTE_U
    ensures Bit(n * (2 * flag) + m, flag) == Bit(m, flag)
  {
    var q, r := m / flag, m % flag;
    assert n * (2 * flag) + m == flag * (2 * n + q) + r;
    assert (n * (2 * flag) + m) / flag == 2 * n + q;
  }

  /** An entry with flags V alone, and no others, is not a leaf: its U bit is clear. */
  lemma TableEntry(f: nat)
    requires FrameOk(f)
    ensures PTE2PA(PA2PTE(f) + PTE_V) == f && Bit(PA2PTE(f) + PTE_V, PTE_V) && !Bit(PA2PTE(f) + PTE_V, PTE_U)
  {
    PteRoundTrip(f, PTE_V);
    PteBits(f, PTE_V);
  }

  lemma WordOk(f: nat, flags: nat)
    requires FrameOk(f) && flags < 1024
    ensures PTE2PA(PteWord(f, flags)) == f && Bit(PteWord(f, flags), PTE_V)
    ensures Bit(PteWord(f, flags), PTE_U) == Bit(flags, PTE_U) && Bit(PteWord(f, flags), PTE_W) == Bit(flags, PTE_W)
    ensures PteFlags(PteWord(f, flags)) == if flags % 2 == 1 then flags else flags + 1
  {
    var v := if flags % 2 == 1 then flags else flags + 1;
    PteRoundTrip(f, v);
    PteBits(f, v);
  }
}
