/** Free-running 32-bit indices into a buffer whose size divides 2^32. */
module Wrap {

  const W32 := 0x1_0000_0000

  function Inc(x: nat): nat { (x + 1) % W32 }
  function Dec(x: nat): nat { (x + W32 - 1) % W32 }
  function Sub(x: nat, y: nat): nat
    requires y < W32
  {
    (x + W32 - y) % W32
  }

  /** The 32-bit view of a position. */
  function Low(n: nat): nat { n % W32 }

  lemma IncLow(n: nat)
    ensures Inc(Low(n)) == Low(n + 1)
  {}

  lemma DecLow(n: nat)
    requires n > 0
    ensures Dec(Low(n)) == Low(n - 1)
  {
    var q := n / W32;
    assert n == q * W32 + Low(n);
    if Low(n) == 0 { assert n - 1 == (q - 1) * W32 + (W32 - 1); } else { assert n - 1 == q * W32 + (Low(n) - 1); }
  }

  /** Differences and equality of positions that are close survive the wrap-around. */
  lemma SubLow(m: nat, n: nat)
    requires m <= n < m + W32
    ensures Sub(Low(n), Low(m)) == n - m && (Low(m) == Low(n) <==> m == n)
  {
    var p, q := m / W32, n / W32;
    assert m == p * W32 + Low(m) && n == q * W32 + Low(n);
    assert q == p || q == p + 1;
  }

  /** So does the slot of a position. */
  lemma SlotLow(n: nat, size: nat)
    requires size == 128 || size == 512
    ensures Low(n) % size == n % size
  {
    var q := n / W32;
    if size == 128 {
      assert n == 128 * (0x200_0000 * q) + Low(n);
    } else {
      assert n == 512 * (0x80_0000 * q) + Low(n);
    }
  }

  lemma Slots(m: nat, n: nat, size: nat)
    requires (size == 128 || size == 512) && m <= n < m + size
    ensures m % size == n % size <==> m == n
  {}
}
