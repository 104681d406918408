/** Machine words of a 64-bit target and Go's wrapping unsigned arithmetic. */
module Words {

  const TWO_32: int := 0x1_0000_0000
  const TWO_64: int := 0x1_0000_0000_0000_0000

  type u8 = x: int | 0 <= x < 0x100
  type u32 = x: int | 0 <= x < 0x1_0000_0000
  type u64 = x: int | 0 <= x < 0x1_0000_0000_0000_0000

  /** `a + k` on uint64 / uintptr: wraps modulo 2^64. */
  function Add64(a: u64, k: int): u64
  {
    (a + k) % TWO_64
  }

  /** `a - k` on uint64 / uintptr: wraps modulo 2^64. */
  function Sub64(a: u64, k: int): u64
  {
    (a - k) % TWO_64
  }

  /** How far `b` lies above `a` in the wrapping address space: the unique
      `d < 2^64` with `Add64(a, d) == b`. */
  function Dist(a: u64, b: u64): (d: nat)
    ensures d < TWO_64
  {
    if a <= b then b - a else b - a + TWO_64
  }

  /** Dist is the inverse of Add64. */
  lemma AddOfDist(a: u64, b: u64)
    ensures Add64(a, Dist(a, b)) == b
  {
  }

  lemma DistOfAdd(a: u64, k: int)
    requires 0 <= k < TWO_64
    ensures Dist(a, Add64(a, k)) == k
  {
  }

  lemma AddAdd(a: u64, j: int, k: int)
    ensures Add64(Add64(a, j), k) == Add64(a, j + k)
  {
  }

  /** Stepping the base of a window up by one brings every other address
      one closer. */
  lemma DistStep(a: u64, b: u64)
    requires a != b
    ensures Dist(Add64(a, 1), b) == Dist(a, b) - 1
  {
  }

  /** Lowering the base of a window by `k` moves every address `k` further up. */
  lemma DistSub(a: u64, b: u64, k: int)
    requires 0 <= k < TWO_64
    ensures Dist(Sub64(a, k), b) == (Dist(a, b) + k) % TWO_64
  {
  }

  /** Raising the base of a window by `k` brings every address `k` closer. */
  lemma DistAdd(a: u64, b: u64, k: int)
    requires 0 <= k < TWO_64
    ensures Dist(Add64(a, k), b) == (Dist(a, b) - k) % TWO_64
  {
  }
}
