/** The target's byte-addressed memory, standing in for the unsafe pointer
    reads, writes and `memmove` calls of the protocol. Words are stored
    little-endian (ppc64le). A byte that is not mapped reads as zero. */
module Memory {
  import opened Words

  type Bytes = map<u64, u8>

  /** The memory of the target process, which the handlers update in place. */
  class AddressSpace {
    var bytes: Bytes

    constructor (bytes: Bytes)
      ensures this.bytes == bytes
    {
      this.bytes := bytes;
    }
  }

  function ByteAt(m: Bytes, a: u64): u8
  {
    if a in m then m[a] else 0
  }

  function Pow256(n: nat): (p: nat)
    ensures p >= 1
  {
    if n == 0 then 1 else 256 * Pow256(n - 1)
  }

  lemma Pow256Sizes()
    ensures Pow256(4) == TWO_32 && Pow256(8) == TWO_64
  {
    assert Pow256(1) == 256;
    assert Pow256(2) == 0x1_0000;
    assert Pow256(3) == 0x100_0000;
    assert Pow256(4) == TWO_32;
    assert Pow256(5) == 0x100_0000_0000;
    assert Pow256(6) == 0x1_0000_0000_0000;
    assert Pow256(7) == 0x100_0000_0000_0000;
  }

  /** The little-endian value of the `n` bytes starting at `a`; it always
      fits in `n` bytes. */
  function Load(m: Bytes, a: u64, n: nat): (v: nat)
    ensures v < Pow256(n)
    decreases n
  {
    if n == 0 then 0 else ByteAt(m, a) + 256 * Load(m, Add64(a, 1), n - 1)
  }

  /** Writes the low `n` bytes of `v` at `a`, least significant first. */
  function Store(m: Bytes, a: u64, n: nat, v: nat): Bytes
    decreases n
  {
    if n == 0 then m else Store(m[a := v % 256], Add64(a, 1), n - 1, v / 256)
  }

  /** `*(*uint64)(unsafe.Pointer(a))` */
  function Load64(m: Bytes, a: u64): (v: u64)
    ensures v == Load(m, a, 8)
  {
    Pow256Sizes();
    Load(m, a, 8)
  }

  /** `*(*uint32)(unsafe.Pointer(a))` */
  function Load32(m: Bytes, a: u64): (v: u32)
    ensures v == Load(m, a, 4)
  {
    Pow256Sizes();
    Load(m, a, 4)
  }

  /** `*(*uint64)(unsafe.Pointer(a)) = v` */
  function Store64(m: Bytes, a: u64, v: u64): Bytes
  {
    Store(m, a, 8, v)
  }

  /** `memmove(dst, src, n)`: each byte of the destination window receives the
      byte at the same offset in the source window as it was BEFORE the
      move, so overlapping windows behave as memmove promises. */
  function Move(m: Bytes, dst: u64, src: u64, n: nat): Bytes
  {
    map b: u64 | 0 <= b < TWO_64 && (b in m || Dist(dst, b) < n) ::
      if Dist(dst, b) < n then ByteAt(m, Add64(src, Dist(dst, b))) else m[b]
  }

  /** After a move, byte `k` of the destination window is byte `k` of the
      source window as it was before; every other byte is unchanged. */
  lemma MoveBytes(m: Bytes, dst: u64, src: u64, n: nat)
    ensures forall k :: 0 <= k < n && k < TWO_64 ==> ByteAt(Move(m, dst, src, n), Add64(dst, k)) == ByteAt(m, Add64(src, k))
    ensures forall b: u64 :: Dist(dst, b) >= n ==> ByteAt(Move(m, dst, src, n), b) == ByteAt(m, b)
  {
    forall k | 0 <= k < n && k < TWO_64
      ensures ByteAt(Move(m, dst, src, n), Add64(dst, k)) == ByteAt(m, Add64(src, k))
    {
      DistOfAdd(dst, k);
    }
  }

  /** The Go string whose data pointer is `p` and whose length is `len`. */
  function ReadString(m: Bytes, p: u64, len: u64): (s: string)
    ensures |s| == len
    ensures forall i :: 0 <= i < len ==> s[i] as int == ByteAt(m, Add64(p, i))
  {
    seq(len, i requires 0 <= i < len => ByteAt(m, Add64(p, i)) as char)
  }

  /** `m1` and `m2` hold the same bytes in the `n`-byte window at `a`. */
  ghost predicate Agree(m1: Bytes, m2: Bytes, a: u64, n: nat)
  {
    forall b: u64 :: Dist(a, b) < n ==> ByteAt(m1, b) == ByteAt(m2, b)
  }

  /** A store changes nothing outside its own window. */
  lemma {:induction false} StoreOutside(m: Bytes, a: u64, n: nat, v: nat, b: u64)
    requires Dist(a, b) >= n
    ensures ByteAt(Store(m, a, n, v), b) == ByteAt(m, b)
    decreases n
  {
    if n > 0 {
      assert b != a;
      DistStep(a, b);
      StoreOutside(m[a := v % 256], Add64(a, 1), n - 1, v / 256, b);
    }
  }

  /** A load sees only the bytes of its own window. */
  lemma {:induction false} LoadAgree(m1: Bytes, m2: Bytes, a: u64, n: nat)
    requires n < TWO_64
    requires Agree(m1, m2, a, n)
    ensures Load(m1, a, n) == Load(m2, a, n)
    decreases n
  {
    if n > 0 {
      assert Dist(a, a) == 0;
      forall b: u64 | Dist(Add64(a, 1), b) < n - 1
        ensures ByteAt(m1, b) == ByteAt(m2, b)
      {
        if b == a {
          DistOfAdd(a, 1);
          assert Dist(Add64(a, 1), a) == TWO_64 - 1;
        } else {
          DistStep(a, b);
        }
      }
      LoadAgree(m1, m2, Add64(a, 1), n - 1);
    }
  }

  /** Loading what was just stored gives the stored value back. */
  lemma {:induction false} LoadOfStore(m: Bytes, a: u64, n: nat, v: nat)
    requires n < TWO_64
    requires v < Pow256(n)
    ensures Load(Store(m, a, n, v), a, n) == v
    decreases n
  {
    if n > 0 {
      var m1 := m[a := v % 256];
      var a1 := Add64(a, 1);
      DistOfAdd(a, 1);
      assert Dist(a1, a) == TWO_64 - 1;
      StoreOutside(m1, a1, n - 1, v / 256, a);
      LoadOfStore(m1, a1, n - 1, v / 256);
    }
  }

  /** A store leaves a window that it does not overlap unchanged. */
  lemma StoreAgreeOutside(m: Bytes, a: u64, n: nat, v: nat, w: u64, k: nat)
    requires forall b: u64 :: Dist(w, b) < k ==> Dist(a, b) >= n
    ensures Agree(Store(m, a, n, v), m, w, k)
  {
    forall b: u64 | Dist(w, b) < k
      ensures ByteAt(Store(m, a, n, v), b) == ByteAt(m, b)
    {
      StoreOutside(m, a, n, v, b);
    }
  }

  lemma LoadStore64(m: Bytes, a: u64, v: u64)
    ensures Load64(Store64(m, a, v), a) == v
  {
    Pow256Sizes();
    LoadOfStore(m, a, 8, v);
  }

  /** The 32-bit word at `a` is its four bytes, least significant first. */
  lemma {:induction false} Load32Parts(m: Bytes, a: u64)
    ensures Load32(m, a) == ByteAt(m, a) + 256 * (ByteAt(m, Add64(a, 1)) +
      256 * (ByteAt(m, Add64(a, 2)) + 256 * ByteAt(m, Add64(a, 3))))
  {
    AddAdd(a, 1, 1);
    AddAdd(a, 2, 1);
    var b2: int, b3: int := ByteAt(m, Add64(a, 2)), ByteAt(m, Add64(a, 3));
    assert Load(m, Add64(a, 3), 1) == b3;
    assert Load(m, Add64(a, 2), 2) == b2 + 256 * b3;
  }

  /** One base-256 digit: `y` is `b` plus 256 times `q` exactly when `b` is
      its remainder and `q` its quotient. */
  lemma Digit(y: int, b: u8, q: int)
    ensures y == b + 256 * q <==> y % 256 == b && y / 256 == q
  {
  }

  /** Base-256 digits are unique. */
  lemma Digits(x: u32, b0: u8, b1: u8, b2: u8, b3: u8)
    ensures x == b0 + 256 * (b1 + 256 * (b2 + 256 * b3)) <==>
      b0 == x % 256 && b1 == x / 256 % 256 && b2 == x / 256 / 256 % 256 && b3 == x / 256 / 256 / 256
  {
    var q1, q2 := x / 256, x / 256 / 256;
    Digit(x, b0, b1 + 256 * (b2 + 256 * b3));
    Digit(q1, b1, b2 + 256 * b3);
    Digit(q2, b2, b3);
  }

  /** The 32-bit little-endian word at `a` is `x` exactly when its four bytes are
      those of `x`, least significant first. */
  lemma Load32Bytes(m: Bytes, a: u64, x: u32)
    ensures Load32(m, a) == x <==>
      ByteAt(m, a) == x % 256 &&
      ByteAt(m, Add64(a, 1)) == x / 256 % 256 &&
      ByteAt(m, Add64(a, 2)) == x / 256 / 256 % 256 &&
      ByteAt(m, Add64(a, 3)) == x / 256 / 256 / 256
  {
    Load32Parts(m, a);
    Digits(x, ByteAt(m, a), ByteAt(m, Add64(a, 1)), ByteAt(m, Add64(a, 2)), ByteAt(m, Add64(a, 3)));
  }
}
