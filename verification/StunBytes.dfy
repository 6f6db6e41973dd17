/** Network byte order, padding and masking, as src/stun.c lays them out on the wire. */
module StunBytes {
  import opened Addr

  type Bytes = seq<byte>
  type uint32 = x: int | 0 <= x < 0x1_0000_0000
  type uint64 = x: int | 0 <= x < 0x1_0000_0000_0000_0000

  function U16(n: uint16): (b: Bytes)
    ensures |b| == 2
  {
    [n / 0x100, n % 0x100]
  }

  function FromU16(b: Bytes): uint16
    requires |b| >= 2
  {
    (b[0] as int) * 0x100 + b[1] as int
  }

  function U32(n: uint32): (b: Bytes)
    ensures |b| == 4
  {
    U16(n / 0x1_0000) + U16(n % 0x1_0000)
  }

  function FromU32(b: Bytes): uint32
    requires |b| >= 4
  {
    FromU16(b) * 0x1_0000 + FromU16(b[2..])
  }

  function U64(n: uint64): (b: Bytes)
    ensures |b| == 8
  {
    U32(n / 0x1_0000_0000) + U32(n % 0x1_0000_0000)
  }

  function FromU64(b: Bytes): uint64
    requires |b| >= 8
  {
    FromU32(b) * 0x1_0000_0000 + FromU32(b[4..])
  }

  lemma U16Back(n: uint16)
    ensures FromU16(U16(n)) == n
  {
  }

  lemma U32Back(n: uint32)
    ensures FromU32(U32(n)) == n
  {
    assert U32(n)[2..] == U16(n % 0x1_0000);
  }

  lemma U64Back(n: uint64)
    ensures FromU64(U64(n)) == n
  {
    var b := U64(n);
    U32Back(n / 0x1_0000_0000);
    U32Back(n % 0x1_0000_0000);
    assert b[4..] == U32(n % 0x1_0000_0000);
    assert b[..4] == U32(n / 0x1_0000_0000);
    FromU32Prefix(b);
  }

  lemma FromU32Prefix(b: Bytes)
    requires |b| >= 4
    ensures FromU32(b) == FromU32(b[..4])
  {
    assert b[2..][0] == b[..4][2..][0] && b[2..][1] == b[..4][2..][1];
  }

  /** The next multiple of four. */
  function Align(n: nat): (r: nat)
    ensures n <= r < n + 4 && r % 4 == 0
  {
    (n + 3) / 4 * 4
  }

  function Zeros(n: nat): (b: Bytes)
    ensures |b| == n
  {
    seq(n, _ => 0)
  }

  // ---------- exclusive or ----------

  function Pow2(n: nat): (r: nat)
    ensures r > 0
  {
    if n == 0 then 1 else 2 * Pow2(n - 1)
  }

  /** Exclusive or of the low n bits. */
  function XorBits(n: nat, a: nat, b: nat): (r: nat)
    ensures r < Pow2(n)
  {
    if n == 0 then 0
    else (if a % 2 == b % 2 then 0 else 1) + 2 * XorBits(n - 1, a / 2, b / 2)
  }

  lemma {:induction false} XorBack(n: nat, a: nat, b: nat)
    requires a < Pow2(n)
    ensures XorBits(n, XorBits(n, a, b), b) == a
  {
    if n > 0 {
      XorBack(n - 1, a / 2, b / 2);
      assert XorBits(n, a, b) / 2 == XorBits(n - 1, a / 2, b / 2);
    }
  }

  lemma Pow2Values()
    ensures Pow2(8) == 0x100
    ensures Pow2(32) == 0x1_0000_0000
  {
    assert Pow2(4) == 16;
    assert Pow2(8) == 0x100;
    assert Pow2(12) == 0x1000;
    assert Pow2(16) == 0x1_0000;
    assert Pow2(20) == 0x10_0000;
    assert Pow2(24) == 0x100_0000;
    assert Pow2(28) == 0x1000_0000;
  }

  function Xor8(a: byte, b: byte): byte {
    Pow2Values();
    XorBits(8, a, b)
  }

  function Xor32(a: uint32, b: uint32): uint32 {
    Pow2Values();
    XorBits(32, a, b)
  }

  /** Byte by byte with the start of the mask. */
  function Masked(b: Bytes, mask: Bytes): (r: Bytes)
    requires |b| <= |mask|
    ensures |r| == |b|
  {
    seq(|b|, i requires 0 <= i < |b| => Xor8(b[i], mask[i]))
  }

  lemma MaskedBack(b: Bytes, mask: Bytes)
    requires |b| <= |mask|
    ensures Masked(Masked(b, mask), mask) == b
  {
    forall i | 0 <= i < |b| ensures Xor8(Xor8(b[i], mask[i]), mask[i]) == b[i] {
      Pow2Values();
      XorBack(8, b[i], mask[i]);
    }
  }
}
