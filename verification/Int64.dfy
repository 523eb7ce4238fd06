// Fixed-width integers, bit sets and little-endian bytes.
module Int64 {
  const TWO31: int := 0x8000_0000
  const TWO32: int := 0x1_0000_0000
  const TWO63: int := 0x8000_0000_0000_0000
  const TWO64: int := 0x1_0000_0000_0000_0000

  predicate InInt64(x: int) { -TWO63 <= x < TWO63 }

  /** Two's complement wrap-around of a signed 64-bit result. */
  function Wrap64(x: int): (r: int)
    ensures InInt64(r) && (x - r) % TWO64 == 0
    ensures InInt64(x) <==> r == x
  {
    (x + TWO63) % TWO64 - TWO63
  }

  /** The bits of a signed value read as unsigned, and back. */
  function ToUint64(x: int): (r: nat)
    requires InInt64(x)
    ensures r < TWO64 && (r - x) % TWO64 == 0
  {
    if x < 0 then x + TWO64 else x
  }

  function FromUint64(u: nat): (r: int)
    requires u < TWO64
    ensures InInt64(r) && ToUint64(r) == u
  {
    if u < TWO63 then u else u - TWO64
  }

  // ---------------------------------------------------------------- bits

  function Pow2(k: nat): (r: nat)
    ensures r > 0
  {
    if k == 0 then 1 else 2 * Pow2(k - 1)
  }

  predicate Bit(m: nat, k: nat) {
    if k == 0 then m % 2 == 1 else Bit(m / 2, k - 1)
  }

  function Or(a: nat, b: nat): nat {
    if a == 0 then b else if b == 0 then a
    else 2 * Or(a / 2, b / 2) + (if a % 2 == 1 || b % 2 == 1 then 1 else 0)
  }

  function And(a: nat, b: nat): nat {
    if a == 0 || b == 0 then 0
    else 2 * And(a / 2, b / 2) + (if a % 2 == 1 && b % 2 == 1 then 1 else 0)
  }

  lemma {:induction false} NoBits(k: nat)
    ensures !Bit(0, k)
  {
    if k > 0 { NoBits(k - 1); }
  }

  lemma {:induction false} BitOr(a: nat, b: nat, k: nat)
    ensures Bit(Or(a, b), k) <==> Bit(a, k) || Bit(b, k)
    decreases k
  {
    NoBits(k);
    if a != 0 && b != 0 && k > 0 { BitOr(a / 2, b / 2, k - 1); }
  }

  lemma {:induction false} BitPow2(j: nat, k: nat)
    ensures Bit(Pow2(j), k) <==> j == k
  {
    if k > 0 {
      if j > 0 { BitPow2(j - 1, k - 1); } else { NoBits(k - 1); }
    }
  }

  /** Testing a mask against one bit. */
  lemma {:induction false} AndPow2(k: nat, m: nat)
    ensures And(Pow2(k), m) != 0 <==> Bit(m, k)
  {
    if m == 0 { NoBits(k); }
    else if k > 0 { AndPow2(k - 1, m / 2); }
    else { assert And(0, m / 2) == 0; }
  }

  lemma {:induction false} OrBelow(a: nat, b: nat, n: nat)
    requires a < Pow2(n) && b < Pow2(n)
    ensures Or(a, b) < Pow2(n)
  {
    if a != 0 && b != 0 { OrBelow(a / 2, b / 2, n - 1); }
  }

  // ---------------------------------------------------------------- bytes

  type byte = x: int | 0 <= x < 256

  /** The n low bytes of v, least significant first. */
  function LittleEndian(v: nat, n: nat): (r: seq<byte>)
    ensures |r| == n
  {
    if n == 0 then [] else [v % 256] + LittleEndian(v / 256, n - 1)
  }

  function FromBytes(b: seq<byte>): nat {
    if b == [] then 0 else b[0] + 256 * FromBytes(b[1..])
  }

  function Pow256(n: nat): (r: nat)
    ensures r > 0
  {
    if n == 0 then 1 else 256 * Pow256(n - 1)
  }

  lemma {:induction false} FromBytesBound(b: seq<byte>)
    ensures FromBytes(b) < Pow256(|b|)
  {
    if b != [] { FromBytesBound(b[1..]); }
  }

  /** Reading back what PutUint32 or PutUint64 wrote. */
  lemma {:induction false} ReadBack(v: nat, n: nat)
    requires v < Pow256(n)
    ensures FromBytes(LittleEndian(v, n)) == v
  {
    if n > 0 {
      ReadBack(v / 256, n - 1);
      assert LittleEndian(v, n)[1..] == LittleEndian(v / 256, n - 1);
    }
  }

  lemma DivMod256(b: byte, r: nat)
    ensures (b + 256 * r) % 256 == b && (b + 256 * r) / 256 == r
  {}

  /** Writing back what Uint32 or Uint64 read. */
  lemma {:induction false} WriteBack(b: seq<byte>)
    ensures LittleEndian(FromBytes(b), |b|) == b
  {
    if b != [] {
      WriteBack(b[1..]);
      DivMod256(b[0], FromBytes(b[1..]));
    }
  }

  lemma Pow256Values()
    ensures Pow256(4) == TWO32 && Pow256(8) == TWO64
  {
    assert Pow256(2) == 0x1_0000;
    assert Pow256(4) == 256 * (256 * Pow256(2));
    assert Pow256(6) == 256 * (256 * Pow256(4));
    assert Pow256(8) == 256 * (256 * Pow256(6));
  }
}
