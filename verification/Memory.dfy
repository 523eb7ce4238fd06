// The target's memory: the bytes at its mapped addresses.
module Memory {
  import opened Int64

  type Mem = map<nat, byte>

  predicate Mapped(m: Mem, a: nat, n: nat) {
    forall x :: a <= x < a + n ==> x in m
  }

  function Load(m: Mem, a: nat, n: nat): (b: seq<byte>)
    requires Mapped(m, a, n)
    ensures |b| == n && forall k :: 0 <= k < n ==> b[k] == m[a + k]
  {
    seq(n, k requires 0 <= k < n => m[a + k])
  }

  /** The byte that b, put at a, has at address x. */
  function At(b: seq<byte>, a: nat, x: nat): byte
    requires a <= x < a + |b|
  {
    b[x - a]
  }

  function Store(m: Mem, a: nat, b: seq<byte>): (r: Mem)
    ensures forall x :: x in r <==> x in m || a <= x < a + |b|
    ensures forall x :: x in r ==> r[x] == if a <= x < a + |b| then b[x - a] else m[x]
  {
    m + (map x | a <= x < a + |b| :: At(b, a, x))
  }

  function Read64(m: Mem, a: nat): (v: nat)
    requires Mapped(m, a, 8)
    ensures v < TWO64
  {
    FromBytesBound(Load(m, a, 8));
    Pow256Values();
    FromBytes(Load(m, a, 8))
  }

  /** Stored in two pieces or in one. */
  lemma StoreAppend(m: Mem, a: nat, b: seq<byte>, c: seq<byte>)
    ensures Store(Store(m, a, b), a + |b|, c) == Store(m, a, b + c)
  {}

  lemma MappedBehind(m: Mem, a: nat, b: seq<byte>, n: nat)
    ensures Mapped(Store(m, a, b), a + |b|, n) <==> Mapped(m, a + |b|, n)
    ensures Mapped(m, a, |b|) && Mapped(m, a + |b|, n) <==> Mapped(m, a, |b| + n)
  {
    assert Mapped(Store(m, a, b), a + |b|, n) ==> forall x :: a + |b| <= x < a + |b| + n ==> x in Store(m, a, b);
  }

  lemma StoreNothing(m: Mem, a: nat)
    ensures Store(m, a, []) == m
  {}

  lemma StoreLoad(m: Mem, a: nat, b: seq<byte>)
    ensures Mapped(Store(m, a, b), a, |b|) && Load(Store(m, a, b), a, |b|) == b
  {}

  lemma LoadElsewhere(m: Mem, a: nat, b: seq<byte>, x: nat, n: nat)
    requires Mapped(m, x, n) && (x + n <= a || a + |b| <= x)
    ensures Mapped(Store(m, a, b), x, n) && Load(Store(m, a, b), x, n) == Load(m, x, n)
  {}

  lemma LoadSame(m: Mem, r: Mem, a: nat, n: nat)
    requires Mapped(m, a, n) && Mapped(r, a, n)
    requires forall x :: a <= x < a + n ==> m[x] == r[x]
    ensures Load(m, a, n) == Load(r, a, n)
  {}

  lemma Read64Stored(m: Mem, a: nat, v: nat)
    requires v < TWO64
    ensures Mapped(Store(m, a, LittleEndian(v, 8)), a, 8)
    ensures Read64(Store(m, a, LittleEndian(v, 8)), a) == v
  {
    Pow256Values();
    StoreLoad(m, a, LittleEndian(v, 8));
    ReadBack(v, 8);
  }
}
