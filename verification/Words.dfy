/** 64-bit words as the C code uses them: masks, single bits, bit reversal and array indices.

    The lemmas here are pure bit-vector facts, kept small so that each is decided on its own.
    A position in a word is named by the word with only that bit set (`One(p)`), so "below p" is `p - 1`. */
module Words {

  /** A low mask: some number of ones in the low positions, as `sizemask` is for a power-of-two table. */
  predicate Low(m: bv64) {
    m & (m + 1) == 0
  }

  /** Exactly one bit set. */
  predicate One(p: bv64) {
    p != 0 && p & (p - 1) == 0
  }

  /** The number a word stands for when it indexes an array. */
  function Index(x: bv64): nat
    decreases x
  {
    if x == 0 then 0 else 2 * Index(x >> 1) + if x & 1 == 0 then 0 else 1
  }

  lemma IndexUnfold(x: bv64)
    ensures Index(x) == 2 * Index(x >> 1) + if x & 1 == 0 then 0 else 1
  {
  }

  lemma {:induction false} IndexPositive(x: bv64)
    requires x != 0
    ensures Index(x) > 0
    decreases x
  {
    if x & 1 == 0 {
      IndexPositive(x >> 1);
    }
  }

  lemma WithinHalf(y: bv64, m: bv64)
    requires y & !m == 0
    ensures (y >> 1) & !(m >> 1) == 0
    ensures y & 1 == 0 || m & 1 != 0
    ensures m == 0 ==> y == 0
  {
  }

  /** Bits within a mask give an index no larger than the mask. */
  lemma {:induction false} IndexWithin(y: bv64, m: bv64)
    requires y & !m == 0
    ensures Index(y) <= Index(m)
    decreases Index(m)
  {
    WithinHalf(y, m);
    if m != 0 {
      IndexPositive(m);
      IndexUnfold(y);
      IndexUnfold(m);
      IndexWithin(y >> 1, m >> 1);
    }
  }

  lemma IndexMasked(x: bv64, m: bv64)
    ensures Index(x & m) <= Index(m)
  {
    assert (x & m) & !m == 0;
    IndexWithin(x & m, m);
  }

  lemma IncrementHalves(x: bv64)
    requires x != 0xFFFF_FFFF_FFFF_FFFF
    ensures x & 1 == 0 ==> (x + 1) >> 1 == x >> 1 && (x + 1) & 1 != 0
    ensures x & 1 != 0 ==> (x + 1) >> 1 == (x >> 1) + 1 && (x + 1) & 1 == 0
    ensures x >> 1 != 0xFFFF_FFFF_FFFF_FFFF
  {
  }

  lemma {:induction false} IndexIncrement(x: bv64)
    requires x != 0xFFFF_FFFF_FFFF_FFFF
    ensures Index(x + 1) == Index(x) + 1
    decreases Index(x)
  {
    IncrementHalves(x);
    IndexUnfold(x);
    IndexUnfold(x + 1);
    if x & 1 != 0 {
      IndexIncrement(x >> 1);
    }
  }

  /** `w` is made of the disjoint words `x` and `y`. */
  predicate Joins(w: bv64, x: bv64, y: bv64) {
    x & y == 0 && w == x | y
  }

  lemma JoinHalves(w: bv64, x: bv64, y: bv64)
    requires Joins(w, x, y)
    ensures Joins(w >> 1, x >> 1, y >> 1)
  {
  }

  lemma JoinLowBits(w: bv64, x: bv64, y: bv64)
    requires Joins(w, x, y)
    ensures w & 1 == 0 <==> x & 1 == 0 && y & 1 == 0
    ensures x & 1 == 0 || y & 1 == 0
    ensures x == 0 ==> w == y
  {
  }

  /** A word joined from two disjoint ones counts as much as both. */
  lemma {:induction false} IndexJoin(w: bv64, x: bv64, y: bv64)
    requires Joins(w, x, y)
    ensures Index(w) == Index(x) + Index(y)
    decreases Index(x)
  {
    hide Joins;
    JoinLowBits(w, x, y);
    if x != 0 {
      JoinHalves(w, x, y);
      IndexPositive(x);
      IndexUnfold(x);
      IndexUnfold(y);
      IndexUnfold(w);
      IndexJoin(w >> 1, x >> 1, y >> 1);
    }
  }

  lemma MaskHalves(x: bv64, m: bv64)
    requires Low(m) && m != 0
    ensures Low(m >> 1) && m & 1 != 0
    ensures (x & m) >> 1 == (x >> 1) & (m >> 1)
    ensures (x & m) & 1 == x & 1
  {
  }

  lemma DoubleMod(a: nat, b: nat, n: nat)
    requires b <= 1 && n > 0
    ensures (2 * a + b) % (2 * n) == 2 * (a % n) + b
  {
    var q, r := a / n, a % n;
    assert 2 * a + b == (2 * n) * q + (2 * r + b);
    assert 0 <= 2 * r + b < 2 * n;
    ModUnique(2 * a + b, 2 * n, q, 2 * r + b);
  }

  lemma {:induction false} MulAtLeast(n: nat, d: nat)
    requires d > 0
    ensures n * d >= n
  {
    if d > 1 {
      MulAtLeast(n, d - 1);
      assert n * d == n * (d - 1) + n;
    }
  }

  lemma MulMono(n: nat, a: int, b: int)
    requires a + 1 <= b
    ensures n * a + n <= n * b
  {
    MulAtLeast(n, b - a);
    assert n * b == n * a + n * (b - a);
  }

  lemma ModUnique(x: int, n: int, q: int, r: int)
    requires n > 0 && x == n * q + r && 0 <= r < n
    ensures x % n == r && x / n == q
  {
    var k := x / n;
    assert x == n * k + x % n && 0 <= x % n < n;
    if k < q {
      MulMono(n, k, q);
    } else if q < k {
      MulMono(n, q, k);
    }
  }

  /** Masking with a power-of-two mask is taking the remainder by the table size. */
  lemma {:induction false} IndexMod(x: bv64, m: bv64)
    requires Low(m)
    ensures Index(x & m) == Index(x) % (Index(m) + 1)
    decreases Index(m)
  {
    hide Low;
    if m == 0 {
      assert x & m == 0;
    } else {
      MaskHalves(x, m);
      IndexPositive(m);
      IndexUnfold(m);
      IndexUnfold(x);
      IndexUnfold(x & m);
      IndexMod(x >> 1, m >> 1);
      DoubleMod(Index(x >> 1), Index(x) - 2 * Index(x >> 1), Index(m >> 1) + 1);
    }
  }

  /** The bucket that `v` selects in a table with mask `m`. */
  function Bucket(v: bv64, m: bv64): (b: nat)
    ensures b <= Index(m)
  {
    IndexMasked(v, m);
    Index(v & m)
  }

  lemma BucketIs(v: bv64, m: bv64)
    ensures Bucket(v, m) == Index(v & m)
  {
  }

  lemma BucketBound(v: bv64, m: bv64)
    ensures Bucket(v, m) <= Index(m)
  {
  }

  /** Doubling a table of size `m + 1`. */
  lemma MaskDoubles(m: bv64)
    requires Low(m) && m < 0x8000_0000_0000_0000
    ensures Low((m << 1) | 1)
    ensures Index((m << 1) | 1) == 2 * Index(m) + 1
  {
    assert ((m << 1) | 1) >> 1 == m;
  }

  /** The six passes of `rev`, each swapping neighbouring groups of bits half the width of the last. */
  function Rev(v: bv64): bv64 {
    var v := ((v >> 32) & 0x0000_0000_FFFF_FFFF) | ((v << 32) & !0x0000_0000_FFFF_FFFF);
    var v := ((v >> 16) & 0x0000_FFFF_0000_FFFF) | ((v << 16) & !0x0000_FFFF_0000_FFFF);
    var v := ((v >> 8) & 0x00FF_00FF_00FF_00FF) | ((v << 8) & !0x00FF_00FF_00FF_00FF);
    var v := ((v >> 4) & 0x0F0F_0F0F_0F0F_0F0F) | ((v << 4) & !0x0F0F_0F0F_0F0F_0F0F);
    var v := ((v >> 2) & 0x3333_3333_3333_3333) | ((v << 2) & !0x3333_3333_3333_3333);
    ((v >> 1) & 0x5555_5555_5555_5555) | ((v << 1) & !0x5555_5555_5555_5555)
  }

  /** Shift and mask of the `k`-th pass; the mask before the first pass is all ones. */
  function PassShift(k: nat): (s: bv64)
    ensures s < 64
  {
    if k == 1 then 32 else if k == 2 then 16 else if k == 3 then 8
    else if k == 4 then 4 else if k == 5 then 2 else if k == 6 then 1 else 0
  }

  function PassMask(k: nat): bv64 {
    if k == 0 then 0xFFFF_FFFF_FFFF_FFFF
    else if k == 1 then 0x0000_0000_FFFF_FFFF else if k == 2 then 0x0000_FFFF_0000_FFFF
    else if k == 3 then 0x00FF_00FF_00FF_00FF else if k == 4 then 0x0F0F_0F0F_0F0F_0F0F
    else if k == 5 then 0x3333_3333_3333_3333 else 0x5555_5555_5555_5555
  }

  function SwapGroups(v: bv64, s: bv64, mask: bv64): bv64
    requires s < 64
  {
    ((v >> s) & mask) | ((v << s) & !mask)
  }

  /** The word after the first `k` passes. */
  function RevPasses(v: bv64, k: nat): bv64 {
    if k == 0 then v else SwapGroups(RevPasses(v, k - 1), PassShift(k), PassMask(k))
  }

  /** What one pass of the loop does to its shift, mask and word. */
  lemma PassStep(v0: bv64, k: nat, s: bv64, mask: bv64, v: bv64)
    requires k < 6 && s == PassShift(k + 1) && mask == PassMask(k) && v == RevPasses(v0, k)
    ensures s < 64
    ensures s >> 1 == PassShift(k + 2)
    ensures mask ^ (mask << s) == PassMask(k + 1)
    ensures SwapGroups(v, s, PassMask(k + 1)) == RevPasses(v0, k + 1)
  {
    hide SwapGroups;
  }

  lemma PassEnds(k: nat)
    requires k <= 6
    ensures PassShift(k + 1) == 0 <==> k == 6
  {
  }

  lemma PassStart(v: bv64)
    ensures PassShift(1) == 64 >> 1 && PassMask(0) == 0xFFFF_FFFF_FFFF_FFFF && RevPasses(v, 0) == v
  {
  }

  lemma ThreePasses(v: bv64)
    ensures RevPasses(v, 3)
         == SwapGroups(SwapGroups(SwapGroups(v, 32, 0x0000_0000_FFFF_FFFF), 16, 0x0000_FFFF_0000_FFFF), 8, 0x00FF_00FF_00FF_00FF)
  {
    var v1 := RevPasses(v, 1);
    assert v1 == SwapGroups(v, 32, PassMask(1)) by { assert RevPasses(v, 0) == v; }
    var v2 := RevPasses(v, 2);
    assert v2 == SwapGroups(v1, 16, PassMask(2));
  }

  lemma LastThreePasses(v: bv64)
    ensures RevPasses(v, 6)
         == SwapGroups(SwapGroups(SwapGroups(RevPasses(v, 3), 4, 0x0F0F_0F0F_0F0F_0F0F), 2, 0x3333_3333_3333_3333), 1, 0x5555_5555_5555_5555)
  {
    var v4 := RevPasses(v, 4);
    assert v4 == SwapGroups(RevPasses(v, 3), 4, PassMask(4));
    var v5 := RevPasses(v, 5);
    assert v5 == SwapGroups(v4, 2, PassMask(5));
  }

  /** The loop's passes are `Rev`. */
  lemma SixPasses(v: bv64)
    ensures RevPasses(v, 6) == Rev(v)
  {
    hide RevPasses;
    ThreePasses(v);
    LastThreePasses(v);
  }

  /** `rev` of dict.c: the loop halves the shift and derives each mask from the last. */
  method ReverseBits(v0: bv64) returns (v: bv64)
    ensures v == Rev(v0)
  {
    v := v0;
    var s: bv64 := 64;
    var mask: bv64 := 0xFFFF_FFFF_FFFF_FFFF;
    ghost var k := 0;
    hide *;
    PassStart(v0);
    s := s >> 1;
    while s != 0
      invariant k <= 6
      invariant s == PassShift(k + 1)
      invariant mask == PassMask(k)
      invariant v == RevPasses(v0, k)
      decreases 6 - k
    {
      PassEnds(k);
      PassStep(v0, k, s, mask, v);
      mask := mask ^ (mask << s);
      v := SwapGroups(v, s, mask);
      s := s >> 1;
      k := k + 1;
    }
    PassEnds(k);
    SixPasses(v0);
  }

  /** `rev` puts bit `i` at position `63 - i`. */
  lemma RevReversesBits(v: bv64, i: bv64)
    requires i < 64
    ensures (Rev(v) >> (63 - i)) & 1 == (v >> i) & 1
  {
  }

  lemma RevInvolutive(v: bv64)
    ensures Rev(Rev(v)) == v
  {
  }

  // ---- Powers of two and their masks ----

  function Pow2(n: nat): (r: nat)
    ensures r > 0
  {
    if n == 0 then 1 else 2 * Pow2(n - 1)
  }

  function Grow(m: bv64): bv64 {
    (m << 1) | 1
  }

  /** The mask with the `n` low bits set. */
  function LowBits(n: nat): bv64 {
    if n == 0 then 0 else Grow(LowBits(n - 1))
  }

  function Grow8(m: bv64): bv64 {
    Grow(Grow(Grow(Grow(Grow(Grow(Grow(Grow(m))))))))
  }

  lemma Grow8Shifts(m: bv64)
    ensures Grow8(m) == (m << 8) | 0xFF
  {
  }

  lemma LowBitsStep(n: nat)
    ensures LowBits(n + 1) == Grow(LowBits(n))
  {
  }

  lemma LowBitsBy8(n: nat)
    ensures LowBits(n + 8) == Grow8(LowBits(n))
  {
    hide LowBits;
    hide Grow;
    LowBitsStep(n);
    LowBitsStep(n + 1);
    LowBitsStep(n + 2);
    LowBitsStep(n + 3);
    LowBitsStep(n + 4);
    LowBitsStep(n + 5);
    LowBitsStep(n + 6);
    LowBitsStep(n + 7);
  }

  lemma LowBits7()
    ensures LowBits(7) == 0x7F
  {
  }

  lemma LowBits0()
    ensures LowBits(0) == 0
  {
  }

  lemma LowBits32()
    ensures LowBits(32) == 0xFFFF_FFFF
  {
    hide *;
    LowBits0();
    LowBitsBy8(0);
    Grow8Shifts(LowBits(0));
    LowBitsBy8(8);
    Grow8Shifts(LowBits(8));
    LowBitsBy8(16);
    Grow8Shifts(LowBits(16));
    LowBitsBy8(24);
    Grow8Shifts(LowBits(24));
  }

  lemma LowBits63()
    ensures LowBits(63) == 0x7FFF_FFFF_FFFF_FFFF
  {
    hide *;
    LowBits7();
    LowBitsBy8(7);
    Grow8Shifts(LowBits(7));
    LowBitsBy8(15);
    Grow8Shifts(LowBits(15));
    LowBitsBy8(23);
    Grow8Shifts(LowBits(23));
    LowBitsBy8(31);
    Grow8Shifts(LowBits(31));
    LowBitsBy8(39);
    Grow8Shifts(LowBits(39));
    LowBitsBy8(47);
    Grow8Shifts(LowBits(47));
    LowBitsBy8(55);
    Grow8Shifts(LowBits(55));
  }

  lemma ShiftKeepsWithin(m: bv64)
    requires m & !((m << 1) | 1) == 0
    ensures ((m << 1) | 1) & !((((m << 1) | 1) << 1) | 1) == 0
  {
  }

  lemma {:induction false} LowBitsGrow(n: nat)
    ensures LowBits(n) & !LowBits(n + 1) == 0
  {
    if n > 0 {
      LowBitsGrow(n - 1);
      ShiftKeepsWithin(LowBits(n - 1));
    }
  }

  lemma WithinTransitive(a: bv64, b: bv64, c: bv64)
    requires a & !b == 0 && b & !c == 0
    ensures a & !c == 0
  {
  }

  lemma {:induction false} LowBitsWithin(n: nat, k: nat)
    requires n <= k
    ensures LowBits(n) & !LowBits(k) == 0
    decreases k - n
  {
    if n < k {
      LowBitsGrow(n);
      LowBitsWithin(n + 1, k);
      hide *;
      WithinTransitive(LowBits(n), LowBits(n + 1), LowBits(k));
    }
  }

  lemma TopBitClear(m: bv64)
    requires m & !0x7FFF_FFFF_FFFF_FFFF == 0
    ensures m < 0x8000_0000_0000_0000
  {
  }

  lemma LowBitsBelowTop(n: nat)
    requires n < 63
    ensures LowBits(n) < 0x8000_0000_0000_0000
  {
    hide *;
    LowBits63();
    LowBitsWithin(n, 63);
    TopBitClear(LowBits(n));
  }

  /** The mask of a power-of-two table of up to 2^63 buckets. */
  lemma {:induction false} LowBitsMask(n: nat)
    requires n <= 63
    ensures Low(LowBits(n)) && Index(LowBits(n)) + 1 == Pow2(n)
  {
    if n > 0 {
      LowBitsMask(n - 1);
      LowBitsBelowTop(n - 1);
      hide Low;
      hide Index;
      MaskDoubles(LowBits(n - 1));
    }
  }
}
