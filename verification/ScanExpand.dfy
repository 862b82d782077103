/** The inner loop `dictScan` runs while a rehash is on (dict.c:908-922): for one bucket of the
    smaller table it visits the buckets of the larger table that share its low bits, in numeric
    order from the cursor's own. */
module ScanExpand {
  import opened Words
  import opened ScanOrder

  function Filled(v: bv64, m: bv64): bv64 {
    v | m
  }

  /** `x` outside the mask, `v` inside it. */
  function Blend(x: bv64, v: bv64, m: bv64): bv64 {
    (x & !m) | (v & m)
  }

  /** Increment the bits of `v` that the smaller mask does not cover (dict.c:919). */
  function ExpandNext(v: bv64, m0: bv64): bv64 {
    Blend(Filled(v, m0) + 1, v, m0)
  }

  /** The mask of the smaller table and that of the larger one. */
  predicate Masks(m0: bv64, m1: bv64) {
    Low(m0) && Low(m1) && m0 & m1 == m0
  }

  /** The loop's test: bits covered by the mask difference are zero (dict.c:922). */
  predicate Stops(v: bv64, m0: bv64, m1: bv64) {
    v & (m0 ^ m1) == 0
  }

  // ---- One turn of the loop adds the size of the smaller table ----

  lemma SplitByMask(v: bv64, m: bv64)
    ensures Joins(v, v & m, v & !m)
  {
  }

  lemma FillMask(v: bv64, m: bv64)
    ensures Joins(Filled(v, m), v & !m, m)
  {
  }

  lemma FilledCarry(v: bv64, m: bv64)
    requires Low(m)
    ensures (Filled(v, m) + 1) & m == 0
  {
  }

  lemma RejoinCarry(x: bv64, v: bv64, m0: bv64)
    requires x & m0 == 0
    ensures Joins(Blend(x, v, m0), x, v & m0)
  {
    BlendOutside(x, v, m0);
    BlendApart(x, v, m0);
    hide Blend;
  }

  lemma BlendOutside(x: bv64, v: bv64, m: bv64)
    requires x & m == 0
    ensures Blend(x, v, m) == x | (v & m)
  {
  }

  lemma BlendApart(x: bv64, v: bv64, m: bv64)
    requires x & m == 0
    ensures x & (v & m) == 0
  {
  }

  lemma ExpandForm(v: bv64, m0: bv64)
    requires Low(m0)
    ensures Joins(ExpandNext(v, m0), Filled(v, m0) + 1, v & m0)
  {
    hide Low;
    hide Joins;
    hide Filled;
    hide Blend;
    FilledCarry(v, m0);
    RejoinCarry(Filled(v, m0) + 1, v, m0);
  }

  /** Away from overflow, the expanded word is the cursor plus the size of the smaller table. */
  lemma ExpandAdds(v: bv64, m0: bv64)
    requires Low(m0) && Filled(v, m0) != 0xFFFF_FFFF_FFFF_FFFF
    ensures Index(ExpandNext(v, m0)) == Index(v) + Index(m0) + 1
  {
    hide *;
    SplitByMask(v, m0);
    IndexJoin(v, v & m0, v & !m0);
    FillMask(v, m0);
    IndexJoin(Filled(v, m0), v & !m0, m0);
    IndexIncrement(Filled(v, m0));
    ExpandForm(v, m0);
    IndexJoin(ExpandNext(v, m0), Filled(v, m0) + 1, v & m0);
  }

  // ---- What the loop visits, in numbers ----

  lemma MaskOfMask(v: bv64, m0: bv64, m1: bv64)
    requires Masks(m0, m1)
    ensures (v & m1) & m0 == v & m0
  {
  }

  /** The smaller table's bucket is the larger one's, modulo the smaller size. */
  lemma BucketMod(v: bv64, m0: bv64, m1: bv64)
    requires Masks(m0, m1)
    ensures Bucket(v, m0) == Bucket(v, m1) % (Index(m0) + 1)
  {
    assert Low(m0);
    hide *;
    MaskOfMask(v, m0, m1);
    IndexMod(v & m1, m0);
    BucketIs(v, m0);
    BucketIs(v, m1);
  }

  /** Bits that `v` has in the larger mask but not in the smaller one. */
  function Extra(v: bv64, m0: bv64, m1: bv64): bv64 {
    v & (m1 & !m0)
  }

  lemma ExtraDisjoint(v: bv64, m0: bv64, m1: bv64)
    ensures (v & m0) & Extra(v, m0, m1) == 0
  {
  }

  lemma ExtraCompletes(v: bv64, m0: bv64, m1: bv64)
    requires m0 & m1 == m0
    ensures v & m1 == (v & m0) | (v & (m1 & !m0))
  {
  }

  lemma ExtraJoins(v: bv64, m0: bv64, m1: bv64)
    requires m0 & m1 == m0
    ensures Joins(v & m1, v & m0, Extra(v, m0, m1))
  {
    ExtraDisjoint(v, m0, m1);
    ExtraCompletes(v, m0, m1);
  }

  lemma BucketSplit(v: bv64, m0: bv64, m1: bv64)
    requires Masks(m0, m1)
    ensures Bucket(v, m1) == Bucket(v, m0) + Index(Extra(v, m0, m1))
  {
    assert m0 & m1 == m0;
    hide *;
    ExtraJoins(v, m0, m1);
    IndexJoin(v & m1, v & m0, Extra(v, m0, m1));
    BucketIs(v, m0);
    BucketIs(v, m1);
  }

  lemma StopsIsNoExtra(v: bv64, m0: bv64, m1: bv64)
    requires m0 & m1 == m0
    ensures Stops(v, m0, m1) <==> Extra(v, m0, m1) == 0
  {
  }

  lemma ZeroByIndex(x: bv64)
    ensures x == 0 <==> Index(x) == 0
  {
    if x != 0 {
      IndexPositive(x);
    }
  }

  /** The loop stops when the larger table's bucket is back in the first smaller table's worth. */
  lemma StopsExactly(v: bv64, m0: bv64, m1: bv64)
    requires Masks(m0, m1)
    ensures Stops(v, m0, m1) <==> Bucket(v, m1) < Index(m0) + 1
  {
    hide *;
    BucketSplit(v, m0, m1);
    MasksNested(m0, m1);
    StopsIsNoExtra(v, m0, m1);
    ZeroByIndex(Extra(v, m0, m1));
    BucketMod(v, m0, m1);
    BucketBound(v, m0);
    if Bucket(v, m1) < Index(m0) + 1 {
      SmallMod(Bucket(v, m1), Index(m0) + 1);
    }
  }

  lemma SmallMod(a: nat, n: nat)
    requires a < n
    ensures a % n == a
  {
  }

  lemma CoversDifference(v: bv64, m0: bv64, m1: bv64)
    requires v | m0 == 0xFFFF_FFFF_FFFF_FFFF
    ensures v & (m1 & !m0) == m1 & !m0
  {
  }

  lemma WholeDifference(m0: bv64, m1: bv64)
    ensures m1 & (m1 & !m0) == m1 & !m0
  {
  }

  lemma AllOnesExtra(v: bv64, m0: bv64, m1: bv64)
    requires Filled(v, m0) == 0xFFFF_FFFF_FFFF_FFFF && m0 & m1 == m0
    ensures Extra(v, m0, m1) == Extra(m1, m0, m1)
  {
    CoversDifference(v, m0, m1);
    WholeDifference(m0, m1);
  }

  lemma AllOnesNext(v: bv64, m0: bv64, m1: bv64)
    requires Filled(v, m0) == 0xFFFF_FFFF_FFFF_FFFF && m0 & m1 == m0
    ensures ExpandNext(v, m0) & m1 == v & m0
  {
    assert Filled(v, m0) + 1 == 0;
  }

  lemma WholeMask(m0: bv64, m1: bv64)
    requires m0 & m1 == m0
    ensures m1 & m1 == m1 && m1 & m0 == m0
  {
  }

  lemma MasksNested(m0: bv64, m1: bv64)
    requires Masks(m0, m1)
    ensures m0 & m1 == m0 && Low(m0) && Low(m1)
  {
  }

  lemma TurnOverflow(v: bv64, m0: bv64, m1: bv64)
    requires Masks(m0, m1) && Filled(v, m0) == 0xFFFF_FFFF_FFFF_FFFF
    ensures Bucket(v, m1) + Index(m0) >= Index(m1)
    ensures Bucket(ExpandNext(v, m0), m1) == Bucket(v, m1) + Index(m0) - Index(m1)
  {
    hide *;
    MasksNested(m0, m1);
    BucketIs(v, m0);
    BucketIs(ExpandNext(v, m0), m1);
    AllOnesExtra(v, m0, m1);
    AllOnesNext(v, m0, m1);
    BucketSplit(v, m0, m1);
    WholeMask(m0, m1);
    BucketSplit(m1, m0, m1);
    BucketIs(m1, m0);
    BucketIs(m1, m1);
  }

  lemma TurnPlain(v: bv64, m0: bv64, m1: bv64)
    requires Masks(m0, m1) && Filled(v, m0) != 0xFFFF_FFFF_FFFF_FFFF
    ensures Bucket(ExpandNext(v, m0), m1) == (Bucket(v, m1) + Index(m0) + 1) % (Index(m1) + 1)
  {
    hide *;
    MasksNested(m0, m1);
    BucketIs(v, m1);
    BucketIs(ExpandNext(v, m0), m1);
    ExpandAdds(v, m0);
    IndexMod(v, m1);
    IndexMod(ExpandNext(v, m0), m1);
    MaskSizes(m0, m1);
    ModAdd(Index(v), Index(m0) + 1, Index(m1) + 1);
    ModAdd(Bucket(v, m1), Index(m0) + 1, Index(m1) + 1);
    BucketBound(v, m1);
    SmallMod(Bucket(v, m1), Index(m1) + 1);
  }

  /** One turn of the loop: on by one smaller table's size, around at the end of the larger table. */
  lemma TurnStep(v: bv64, m0: bv64, m1: bv64)
    requires Masks(m0, m1)
    ensures Bucket(ExpandNext(v, m0), m1) ==
            if Bucket(v, m1) + Index(m0) < Index(m1) then Bucket(v, m1) + Index(m0) + 1
            else Bucket(v, m1) + Index(m0) - Index(m1)
  {
    hide *;
    MaskSizes(m0, m1);
    BucketBound(v, m1);
    if Filled(v, m0) == 0xFFFF_FFFF_FFFF_FFFF {
      TurnOverflow(v, m0, m1);
      BucketBound(ExpandNext(v, m0), m1);
    } else {
      TurnPlain(v, m0, m1);
      SmallMod(Bucket(v, m1), Index(m1) + 1);
      ModAdd(Bucket(v, m1), Index(m0) + 1, Index(m1) + 1);
    }
  }

  lemma MaskSizes(m0: bv64, m1: bv64)
    requires Masks(m0, m1)
    ensures Index(m0) <= Index(m1)
  {
    NothingOutside(m0, m1);
    IndexWithin(m0, m1);
  }

  lemma NothingOutside(m0: bv64, m1: bv64)
    requires m0 & m1 == m0
    ensures m0 & !m1 == 0
  {
  }

  lemma ModAdd(a: nat, s: nat, n: nat)
    requires 0 < s <= n
    ensures (a + s) % n == if a % n + s < n then a % n + s else a % n + s - n
  {
    var q, r := a / n, a % n;
    assert a == n * q + r;
    if r + s < n {
      ModUnique(a + s, n, q, r + s);
    } else {
      assert n * (q + 1) == n * q + n;
      ModUnique(a + s, n, q + 1, r + s - n);
    }
  }

  lemma TurnRises(v: bv64, m0: bv64, m1: bv64)
    requires Masks(m0, m1)
    ensures !Stops(ExpandNext(v, m0), m0, m1) ==> Bucket(v, m1) < Bucket(ExpandNext(v, m0), m1) <= Index(m1)
  {
    hide *;
    StopsExactly(ExpandNext(v, m0), m0, m1);
    TurnStep(v, m0, m1);
    BucketBound(v, m1);
    BucketBound(ExpandNext(v, m0), m1);
  }

  /** Some turn of the loop, started at `v`, visits bucket `b` of the larger table. */
  predicate Visits(b: nat, v: bv64, m0: bv64, m1: bv64)
    requires Masks(m0, m1)
    decreases Index(m1) - Bucket(v, m1)
  {
    TurnRises(v, m0, m1);
    hide *;
    b == Bucket(v, m1) ||
    (!Stops(ExpandNext(v, m0), m0, m1) && Visits(b, ExpandNext(v, m0), m0, m1))
  }

  /** Exactly what the loop visits: the buckets congruent to the cursor's, from the cursor's own
      upwards in numeric order. */
  lemma {:induction false} VisitsExactly(b: nat, v: bv64, m0: bv64, m1: bv64)
    requires Masks(m0, m1) && b <= Index(m1)
    ensures Visits(b, v, m0, m1) <==>
            b % (Index(m0) + 1) == Bucket(v, m0) && b >= Bucket(v, m1)
    decreases Index(m1) - Bucket(v, m1)
  {
    hide Masks;
    hide Stops;
    hide ExpandNext;
    hide Bucket;
    hide Index;
    var n := Index(m0) + 1;
    StopsExactly(ExpandNext(v, m0), m0, m1);
    TurnStep(v, m0, m1);
    BucketMod(v, m0, m1);
    BucketBound(v, m1);
    BucketMod(ExpandNext(v, m0), m0, m1);
    if !Stops(ExpandNext(v, m0), m0, m1) {
      VisitsExactly(b, ExpandNext(v, m0), m0, m1);
      ModAdd(Bucket(v, m1), n, n);
    }
    if b % n == Bucket(v, m1) % n && b > Bucket(v, m1) {
      Apart(b, Bucket(v, m1), n);
    }
  }

  lemma Apart(b: nat, a: nat, n: nat)
    requires n > 0 && b % n == a % n && b > a
    ensures b >= a + n
  {
    assert b == n * (b / n) + b % n && a == n * (a / n) + a % n;
    assert n * (b / n) > n * (a / n);
    if b / n > a / n {
      MulMono(n, a / n, b / n);
    }
  }
}
