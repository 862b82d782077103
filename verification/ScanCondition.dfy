/** When one call of `dictScan` made while a rehash is on covers everything its cursor claims.
    The inner loop walks upwards in numeric order, the cursor counts in reversed order; the two
    agree exactly when the cursor's extra bits, together with the smaller mask, have no gap. */
module ScanCondition {
  import opened Words
  import opened ScanOrder
  import opened ScanExpand

  /** The bits of the cursor between the two masks, with the smaller mask filled in. */
  function Prefix(v: bv64, m0: bv64, m1: bv64): bv64 {
    Extra(v, m0, m1) | m0
  }

  /** What the caller can check before the call: those bits form a low mask. */
  predicate GapFree(v: bv64, m0: bv64, m1: bv64) {
    Low(Prefix(v, m0, m1))
  }

  /** Every hash in the cursor's bucket was done before or is visited by the inner loop. */
  ghost predicate CoversBucket(v: bv64, m0: bv64, m1: bv64)
    requires Masks(m0, m1)
  {
    forall h: bv64 :: SameBucket(h, v, m0) ==> Before(h, v) || Visits(Bucket(h, m1), v, m0, m1)
  }

  // ---- A gap-free cursor covers its bucket ----

  /** Bits of the cursor, within `e`, that `h` lacks. */
  function Missing(h: bv64, v: bv64, e: bv64): bv64 {
    v & e & !h
  }

  lemma NothingMissing(h: bv64, v: bv64, m0: bv64, m1: bv64)
    requires m0 & m1 == m0 && h & m0 == v & m0 && v & (m1 & !m0) & !h == 0
    ensures (v & m1) & !(h & m1) == 0
  {
  }

  lemma BucketOrder(h: bv64, v: bv64, m0: bv64, m1: bv64)
    requires Masks(m0, m1) && SameBucket(h, v, m0) && Missing(h, v, m1 & !m0) == 0
    ensures Bucket(v, m1) <= Bucket(h, m1)
  {
    NothingMissing(h, v, m0, m1);
    hide *;
    BucketIs(v, m1);
    BucketIs(h, m1);
    IndexWithin(v & m1, h & m1);
  }

  /** `q` is the lowest missing bit. */
  predicate FirstMissing(h: bv64, v: bv64, e: bv64, q: bv64) {
    q != 0 && q & (q - 1) == 0 && v & e & !h & q != 0 && v & e & !h & (q - 1) == 0
  }

  predicate Agree(h: bv64, v: bv64, b: bv64) {
    (h ^ v) & b == 0
  }

  predicate LowJoin(v: bv64, e: bv64, m0: bv64) {
    Low((v & e) | m0)
  }

  predicate BelowJoin(q: bv64, v: bv64, e: bv64, m0: bv64) {
    (q - 1) & !((v & e) | m0) == 0
  }

  lemma MissingExists(h: bv64, v: bv64, e: bv64) returns (q: bv64)
    requires Missing(h, v, e) != 0
    ensures FirstMissing(h, v, e, q)
  {
    hide Missing;
    q := LowestBit(Missing(h, v, e));
    LowestMissing(h, v, e, q);
  }

  lemma LowestMissing(h: bv64, v: bv64, e: bv64, q: bv64)
    requires Lowest(Missing(h, v, e), q)
    ensures FirstMissing(h, v, e, q)
  {
  }

  lemma BelowFirstMissing(h: bv64, v: bv64, e: bv64, m0: bv64, q: bv64)
    requires LowJoin(v, e, m0) && FirstMissing(h, v, e, q)
    ensures BelowJoin(q, v, e, m0)
  {
  }

  lemma AgreeBelow(h: bv64, v: bv64, e: bv64, m0: bv64, q: bv64)
    requires BelowJoin(q, v, e, m0) && Agree(h, v, m0) && FirstMissing(h, v, e, q)
    ensures Agree(h, v, q - 1)
  {
  }

  lemma MissingBitDiffers(h: bv64, v: bv64, e: bv64, q: bv64)
    requires FirstMissing(h, v, e, q) && Agree(h, v, q - 1)
    ensures FirstDiffer(h, v, q)
  {
  }

  lemma SameBucketAgree(h: bv64, v: bv64, m0: bv64)
    requires SameBucket(h, v, m0)
    ensures Agree(h, v, m0)
  {
  }

  lemma PrefixIsJoin(v: bv64, m0: bv64, m1: bv64)
    requires GapFree(v, m0, m1)
    ensures LowJoin(v, m1 & !m0, m0)
  {
    hide Low;
  }

  /** A hash in the bucket that the walk starts above was done before. */
  lemma GapFreeCovers(h: bv64, v: bv64, m0: bv64, m1: bv64)
    requires Masks(m0, m1) && GapFree(v, m0, m1) && SameBucket(h, v, m0)
    ensures Before(h, v) || Bucket(v, m1) <= Bucket(h, m1)
  {
    hide *;
    if Missing(h, v, m1 & !m0) == 0 {
      BucketOrder(h, v, m0, m1);
    } else {
      PrefixIsJoin(v, m0, m1);
      SameBucketAgree(h, v, m0);
      var q := MissingExists(h, v, m1 & !m0);
      BelowFirstMissing(h, v, m1 & !m0, m0, q);
      AgreeBelow(h, v, m1 & !m0, m0, q);
      MissingBitDiffers(h, v, m1 & !m0, q);
      BeforeBy(h, v, q);
    }
  }

  // ---- A cursor with a gap skips a hash ----

  /** `z` is the lowest bit missing from `m`, and `m` has bits above it. */
  predicate Gap(m: bv64, z: bv64) {
    z != 0 && z & (z - 1) == 0 && z & m == 0 && !m & (z - 1) == 0 && m & !(z | (z - 1)) != 0
  }

  lemma LowestZero(m: bv64, z: bv64)
    requires m & (m + 1) != 0 && z == !m & (m + 1)
    ensures z != 0 && z & (z - 1) == 0 && !m & (z - 1) == 0
  {
  }

  lemma AboveLowestZero(m: bv64, z: bv64)
    requires m & (m + 1) != 0 && z == !m & (m + 1)
    ensures m & !(z | (z - 1)) != 0
  {
  }

  lemma GapExists(m: bv64) returns (z: bv64)
    requires !Low(m)
    ensures Gap(m, z)
  {
    z := !m & (m + 1);
    LowestZero(m, z);
    AboveLowestZero(m, z);
  }

  /** The hash that is skipped: the cursor up to the gap, with the gap filled. */
  function Skipped(v: bv64, z: bv64): bv64 {
    (v & (z - 1)) | z
  }

  lemma GapAboveSmaller(v: bv64, m0: bv64, m1: bv64, z: bv64)
    requires Low(m0) && Gap(Prefix(v, m0, m1), z)
    ensures Within(m0, z - 1) && m0 & z == 0
  {
  }

  lemma SkippedShares(v: bv64, m0: bv64, z: bv64)
    requires Within(m0, z - 1) && m0 & z == 0
    ensures SameBucket(Skipped(v, z), v, m0)
  {
  }

  /** Bits of the cursor above the gap. */
  function Above(v: bv64, m0: bv64, m1: bv64, z: bv64): bv64 {
    v & (m1 & !m0) & !(z | (z - 1))
  }

  lemma AboveExists(v: bv64, m0: bv64, m1: bv64, z: bv64)
    requires Gap(Prefix(v, m0, m1), z) && Within(m0, z - 1)
    ensures Above(v, m0, m1, z) != 0
  {
  }

  lemma GapInsideLarger(v: bv64, m0: bv64, m1: bv64, z: bv64)
    requires Low(m1) && Gap(Prefix(v, m0, m1), z) && Above(v, m0, m1, z) != 0
    ensures z & !m1 == 0
  {
  }

  lemma CursorLacksGap(v: bv64, m0: bv64, m1: bv64, z: bv64)
    requires Gap(Prefix(v, m0, m1), z) && z & !m1 == 0 && m0 & z == 0
    ensures v & z == 0
  {
  }

  lemma GapDiffers(v: bv64, m0: bv64, m1: bv64, z: bv64)
    requires Gap(Prefix(v, m0, m1), z) && v & z == 0
    ensures FirstDiffer(v, Skipped(v, z), z)
  {
  }

  /** `a` has only bits below `y`, and `b` has `y`. */
  predicate Outranks(b: bv64, a: bv64, y: bv64) {
    Within(a, y - 1) && Within(y, b) && y != 0
  }

  lemma OutrankedIsLess(b: bv64, a: bv64, y: bv64)
    requires Outranks(b, a, y)
    ensures Index(a) < Index(b)
  {
    IndexWithin(a, y - 1);
    IndexWithin(y, b);
    PredecessorIndex(y);
  }

  lemma PredecessorIndex(y: bv64)
    requires y != 0
    ensures Index(y - 1) + 1 == Index(y)
  {
    assert y - 1 != 0xFFFF_FFFF_FFFF_FFFF && (y - 1) + 1 == y;
    hide Index;
    IndexIncrement(y - 1);
  }

  lemma AboveOutranks(v: bv64, m0: bv64, m1: bv64, z: bv64, y: bv64)
    requires Gap(Prefix(v, m0, m1), z) && Lowest(Above(v, m0, m1, z), y)
    ensures Within(z | (z - 1), y - 1)
  {
  }

  lemma SkippedBelow(v: bv64, m1: bv64, z: bv64, y: bv64)
    requires Within(z | (z - 1), y - 1)
    ensures Within(Skipped(v, z) & m1, y - 1)
  {
  }

  lemma AboveInCursor(v: bv64, m0: bv64, m1: bv64, z: bv64, y: bv64)
    requires Lowest(Above(v, m0, m1, z), y)
    ensures Within(y, v & m1) && y != 0
  {
  }

  lemma OutranksBy(b: bv64, a: bv64, y: bv64)
    requires Within(a, y - 1) && Within(y, b) && y != 0
    ensures Outranks(b, a, y)
  {
  }

  lemma SkippedIsLower(v: bv64, m0: bv64, m1: bv64, z: bv64)
    requires Gap(Prefix(v, m0, m1), z) && Above(v, m0, m1, z) != 0
    ensures Bucket(Skipped(v, z), m1) < Bucket(v, m1)
  {
    hide *;
    var y := LowestBit(Above(v, m0, m1, z));
    AboveOutranks(v, m0, m1, z, y);
    SkippedBelow(v, m1, z, y);
    AboveInCursor(v, m0, m1, z, y);
    OutranksBy(v & m1, Skipped(v, z) & m1, y);
    OutrankedIsLess(v & m1, Skipped(v, z) & m1, y);
    BucketIs(v, m1);
    BucketIs(Skipped(v, z), m1);
  }

  lemma GapOf(v: bv64, m0: bv64, m1: bv64) returns (z: bv64)
    requires !GapFree(v, m0, m1)
    ensures Gap(Prefix(v, m0, m1), z)
  {
    hide Low;
    hide Prefix;
    hide Gap;
    z := GapExists(Prefix(v, m0, m1));
  }

  /** With a gap, some hash of the cursor's bucket was not done before and is not visited. */
  lemma GapSkips(v: bv64, m0: bv64, m1: bv64) returns (h: bv64)
    requires Masks(m0, m1) && !GapFree(v, m0, m1)
    ensures SameBucket(h, v, m0) && Before(v, h) && Bucket(h, m1) < Bucket(v, m1)
  {
    hide *;
    MasksNested(m0, m1);
    var z := GapOf(v, m0, m1);
    h := Skipped(v, z);
    GapAboveSmaller(v, m0, m1, z);
    SkippedShares(v, m0, z);
    AboveExists(v, m0, m1, z);
    GapInsideLarger(v, m0, m1, z);
    CursorLacksGap(v, m0, m1, z);
    GapDiffers(v, m0, m1, z);
    BeforeBy(v, h, z);
    SkippedIsLower(v, m0, m1, z);
  }

  /** The exact condition: one call made while a rehash is on covers every hash of the bucket its
      cursor moves past if and only if the cursor is gap-free. */
  lemma CoversExactly(v: bv64, m0: bv64, m1: bv64)
    requires Masks(m0, m1)
    ensures CoversBucket(v, m0, m1) <==> GapFree(v, m0, m1)
  {
    hide Masks;
    hide GapFree;
    hide SameBucket;
    hide Before;
    hide Visits;
    hide Bucket;
    hide Index;
    if GapFree(v, m0, m1) {
      forall h: bv64 | SameBucket(h, v, m0)
        ensures Before(h, v) || Visits(Bucket(h, m1), v, m0, m1)
      {
        GapFreeCovers(h, v, m0, m1);
        VisitsBucketOf(h, v, m0, m1);
      }
    } else {
      var h := GapSkips(v, m0, m1);
      BeforeAsymmetric(v, h);
      VisitsBucketOf(h, v, m0, m1);
      assert !Visits(Bucket(h, m1), v, m0, m1);
    }
  }

  lemma SameBucketNumber(h: bv64, v: bv64, m: bv64)
    requires SameBucket(h, v, m)
    ensures Bucket(h, m) == Bucket(v, m)
  {
  }

  /** Within the cursor's bucket, what is visited is what lies at or above the cursor. */
  lemma VisitsBucketOf(h: bv64, v: bv64, m0: bv64, m1: bv64)
    requires Masks(m0, m1) && SameBucket(h, v, m0)
    ensures Visits(Bucket(h, m1), v, m0, m1) <==> Bucket(v, m1) <= Bucket(h, m1)
  {
    hide *;
    SameBucketNumber(h, v, m0);
    BucketBound(h, m1);
    BucketMod(h, m0, m1);
    VisitsExactly(Bucket(h, m1), v, m0, m1);
  }
}
