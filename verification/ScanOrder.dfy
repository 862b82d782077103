/** The order in which `dictScan` visits hashes: bit-reversed words, smallest first.
    A cursor `v` stands for "every hash before `v` in this order is done". */
module ScanOrder {
  import opened Words

  /** `p` is the lowest position where `h` and `v` differ, and `v` has the one there. */
  predicate FirstDiffer(h: bv64, v: bv64, p: bv64) {
    p != 0 && p & (p - 1) == 0 && h & p == 0 && v & p != 0 && (h ^ v) & (p - 1) == 0
  }

  /** `h` comes before `v`: at the lowest position where they differ, `v` has the one. */
  ghost predicate Before(h: bv64, v: bv64) {
    exists p: bv64 :: FirstDiffer(h, v, p)
  }

  /** `h` and `v` select the same bucket of a table with mask `m`. */
  predicate SameBucket(h: bv64, v: bv64, m: bv64) {
    h & m == v & m
  }

  /** The cursor after the unmasked bits are set and the reversed word is incremented (dict.c:927-934). */
  function NextCursor(v: bv64, m: bv64): bv64 {
    Rev(Rev(v | !m) + 1)
  }

  lemma FirstDifferAsymmetric(h: bv64, v: bv64, p: bv64, q: bv64)
    requires FirstDiffer(h, v, p)
    ensures !FirstDiffer(v, h, q)
  {
  }

  lemma BeforeAsymmetric(h: bv64, v: bv64)
    requires Before(h, v)
    ensures !Before(v, h)
  {
    hide FirstDiffer;
    var p :| FirstDiffer(h, v, p);
    forall q: bv64 ensures !FirstDiffer(v, h, q) {
      FirstDifferAsymmetric(h, v, p, q);
    }
  }

  lemma NothingBeforeZero(h: bv64)
    ensures !Before(h, 0)
  {
  }

  // ---- Lowest and highest ones ----

  predicate Lowest(d: bv64, p: bv64) {
    p != 0 && p & (p - 1) == 0 && d & p != 0 && d & (p - 1) == 0
  }

  predicate Highest(z: bv64, p: bv64) {
    p != 0 && p & (p - 1) == 0 && p & z != 0 && z & !(p | (p - 1)) == 0
  }

  lemma LowestIsSet(d: bv64)
    requires d != 0
    ensures d & (0 - d) != 0 && d & (d & (0 - d)) != 0
  {
  }

  lemma LowestIsOne(d: bv64)
    ensures (d & (0 - d)) & ((d & (0 - d)) - 1) == 0
  {
  }

  lemma LowestIsLowest(d: bv64)
    ensures d & ((d & (0 - d)) - 1) == 0
  {
  }

  lemma LowestBit(d: bv64) returns (p: bv64)
    requires d != 0
    ensures Lowest(d, p)
  {
    p := d & (0 - d);
    LowestIsSet(d);
    LowestIsOne(d);
    LowestIsLowest(d);
  }

  lemma HighestBitStep(z: bv64, p: bv64)
    requires Highest(z >> 1, p)
    ensures Highest(z, p << 1)
  {
  }

  lemma {:induction false} HighestBit(z: bv64) returns (p: bv64)
    requires z != 0
    ensures Highest(z, p)
    decreases Index(z)
  {
    if z >> 1 == 0 {
      assert z == 1;
      p := 1;
    } else {
      IndexPositive(z);
      p := HighestBit(z >> 1);
      HighestBitStep(z, p);
      p := p << 1;
    }
  }

  // ---- The reversed increment ----

  /** `p`, the highest zero of `v` inside the mask, is the bit the reversed increment sets. */
  predicate Flips(v: bv64, m: bv64, p: bv64) {
    p != 0 && p & (p - 1) == 0 && p & m != 0 && p & v == 0 && (!v & m) & !(p | (p - 1)) == 0
  }

  lemma HighestZeroFlips(v: bv64, m: bv64, p: bv64)
    requires Highest(!v & m, p)
    ensures Flips(v, m, p)
  {
  }

  /** No zero is left inside the mask: the reversed increment wraps to 0. */
  predicate Wraps(v: bv64, m: bv64) {
    !v & m == 0
  }

  lemma FlipsOrWraps(v: bv64, m: bv64) returns (p: bv64)
    ensures Wraps(v, m) || Flips(v, m, p)
  {
    if !v & m != 0 {
      hide Highest;
      p := HighestBit(!v & m);
      HighestZeroFlips(v, m, p);
    } else {
      p := 0;
    }
  }

  /** The word after a reversed increment that sets `p`. */
  function FlipAt(v: bv64, p: bv64): bv64 {
    Below(v, p) | p
  }

  function Below(v: bv64, p: bv64): bv64 {
    v & (p - 1)
  }

  /** The cursor with its unmasked bits set, and the same after the flip. */
  function Opened(v: bv64, m: bv64): bv64 {
    v | !m
  }

  predicate OnesAbove(u: bv64, p: bv64) {
    p != 0 && p & (p - 1) == 0 && u & p == 0 && !u & !(p | (p - 1)) == 0
  }

  predicate OnesBelow(x: bv64, q: bv64) {
    q != 0 && q & (q - 1) == 0 && x & q == 0 && !x & (q - 1) == 0
  }

  function CarryAt(x: bv64, q: bv64): bv64 {
    (x & !(q - 1)) | q
  }

  lemma SingleInside(p: bv64, m: bv64)
    requires One(p) && p & m != 0
    ensures p & !m == 0
  {
  }

  lemma OpenedOnes(v: bv64, m: bv64, p: bv64)
    requires Flips(v, m, p)
    ensures OnesAbove(Opened(v, m), p)
  {
    SingleInside(p, m);
  }

  lemma MaskBelowFlip(v: bv64, m: bv64, p: bv64)
    requires Low(m) && Flips(v, m, p)
    ensures !m & (p - 1) == 0
  {
  }

  lemma UnmaskedBitsDrop(v: bv64, n: bv64, b: bv64)
    requires n & b == 0
    ensures (v | n) & b == v & b
  {
  }

  lemma BelowOpened(v: bv64, m: bv64, p: bv64)
    requires !m & (p - 1) == 0
    ensures Below(Opened(v, m), p) == Below(v, p)
  {
    UnmaskedBitsDrop(v, !m, p - 1);
  }

  lemma OpenedFlip(v: bv64, m: bv64, p: bv64)
    requires Low(m) && Flips(v, m, p)
    ensures FlipAt(Opened(v, m), p) == FlipAt(v, p)
  {
    hide Low;
    hide Flips;
    hide Opened;
    hide Below;
    MaskBelowFlip(v, m, p);
    BelowOpened(v, m, p);
  }

  lemma RevOfOne(p: bv64)
    requires One(p)
    ensures One(Rev(p))
  {
  }

  lemma RevOfAbove(p: bv64)
    requires One(p)
    ensures Rev(p) - 1 == Rev(!(p | (p - 1)))
  {
  }

  lemma RevDisjoint(a: bv64, b: bv64)
    requires a & b == 0
    ensures Rev(a) & Rev(b) == 0
  {
  }

  lemma RevOfNot(a: bv64)
    ensures Rev(!a) == !Rev(a)
  {
  }

  lemma OnesReversed(u: bv64, p: bv64)
    requires OnesAbove(u, p)
    ensures OnesBelow(Rev(u), Rev(p))
  {
    hide One;
    hide Rev;
    RevOfOne(p);
    RevOfAbove(p);
    RevDisjoint(u, p);
    RevDisjoint(!u, !(p | (p - 1)));
    RevOfNot(u);
  }

  lemma Carry(x: bv64, q: bv64)
    requires OnesBelow(x, q)
    ensures x + 1 == CarryAt(x, q)
  {
  }

  lemma FlipReversed(u: bv64, p: bv64)
    requires OnesAbove(u, p)
    ensures Rev(FlipAt(u, p)) == CarryAt(Rev(u), Rev(p))
  {
  }

  lemma NextCursorIs(v: bv64, m: bv64)
    ensures NextCursor(v, m) == Rev(Rev(Opened(v, m)) + 1)
  {
    hide Rev;
  }

  /** In reversed order the ones above `p` are the trailing ones, and the increment carries into `p`. */
  lemma NextCursorFlips(v: bv64, m: bv64, p: bv64)
    requires Low(m) && Flips(v, m, p)
    ensures NextCursor(v, m) == FlipAt(v, p)
  {
    hide *;
    NextCursorIs(v, m);
    OpenedOnes(v, m, p);
    OnesReversed(Opened(v, m), p);
    Carry(Rev(Opened(v, m)), Rev(p));
    FlipReversed(Opened(v, m), p);
    RevInvolutive(FlipAt(Opened(v, m), p));
    OpenedFlip(v, m, p);
  }

  lemma FlipIsNotZero(v: bv64, m: bv64, p: bv64)
    requires Flips(v, m, p)
    ensures FlipAt(v, p) != 0
  {
  }

  lemma NextCursorWraps(v: bv64, m: bv64)
    requires Wraps(v, m)
    ensures NextCursor(v, m) == 0
  {
  }

  /** `q` is the lowest position inside the mask where `h` and `v` differ. */
  predicate LowestDifference(h: bv64, v: bv64, m: bv64, q: bv64) {
    Lowest((h ^ v) & m, q)
  }

  lemma DifferOrShare(h: bv64, v: bv64, m: bv64) returns (q: bv64)
    ensures SameBucket(h, v, m) || LowestDifference(h, v, m, q)
  {
    if (h ^ v) & m == 0 {
      assert h & m == v & m;
      q := 0;
    } else {
      hide Lowest;
      q := LowestBit((h ^ v) & m);
    }
  }

  lemma BeforeFlip(h: bv64, v: bv64, m: bv64, p: bv64, q: bv64)
    requires Flips(v, m, p)
    requires FirstDiffer(h, FlipAt(v, p), q)
    ensures FirstDiffer(h, v, q) || q == p
  {
  }

  lemma AtFlip(h: bv64, v: bv64, m: bv64, p: bv64, q: bv64)
    requires Low(m) && Flips(v, m, p)
    requires FirstDiffer(h, FlipAt(v, p), p)
    requires LowestDifference(h, v, m, q)
    ensures FirstDiffer(h, v, q)
  {
  }

  lemma AtWrap(h: bv64, v: bv64, m: bv64, q: bv64)
    requires Wraps(v, m)
    requires Low(m) && LowestDifference(h, v, m, q)
    ensures FirstDiffer(h, v, q)
  {
  }

  lemma BeforeBy(h: bv64, v: bv64, p: bv64)
    requires FirstDiffer(h, v, p)
    ensures Before(h, v)
  {
  }

  lemma BeforeWitness(h: bv64, v: bv64) returns (p: bv64)
    requires Before(h, v)
    ensures FirstDiffer(h, v, p)
  {
    p :| FirstDiffer(h, v, p);
  }

  /** A hash the next cursor counts as done was done before, or lies in the bucket just emitted.
      A cursor that came back to 0 counts every hash as done. */
  lemma NextCursorCovers(h: bv64, v: bv64, m: bv64)
    requires Low(m)
    requires NextCursor(v, m) == 0 || Before(h, NextCursor(v, m))
    ensures Before(h, v) || SameBucket(h, v, m)
  {
    hide *;
    var q := DifferOrShare(h, v, m);
    var p := FlipsOrWraps(v, m);
    if !SameBucket(h, v, m) {
      if Wraps(v, m) {
        AtWrap(h, v, m, q);
        BeforeBy(h, v, q);
      } else {
        NextCursorFlips(v, m, p);
        FlipIsNotZero(v, m, p);
        var r := BeforeWitness(h, FlipAt(v, p));
        BeforeFlip(h, v, m, p, r);
        if FirstDiffer(h, v, r) {
          BeforeBy(h, v, r);
        } else {
          AtFlip(h, v, m, p, q);
          BeforeBy(h, v, q);
        }
      }
    }
  }

  /** The cursor returned has no bits outside the mask it was advanced with. */
  lemma NextCursorWithin(v: bv64, m: bv64)
    requires Low(m)
    ensures NextCursor(v, m) & !m == 0
  {
  }

  lemma FlipRises(v: bv64, m: bv64, p: bv64)
    requires Flips(v, m, p)
    ensures FirstDiffer(v, FlipAt(v, p), p)
  {
  }

  /** Unless it wraps, the cursor moves forward in the scan order. */
  lemma NextCursorRises(v: bv64, m: bv64)
    requires Low(m) && NextCursor(v, m) != 0
    ensures Before(v, NextCursor(v, m))
  {
    hide *;
    var p := FlipsOrWraps(v, m);
    if Wraps(v, m) {
      NextCursorWraps(v, m);
    } else {
      NextCursorFlips(v, m, p);
      FlipRises(v, m, p);
      BeforeBy(v, FlipAt(v, p), p);
    }
  }

  // ---- The scan order as a number ----

  /** The value of the lowest `n` bits of `v` read in reverse: bit 0 weighs most. */
  function RevValue(v: bv64, n: nat): (r: nat)
    ensures r < Pow2(n)
  {
    if n == 0 then 0 else (if v & 1 == 0 then 0 else Pow2(n - 1)) + RevValue(v >> 1, n - 1)
  }

  lemma FirstDifferHalves(h: bv64, v: bv64, p: bv64)
    requires FirstDiffer(h, v, p)
    ensures p == 1 ==> h & 1 == 0 && v & 1 != 0
    ensures p != 1 ==> FirstDiffer(h >> 1, v >> 1, p >> 1) && (h & 1 == 0 <==> v & 1 == 0) && p & 1 == 0
  {
  }

  /** Position `p` lies in mask `m`. */
  predicate InMask(p: bv64, m: bv64) {
    p & m != 0
  }

  /** All of mask `m` lies in `w`. */
  predicate Within(m: bv64, w: bv64) {
    m & !w == 0
  }

  lemma PositionHalves(p: bv64, n: nat)
    requires n > 0 && p & 1 == 0 && InMask(p, LowBits(n))
    ensures InMask(p >> 1, LowBits(n - 1))
  {
    assert ((LowBits(n - 1) << 1) | 1) & p != 0;
  }

  /** Before in the scan order is smaller in value, on any width that covers the difference. */
  lemma {:induction false} BeforeIsSmaller(h: bv64, v: bv64, p: bv64, n: nat)
    requires FirstDiffer(h, v, p) && InMask(p, LowBits(n))
    ensures RevValue(h, n) < RevValue(v, n)
    decreases n
  {
    if n > 0 {
      FirstDifferHalves(h, v, p);
      if p != 1 {
        PositionHalves(p, n);
        BeforeIsSmaller(h >> 1, v >> 1, p >> 1, n - 1);
      }
    }
  }

  lemma FlipWithin(v: bv64, m: bv64, p: bv64)
    requires Flips(v, m, p)
    ensures InMask(p, m)
  {
  }

  lemma WithinWider(p: bv64, m: bv64, w: bv64)
    requires InMask(p, m) && Within(m, w)
    ensures InMask(p, w)
  {
  }

  /** Every step of a scan over masks of at most `n` bits raises the reversed value, until it wraps. */
  lemma NextCursorLarger(v: bv64, m: bv64, n: nat)
    requires Low(m) && Within(m, LowBits(n)) && NextCursor(v, m) != 0
    ensures RevValue(v, n) < RevValue(NextCursor(v, m), n)
  {
    hide *;
    var p := FlipsOrWraps(v, m);
    if Wraps(v, m) {
      NextCursorWraps(v, m);
    } else {
      NextCursorFlips(v, m, p);
      FlipRises(v, m, p);
      FlipWithin(v, m, p);
      WithinWider(p, m, LowBits(n));
      BeforeIsSmaller(v, FlipAt(v, p), p, n);
    }
  }
}
