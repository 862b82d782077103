/** What hyperloglog.c takes from an element's hash: a register, and the length of the pattern 00..1
    in the bits above the register's. The hash function itself is a parameter. */
module HllHash {
  import opened Words

  const REGISTERS := 16384
  const P := 14

  /** `hash & HLL_P_MASK`. */
  function Register(hash: bv64): nat { Index(hash & 0x3fff) }

  lemma RegisterInRange(hash: bv64)
    ensures Register(hash) < REGISTERS
  {
    IndexMasked(hash, 0x3fff);
    MaskIndex();
  }

  lemma MaskIndex()
    ensures Index(0x3fff) == 0x3fff
  {
    assert Index(0) == 0;
    assert Index(1) == 1;
    assert Index(3) == 3;
    assert Index(7) == 7;
    assert Index(15) == 15;
    assert Index(31) == 31;
    assert Index(63) == 63;
    assert Index(127) == 127;
    assert Index(255) == 255;
    assert Index(511) == 511;
    assert Index(1023) == 1023;
    assert Index(2047) == 2047;
    assert Index(4095) == 4095;
    assert Index(8191) == 8191;
  }

  // ---- Bit positions ----

  /** The word with only bit `i` set. */
  function BitAt(i: nat): bv64 { if i == 0 then 1 else BitAt(i - 1) << 1 }

  lemma BitSamples()
    ensures BitAt(14) == 16384 && BitAt(63) == 0x8000_0000_0000_0000
  {
    assert BitAt(7) == 0x80;
    assert BitAt(14) == 0x4000;
    assert BitAt(21) == 0x20_0000;
    assert BitAt(28) == 0x1000_0000;
    assert BitAt(35) == 0x8_0000_0000;
    assert BitAt(42) == 0x400_0000_0000;
    assert BitAt(49) == 0x2_0000_0000_0000;
    assert BitAt(56) == 0x100_0000_0000_0000;
    assert BitAt(63) == 0x8000_0000_0000_0000;
  }

  lemma {:induction false} ZeroStays(i: nat, j: nat)
    requires i <= j && BitAt(i) == 0
    ensures BitAt(j) == 0
    decreases j
  {
    if i < j {
      ZeroStays(i, j - 1);
    }
  }

  lemma OneDoubles(b: bv64)
    requires One(b)
    ensures b << 1 != 0 ==> One(b << 1)
    ensures 0x8000_0000_0000_0000 & b != 0 <==> b << 1 == 0
  {
  }

  lemma {:induction false} BitIsOne(i: nat)
    requires i < 64
    ensures One(BitAt(i)) && (i < 63 ==> 0x8000_0000_0000_0000 & BitAt(i) == 0)
  {
    BitSamples();
    if i > 0 {
      BitIsOne(i - 1);
      OneDoubles(BitAt(i - 1));
    }
    OneDoubles(BitAt(i));
    if i < 63 && BitAt(i + 1) == 0 {
      ZeroStays(i + 1, 63);
      assert false;
    }
  }

  /** Bit `i` of the hash is set. */
  predicate Hit(hash: bv64, i: nat) { !Misses(hash, BitAt(i)) }

  predicate Misses(x: bv64, b: bv64) { x & b == 0 }

  /** The hash with its last bit set, so that the loop ends (hyperloglog.c:460). */
  function Capped(hash: bv64): bv64 { hash | 0x8000_0000_0000_0000 }

  lemma CappedAnd(hash: bv64, b: bv64)
    requires 0x8000_0000_0000_0000 & b == 0
    ensures Capped(hash) & b == hash & b
  {
  }

  lemma MissesSame(x: bv64, y: bv64, b: bv64)
    requires x & b == y & b
    ensures Misses(x, b) <==> Misses(y, b)
  {
  }

  lemma CappedBelow(hash: bv64, b: bv64)
    requires 0x8000_0000_0000_0000 & b == 0
    ensures Misses(Capped(hash), b) <==> Misses(hash, b)
  {
    hide *;
    CappedAnd(hash, b);
    MissesSame(Capped(hash), hash, b);
  }

  lemma CappedTop(hash: bv64)
    ensures !Misses(Capped(hash), 0x8000_0000_0000_0000)
  {
  }

  lemma TopIsLast()
    ensures BitAt(63) == 0x8000_0000_0000_0000
  {
    BitSamples();
    hide BitAt;
  }

  lemma HitIs(hash: bv64, i: nat)
    ensures Hit(hash, i) <==> !Misses(hash, BitAt(i))
  {
    hide BitAt;
    hide Misses;
  }

  lemma StopsWhen(hash: bv64, i: nat)
    requires i < 64
    ensures Misses(Capped(hash), BitAt(i)) <==> i != 63 && !Hit(hash, i)
  {
    hide *;
    if i == 63 {
      TopIsLast();
      CappedTop(hash);
    } else {
      BitIsOne(i);
      CappedBelow(hash, BitAt(i));
      HitIs(hash, i);
    }
  }

  lemma NextBit(i: nat)
    ensures BitAt(i) << 1 == BitAt(i + 1)
  {
  }

  /** The pattern is counted up to its first one, or to the last bit of the word. */
  function PatLen(hash: bv64, i: nat): (count: nat)
    requires P <= i <= 63
    ensures i - P < count <= 50
    decreases 63 - i
  {
    if i == 63 || Hit(hash, i) then i - P + 1 else PatLen(hash, i + 1)
  }

  /** The bits from `i` up to the `count`-th above the register's are zero, and that one is not, unless
      it is past the last. */
  ghost predicate Pattern(hash: bv64, i: nat, count: nat) {
    && i - P < count <= 50
    && (forall j :: i <= j < P + count - 1 ==> !Hit(hash, j))
    && (count == 50 || Hit(hash, P + count - 1))
  }

  /** The count is the number of zero bits from bit 14 up to the first one, and one more; a hash with
      none up there counts 50. */
  lemma {:induction false} PatLenIs(hash: bv64, i: nat, count: nat)
    requires P <= i <= 63
    ensures count == PatLen(hash, i) <==> Pattern(hash, i, count)
    decreases 63 - i
  {
    hide Hit;
    if i == 63 {
      assert Pattern(hash, i, count) <==> count == 50;
    } else if Hit(hash, i) {
      assert Pattern(hash, i, i - P + 1);
      assert count > i - P + 1 ==> !Pattern(hash, i, count);
    } else {
      PatLenIs(hash, i + 1, count);
      assert Pattern(hash, i + 1, count) <==> Pattern(hash, i, count);
    }
  }

  /** The loop reached `bit`, and no bit before it was set. */
  ghost predicate Scanning(hash: bv64, count: nat, bit: bv64) {
    1 <= count <= 50 && bit == BitAt(P + count - 1) && PatLen(hash, P) == PatLen(hash, P + count - 1)
  }

  lemma ScanStarts(hash: bv64)
    ensures Scanning(hash, 1, 16384)
  {
    BitSamples();
    hide BitAt;
    hide PatLen;
  }

  lemma ScanStep(hash: bv64, count: nat, bit: bv64)
    requires Scanning(hash, count, bit)
    ensures if Misses(Capped(hash), bit) then count < 50 && Scanning(hash, count + 1, bit << 1)
            else PatLen(hash, P) == count
  {
    StopsWhen(hash, P + count - 1);
    NextBit(P + count - 1);
    hide BitAt;
    hide Hit;
    hide Misses;
    hide Capped;
  }

  /** `hllPatLen` (hyperloglog.c:444-470) of a hash. */
  method HllPatLen(hash: bv64) returns (index: nat, count: nat)
    ensures index == Register(hash) < REGISTERS && count == PatLen(hash, P) && 1 <= count <= 50
  {
    RegisterInRange(hash);
    ScanStarts(hash);
    index := Register(hash);
    var h := Capped(hash);
    var bit: bv64 := 16384;
    count := 1;
    hide Register;
    hide Scanning;
    hide PatLen;
    hide Misses;
    hide Capped;
    while Misses(h, bit)
      invariant 1 <= count <= 50 && Scanning(hash, count, bit)
      decreases 50 - count
    {
      ScanStep(hash, count, bit);
      count := count + 1;
      bit := bit << 1;
    }
    ScanStep(hash, count, bit);
  }
}
