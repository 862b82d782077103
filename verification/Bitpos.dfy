/** `redisBitpos` of bitops.c: the first bit of a value, skipping whole bytes and words of the other. */
module Bitpos {
  import opened Bits
  import opened WordBytes

  /** `pos` is the first position of the value; -1 says that there is no set bit at all. */
  ghost predicate FirstAt(s: seq<bv8>, bit: bool, pos: int) {
    if pos == -1 then bit && forall k :: 0 <= k < 8 * |s| ==> !Bit(s, k)
    else 0 <= pos <= 8 * |s| && Padded(s, pos) == bit && forall k :: 0 <= k < pos ==> Padded(s, k) != bit
  }

  /** At most one answer is right, and it is -1 exactly for a set bit in a string of zeros, and just past
      the end exactly for a clear bit in a string of ones. */
  lemma OneAnswer(s: seq<bv8>, bit: bool, pos: int, pos': int)
    requires FirstAt(s, bit, pos) && FirstAt(s, bit, pos')
    ensures pos == pos'
    ensures pos == -1 <==> bit && forall k :: 0 <= k < 8 * |s| ==> !Bit(s, k)
    ensures pos == 8 * |s| <==> !bit && forall k :: 0 <= k < 8 * |s| ==> Bit(s, k)
  {
    hide Bit;
    if pos >= 0 && pos < 8 * |s| {
      assert Padded(s, pos) == Bit(s, pos);
    }
    if pos == 8 * |s| {
      forall k | 0 <= k < 8 * |s| ensures Bit(s, k) {
        assert Padded(s, k) != bit;
      }
    }
    var here, there := pos >= 0 && Padded(s, pos), pos' >= 0 && Padded(s, pos');
  }

  // ---- Bytes and words all of one value ----

  function Skip(bit: bool): bv8 { if bit then 0 else 0xFF }

  lemma SkipByte(b: bv8, bit: bool, j: nat)
    requires j < 8 && b == Skip(bit)
    ensures Has(b, j) == !bit
  {
  }

  /** A byte of another value has a bit that is wanted. */
  lemma WantedIn(b: bv8, bit: bool) returns (j: nat)
    requires b != Skip(bit)
    ensures j < 8 && Has(b, j) == bit
  {
    if Has(b, 0) == bit {
      return 0;
    } else if Has(b, 1) == bit {
      return 1;
    } else if Has(b, 2) == bit {
      return 2;
    } else if Has(b, 3) == bit {
      return 3;
    } else if Has(b, 4) == bit {
      return 4;
    } else if Has(b, 5) == bit {
      return 5;
    } else if Has(b, 6) == bit {
      return 6;
    }
    LastWanted(b, bit);
    return 7;
  }

  lemma LastWanted(b: bv8, bit: bool)
    requires b != Skip(bit)
    requires Has(b, 0) != bit && Has(b, 1) != bit && Has(b, 2) != bit && Has(b, 3) != bit
    requires Has(b, 4) != bit && Has(b, 5) != bit && Has(b, 6) != bit
    ensures Has(b, 7) == bit
  {
  }

  function SkipWord(bit: bool): bv64 { if bit then 0 else 0xFFFF_FFFF_FFFF_FFFF }

  ghost predicate AllSkip(q: seq<bv8>, bit: bool) { forall i :: 0 <= i < |q| ==> q[i] == Skip(bit) }

  lemma RawZeros(a: bv8, b: bv8, c: bv8, d: bv8, e: bv8, f: bv8, g: bv8, h: bv8)
    ensures (a as bv64) | ((b as bv64) << 8) | ((c as bv64) << 16) | ((d as bv64) << 24)
            | ((e as bv64) << 32) | ((f as bv64) << 40) | ((g as bv64) << 48) | ((h as bv64) << 56) == 0 <==>
            a == 0 && b == 0 && c == 0 && d == 0 && e == 0 && f == 0 && g == 0 && h == 0
  {
  }

  lemma RawOnes(a: bv8, b: bv8, c: bv8, d: bv8, e: bv8, f: bv8, g: bv8, h: bv8)
    ensures (a as bv64) | ((b as bv64) << 8) | ((c as bv64) << 16) | ((d as bv64) << 24)
            | ((e as bv64) << 32) | ((f as bv64) << 40) | ((g as bv64) << 48) | ((h as bv64) << 56)
            == 0xFFFF_FFFF_FFFF_FFFF <==>
            a == 0xFF && b == 0xFF && c == 0xFF && d == 0xFF && e == 0xFF && f == 0xFF && g == 0xFF && h == 0xFF
  {
  }

  /** A word equals the skipped one exactly when its bytes do, whichever end of memory comes first. */
  lemma LoadSkips(q: seq<bv8>, bit: bool)
    requires |q| == 8
    ensures Load(q) == SkipWord(bit) <==> AllSkip(q, bit)
  {
    if bit {
      RawZeros(q[0], q[1], q[2], q[3], q[4], q[5], q[6], q[7]);
    } else {
      RawOnes(q[0], q[1], q[2], q[3], q[4], q[5], q[6], q[7]);
    }
  }

  // ---- The last word, first byte highest ----

  function ShiftIn(w: bv64, b: bv8): bv64 { (w << 8) | (b as bv64) }

  /** The loop that loads `n` bytes. */
  function Shifted(q: seq<bv8>, n: nat): bv64
    requires n <= |q|
  {
    if n == 0 then 0 else ShiftIn(Shifted(q, n - 1), q[n - 1])
  }

  function Big(a: bv8, b: bv8, c: bv8, d: bv8, e: bv8, f: bv8, g: bv8, h: bv8): bv64 {
    ((a as bv64) << 56) | ((b as bv64) << 48) | ((c as bv64) << 40) | ((d as bv64) << 32)
    | ((e as bv64) << 24) | ((f as bv64) << 16) | ((g as bv64) << 8) | (h as bv64)
  }

  /** The bit `m` of byte `i` in the word. */
  function Place(i: nat, m: bv8): bv64
    requires i < 8
  {
    if i == 0 then (m as bv64) << 56 else if i == 1 then (m as bv64) << 48 else if i == 2 then (m as bv64) << 40
    else if i == 3 then (m as bv64) << 32 else if i == 4 then (m as bv64) << 24 else if i == 5 then (m as bv64) << 16
    else if i == 6 then (m as bv64) << 8 else m as bv64
  }

  lemma Loaded(q: seq<bv8>)
    requires |q| == 8
    ensures Shifted(q, 8) == Big(q[0], q[1], q[2], q[3], q[4], q[5], q[6], q[7])
  {
    hide ShiftIn;
    hide Big;
    assert Shifted(q, 1) == ShiftIn(Shifted(q, 0), q[0]);
    assert Shifted(q, 2) == ShiftIn(Shifted(q, 1), q[1]);
    assert Shifted(q, 4) == ShiftIn(ShiftIn(Shifted(q, 2), q[2]), q[3]);
    assert Shifted(q, 6) == ShiftIn(ShiftIn(Shifted(q, 4), q[4]), q[5]);
    assert Shifted(q, 8) == ShiftIn(ShiftIn(Shifted(q, 6), q[6]), q[7]);
    AllIn(q[0], q[1], q[2], q[3], q[4], q[5], q[6], q[7]);
  }

  lemma AllIn(a: bv8, b: bv8, c: bv8, d: bv8, e: bv8, f: bv8, g: bv8, h: bv8)
    ensures ShiftIn(ShiftIn(ShiftIn(ShiftIn(ShiftIn(ShiftIn(ShiftIn(ShiftIn(0, a), b), c), d), e), f), g), h) ==
            Big(a, b, c, d, e, f, g, h)
  {
  }

  predicate Meets(w: bv64, x: bv64) { w & x != 0 }

  predicate Touches(b: bv8, m: bv8) { b & m != 0 }

  lemma TouchingHigh(a: bv8, b: bv8, c: bv8, d: bv8, e: bv8, f: bv8, g: bv8, h: bv8, m: bv8)
    ensures Meets(Big(a, b, c, d, e, f, g, h), (m as bv64) << 56) <==> Touches(a, m)
    ensures Meets(Big(a, b, c, d, e, f, g, h), (m as bv64) << 48) <==> Touches(b, m)
    ensures Meets(Big(a, b, c, d, e, f, g, h), (m as bv64) << 40) <==> Touches(c, m)
    ensures Meets(Big(a, b, c, d, e, f, g, h), (m as bv64) << 32) <==> Touches(d, m)
  {
  }

  lemma TouchingLow(a: bv8, b: bv8, c: bv8, d: bv8, e: bv8, f: bv8, g: bv8, h: bv8, m: bv8)
    ensures Meets(Big(a, b, c, d, e, f, g, h), (m as bv64) << 24) <==> Touches(e, m)
    ensures Meets(Big(a, b, c, d, e, f, g, h), (m as bv64) << 16) <==> Touches(f, m)
    ensures Meets(Big(a, b, c, d, e, f, g, h), (m as bv64) << 8) <==> Touches(g, m)
    ensures Meets(Big(a, b, c, d, e, f, g, h), m as bv64) <==> Touches(h, m)
  {
  }

  lemma ByteTouches(q: seq<bv8>, i: nat, m: bv8)
    requires |q| == 8 && i < 8
    ensures Meets(Shifted(q, 8), Place(i, m)) <==> Touches(q[i], m)
  {
    hide Meets;
    hide Touches;
    hide Big;
    hide Shifted;
    Loaded(q);
    TouchingHigh(q[0], q[1], q[2], q[3], q[4], q[5], q[6], q[7], m);
    TouchingLow(q[0], q[1], q[2], q[3], q[4], q[5], q[6], q[7], m);
  }

  /** A bit of the word is the bit of the byte it came from. */
  lemma WordBit(q: seq<bv8>, i: nat, j: nat)
    requires |q| == 8 && i < 8 && j < 8
    ensures Meets(Shifted(q, 8), Place(i, Mask(j))) <==> Has(q[i], j)
  {
    hide *;
    ByteTouches(q, i, Mask(j));
    HasIs(q[i], j);
  }

  lemma HasIs(b: bv8, j: nat)
    requires j < 8
    ensures Has(b, j) <==> Touches(b, Mask(j))
  {
    hide Mask;
  }

  lemma NextPlace(i: nat, j: nat)
    requires i < 8 && j < 8
    ensures Place(i, Mask(j)) != 0
    ensures Place(i, Mask(j)) >> 1 ==
            if j < 7 then Place(i, Mask(j + 1)) else if i < 7 then Place(i + 1, Mask(0)) else 0
  {
  }

  // ---- The search ----

  /** No wanted bit is in the bytes before `c`. */
  ghost predicate Skipped(s: seq<bv8>, bit: bool, c: nat) {
    c <= |s| && forall i :: 0 <= i < c ==> s[i] == Skip(bit)
  }

  lemma SkippedBits(s: seq<bv8>, bit: bool, c: nat, k: nat)
    requires Skipped(s, bit, c) && k < 8 * c
    ensures Padded(s, k) != bit
  {
    assert k / 8 < c;
    SkipByte(s[k / 8], bit, k % 8);
    hide Has;
  }

  /** The last eight bytes looked at, zero past the end. */
  function Window(s: seq<bv8>, c: nat): (q: seq<bv8>)
    requires c <= |s|
    ensures |q| == 8
  {
    seq(8, i requires 0 <= i < 8 && c <= |s| => if c + i < |s| then s[c + i] else 0)
  }

  /** Bit `k` of the eight bytes. */
  predicate WindowBit(q: seq<bv8>, k: nat)
    requires |q| == 8 && k < 64
  {
    Has(q[k / 8], k % 8)
  }

  lemma ZeroHas(j: nat)
    requires j < 8
    ensures !Has(0, j)
  {
  }

  lemma WindowPadded(s: seq<bv8>, c: nat, k: nat)
    requires c <= |s| && k < 64
    ensures WindowBit(Window(s, c), k) == Padded(s, 8 * c + k)
  {
    assert (8 * c + k) / 8 == c + k / 8 && (8 * c + k) % 8 == k % 8;
    ZeroHas(k % 8);
    hide Has;
  }

  /** The words and bytes are skipped, and what is left is short or has a wanted bit. */
  ghost predicate Stopped(s: seq<bv8>, bit: bool, c: nat) {
    Skipped(s, bit, c) && (|s| - c < 8 || !AllSkip(Window(s, c), bit))
  }

  /** There is a wanted bit in the window, unless it is a set bit that is wanted and the rest is zeros. */
  lemma WantedBit(s: seq<bv8>, bit: bool, c: nat) returns (k: nat)
    requires Stopped(s, bit, c) && !(bit && AllSkip(Window(s, c), true))
    ensures k < 64 && WindowBit(Window(s, c), k) == bit
  {
    var q := Window(s, c);
    hide Has;
    assert |s| - c < 8 ==> q[7] == 0;
    var i :| 0 <= i < 8 && q[i] != Skip(bit);
    var j := WantedIn(q[i], bit);
    k := 8 * i + j;
    assert k / 8 == i && k % 8 == j;
  }

  lemma NoneSet(s: seq<bv8>, c: nat)
    requires Stopped(s, true, c) && AllSkip(Window(s, c), true)
    ensures FirstAt(s, true, -1)
  {
    hide Bit;
    assert Skipped(s, true, |s|) by {
      forall i | 0 <= i < |s| ensures s[i] == Skip(true) {
        if i >= c {
          assert Window(s, c)[i - c] == s[i];
        }
      }
    }
    forall k | 0 <= k < 8 * |s| ensures !Bit(s, k) {
      SkippedBits(s, true, |s|, k);
    }
  }

  lemma Found(s: seq<bv8>, bit: bool, c: nat, k: nat)
    requires Skipped(s, bit, c) && k < 64 && WindowBit(Window(s, c), k) == bit
    requires forall x :: 0 <= x < k ==> WindowBit(Window(s, c), x) != bit
    ensures FirstAt(s, bit, 8 * c + k)
  {
    hide Bit;
    hide Window;
    hide WindowBit;
    WindowPadded(s, c, k);
    forall x | 0 <= x < 8 * c + k ensures Padded(s, x) != bit {
      if x < 8 * c {
        SkippedBits(s, bit, c, x);
      } else {
        WindowPadded(s, c, x - 8 * c);
      }
    }
    assert !Padded(s, 8 * |s|);
  }

  /** The loops over bytes and over words (bitops.c:138-156). */
  method SkipAhead(s: seq<bv8>, bit: bool, address: nat) returns (c: nat)
    ensures Stopped(s, bit, c)
  {
    c := 0;
    var count: nat := |s|;
    hide Load;
    while (address + c) % 8 != 0 && count > 0
      invariant c + count == |s| && Skipped(s, bit, c)
      decreases count
    {
      if s[c] != Skip(bit) {
        break;
      }
      c, count := c + 1, count - 1;
    }
    while count >= 8
      invariant c + count == |s| && Skipped(s, bit, c)
    {
      LoadSkips(s[c..c + 8], bit);
      assert Window(s, c) == s[c..c + 8];
      if Load(s[c..c + 8]) != SkipWord(bit) {
        break;
      }
      NextSkipped(s, bit, c);
      c, count := c + 8, count - 8;
    }
  }

  lemma NextSkipped(s: seq<bv8>, bit: bool, c: nat)
    requires Skipped(s, bit, c) && c + 8 <= |s| && AllSkip(s[c..c + 8], bit)
    ensures Skipped(s, bit, c + 8)
  {
    forall i | 0 <= i < c + 8 ensures s[i] == Skip(bit) {
      if i >= c {
        assert s[c..c + 8][i - c] == s[i];
      }
    }
  }

  /** The loop that loads the last word (bitops.c:165-173). */
  method LoadLast(s: seq<bv8>, c: nat) returns (word: bv64)
    requires c <= |s|
    ensures word == Shifted(Window(s, c), 8)
  {
    word := 0;
    var j, p := 0, c;
    ghost var q := Window(s, c);
    hide ShiftIn;
    while j < 8
      invariant j <= 8 && p == (if c + j < |s| then c + j else |s|) && word == Shifted(q, j)
    {
      if p < |s| {
        word := ShiftIn(word, s[p]);
        p := p + 1;
      } else {
        word := ShiftIn(word, 0);
      }
      j := j + 1;
    }
  }

  /** Bit `k` of a word, the highest first; 0 past the lowest. */
  function One(k: nat): bv64
    requires k <= 64
  {
    if k == 64 then 0 else Place(k / 8, Mask(k % 8))
  }

  lemma NextOne(k: nat)
    requires k < 64
    ensures One(k) != 0 && One(k) >> 1 == One(k + 1)
  {
    NextPlace(k / 8, k % 8);
    NextIndex(k);
    hide Place;
    hide Mask;
  }

  lemma OneMeets(q: seq<bv8>, k: nat)
    requires |q| == 8 && k < 64
    ensures Meets(Shifted(q, 8), One(k)) <==> WindowBit(q, k)
  {
    WordBit(q, k / 8, k % 8);
    hide Meets;
    hide Shifted;
    hide Place;
    hide Mask;
    hide Has;
  }

  /** Bit `k` of the word, and no wanted bit before. */
  ghost predicate Scanning(q: seq<bv8>, bit: bool, k: nat, one: bv64) {
    && |q| == 8 && k <= 64 && one == One(k)
    && forall x :: 0 <= x < k ==> WindowBit(q, x) != bit
  }

  lemma ScanStarts(q: seq<bv8>, bit: bool)
    requires |q| == 8
    ensures Scanning(q, bit, 0, 0x8000_0000_0000_0000)
  {
  }

  lemma ScanStep(q: seq<bv8>, bit: bool, k: nat, one: bv64)
    requires Scanning(q, bit, k, one) && one != 0
    ensures |q| == 8 && k < 64 && (Meets(Shifted(q, 8), one) <==> WindowBit(q, k))
    ensures WindowBit(q, k) != bit ==> Scanning(q, bit, k + 1, one >> 1)
    ensures forall x :: 0 <= x < k ==> WindowBit(q, x) != bit
  {
    hide Meets;
    hide Shifted;
    hide WindowBit;
    hide Place;
    assert k < 64;
    hide One;
    OneMeets(q, k);
    NextOne(k);
  }

  lemma NextIndex(k: nat)
    ensures if k % 8 < 7 then (k + 1) / 8 == k / 8 && (k + 1) % 8 == k % 8 + 1
            else (k + 1) / 8 == k / 8 + 1 && (k + 1) % 8 == 0
  {
  }

  lemma ScanGoesOn(q: seq<bv8>, bit: bool, k: nat, one: bv64, hit: nat)
    requires Scanning(q, bit, k, one) && hit < 64 && WindowBit(q, hit) == bit
    ensures one != 0 && k <= hit
  {
    hide One;
    hide WindowBit;
    if k < 64 {
      NextOne(k);
    }
  }

  /** The scan of the last word (bitops.c:186-198); it never gets past the last bit. */
  method ScanWord(word: bv64, bit: bool, pos0: int, ghost q: seq<bv8>, ghost hit: nat) returns (pos: int, ghost k: nat)
    requires |q| == 8 && word == Shifted(q, 8) && hit < 64 && WindowBit(q, hit) == bit
    ensures k < 64 && pos == pos0 + k && WindowBit(q, k) == bit
    ensures forall x :: 0 <= x < k ==> WindowBit(q, x) != bit
  {
    var one: bv64 := 0x8000_0000_0000_0000;
    pos, k := pos0, 0;
    hide *;
    ScanStarts(q, bit);
    ScanGoesOn(q, bit, k, one, hit);
    while one != 0
      invariant k <= 64 && pos == pos0 + k && Scanning(q, bit, k, one) && one != 0
      decreases 64 - k
    {
      ScanStep(q, bit, k, one);
      if Meets(word, one) == bit {
        return;
      }
      pos := pos + 1;
      one := one >> 1;
      k := k + 1;
      ScanGoesOn(q, bit, k, one, hit);
    }
    assert false;
  }

  /** `redisBitpos` (bitops.c:122-200) of the bytes at an address. */
  method RedisBitpos(s: seq<bv8>, bit: bool, address: nat) returns (pos: int)
    ensures FirstAt(s, bit, pos)
  {
    var c := SkipAhead(s, bit, address);
    StoppedWithin(s, bit, c);
    ghost var q := Window(s, c);
    hide *;
    var word := LoadLast(s, c);
    WordZero(q);
    if bit && word == 0 {
      NoneSet(s, c);
      return -1;
    }
    ghost var hit := WantedBit(s, bit, c);
    ghost var k;
    pos, k := ScanWord(word, bit, 8 * c, q, hit);
    Found(s, bit, c, k);
  }

  lemma StoppedWithin(s: seq<bv8>, bit: bool, c: nat)
    requires Stopped(s, bit, c)
    ensures c <= |s| && Skipped(s, bit, c)
  {
  }

  lemma WordZero(q: seq<bv8>)
    requires |q| == 8
    ensures Shifted(q, 8) == 0 <==> AllSkip(q, true)
  {
    Loaded(q);
    BigZero(q[0], q[1], q[2], q[3], q[4], q[5], q[6], q[7]);
    hide Shifted;
    hide Big;
  }

  lemma BigZero(a: bv8, b: bv8, c: bv8, d: bv8, e: bv8, f: bv8, g: bv8, h: bv8)
    ensures Big(a, b, c, d, e, f, g, h) == 0 <==>
            a == 0 && b == 0 && c == 0 && d == 0 && e == 0 && f == 0 && g == 0 && h == 0
  {
  }
}
