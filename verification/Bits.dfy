/** Bits in bytes and in strings, the naive way: one bit at a time, the first bit of a byte its highest. */
module Bits {
  /** The byte with only bit `j` from the left set. */
  function Mask(j: nat): bv8
    requires j < 8
  {
    if j == 0 then 0x80 else if j == 1 then 0x40 else if j == 2 then 0x20 else if j == 3 then 0x10
    else if j == 4 then 0x08 else if j == 5 then 0x04 else if j == 6 then 0x02 else 0x01
  }

  predicate Has(b: bv8, j: nat)
    requires j < 8
  {
    b & Mask(j) != 0
  }

  /** Bit `k` of a string. */
  predicate Bit(s: seq<bv8>, k: nat)
    requires k < 8 * |s|
  {
    Has(s[k / 8], k % 8)
  }

  /** Bit `k` of the string, zero past its end. */
  predicate Padded(s: seq<bv8>, k: nat) { k < 8 * |s| && Bit(s, k) }

  /** The bits of a byte determine it. */
  lemma SameBits(a: bv8, b: bv8)
    requires forall j :: 0 <= j < 8 ==> (Has(a, j) <==> Has(b, j))
    ensures a == b
  {
    assert Has(a, 0) == Has(b, 0) && Has(a, 1) == Has(b, 1) && Has(a, 2) == Has(b, 2) && Has(a, 3) == Has(b, 3);
    assert Has(a, 4) == Has(b, 4) && Has(a, 5) == Has(b, 5) && Has(a, 6) == Has(b, 6) && Has(a, 7) == Has(b, 7);
  }

  /** How many of the first `n` bits are set. */
  function Count(s: seq<bv8>, n: nat): nat
    requires n <= 8 * |s|
  {
    if n == 0 then 0 else Count(s, n - 1) + if Bit(s, n - 1) then 1 else 0
  }

  /** How many bits of a byte are set. */
  function Ones(b: bv8): (n: nat)
    ensures n <= 8
  {
    OnesIn(b, 8)
  }

  function OnesIn(b: bv8, j: nat): (n: nat)
    requires j <= 8
    ensures n <= j
  {
    if j == 0 then 0 else OnesIn(b, j - 1) + if Has(b, j - 1) then 1 else 0
  }

  lemma {:induction false} CountInByte(s: seq<bv8>, k: nat, j: nat)
    requires k < |s| && j <= 8
    ensures Count(s, 8 * k + j) == Count(s, 8 * k) + OnesIn(s[k], j)
    decreases j
  {
    if j > 0 {
      CountInByte(s, k, j - 1);
      assert (8 * k + j - 1) / 8 == k && (8 * k + j - 1) % 8 == j - 1;
      hide Has;
    }
  }

  /** Bytes can be counted one at a time. */
  lemma CountByte(s: seq<bv8>, k: nat)
    requires k < |s|
    ensures Count(s, 8 * (k + 1)) == Count(s, 8 * k) + Ones(s[k])
  {
    hide Count;
    hide OnesIn;
    CountInByte(s, k, 8);
    assert 8 * (k + 1) == 8 * k + 8;
  }

  /** The set bits, as positions. */
  ghost function Positions(s: seq<bv8>, n: nat): set<nat>
    requires n <= 8 * |s|
  {
    set k: nat | k < n && Bit(s, k)
  }

  /** The count is the number of positions whose bit is set. */
  lemma {:induction false} CountIsSize(s: seq<bv8>, n: nat)
    requires n <= 8 * |s|
    ensures Count(s, n) == |Positions(s, n)|
    decreases n
  {
    hide Bit;
    if n > 0 {
      CountIsSize(s, n - 1);
      var more := if Bit(s, n - 1) then {n - 1} else {};
      assert Positions(s, n) == Positions(s, n - 1) + more;
      assert n - 1 !in Positions(s, n - 1);
    }
  }
}

/** Words of eight bytes in memory. */
module WordBytes {
  function Word(a: bv8, b: bv8, c: bv8, d: bv8, e: bv8, f: bv8, g: bv8, h: bv8): bv64 {
    (a as bv64) | ((b as bv64) << 8) | ((c as bv64) << 16) | ((d as bv64) << 24)
    | ((e as bv64) << 32) | ((f as bv64) << 40) | ((g as bv64) << 48) | ((h as bv64) << 56)
  }

  /** The word at eight bytes, the first one lowest. */
  function Load(q: seq<bv8>): bv64
    requires |q| == 8
  {
    Word(q[0], q[1], q[2], q[3], q[4], q[5], q[6], q[7])
  }

  /** Byte `k` of a word. */
  function ByteOf(w: bv64, k: nat): bv8
    requires k < 8
  {
    if k == 0 then (w & 0xFF) as bv8 else if k == 1 then ((w >> 8) & 0xFF) as bv8
    else if k == 2 then ((w >> 16) & 0xFF) as bv8 else if k == 3 then ((w >> 24) & 0xFF) as bv8
    else if k == 4 then ((w >> 32) & 0xFF) as bv8 else if k == 5 then ((w >> 40) & 0xFF) as bv8
    else if k == 6 then ((w >> 48) & 0xFF) as bv8 else (w >> 56) as bv8
  }

  lemma LowBytes(a: bv8, b: bv8, c: bv8, d: bv8, e: bv8, f: bv8, g: bv8, h: bv8)
    ensures ByteOf(Word(a, b, c, d, e, f, g, h), 0) == a && ByteOf(Word(a, b, c, d, e, f, g, h), 1) == b
    ensures ByteOf(Word(a, b, c, d, e, f, g, h), 2) == c && ByteOf(Word(a, b, c, d, e, f, g, h), 3) == d
  {
  }

  lemma HighBytes(a: bv8, b: bv8, c: bv8, d: bv8, e: bv8, f: bv8, g: bv8, h: bv8)
    ensures ByteOf(Word(a, b, c, d, e, f, g, h), 4) == e && ByteOf(Word(a, b, c, d, e, f, g, h), 5) == f
    ensures ByteOf(Word(a, b, c, d, e, f, g, h), 6) == g && ByteOf(Word(a, b, c, d, e, f, g, h), 7) == h
  {
  }

  /** Storing a word that was loaded gives the bytes back. */
  lemma StoreLoad(q: seq<bv8>, k: nat)
    requires |q| == 8 && k < 8
    ensures ByteOf(Load(q), k) == q[k]
  {
    hide Word;
    hide ByteOf;
    LowBytes(q[0], q[1], q[2], q[3], q[4], q[5], q[6], q[7]);
    HighBytes(q[0], q[1], q[2], q[3], q[4], q[5], q[6], q[7]);
  }
}
