/** `redisPopcount` of bitops.c: a table for bytes, and seven words at a time by adding fields in place. */
module Popcount {
  import opened Bits
  import opened SmallBytes

  function Pick(l: bv8, c0: bv8, c1: bv8, c2: bv8, c3: bv8, c4: bv8, c5: bv8, c6: bv8, c7: bv8,
                c8: bv8, c9: bv8, c10: bv8, c11: bv8, c12: bv8, c13: bv8, c14: bv8, c15: bv8): bv8
  {
    if l == 0 then c0 else if l == 1 then c1 else if l == 2 then c2 else if l == 3 then c3
    else if l == 4 then c4 else if l == 5 then c5 else if l == 6 then c6 else if l == 7 then c7
    else if l == 8 then c8 else if l == 9 then c9 else if l == 10 then c10 else if l == 11 then c11
    else if l == 12 then c12 else if l == 13 then c13 else if l == 14 then c14 else c15
  }

  /** `bitsinbyte`, sixteen to a row. */
  function BitsInByte(b: bv8): bv8 {
    var h, l := b >> 4, b & 0x0F;
    if h == 0 then Pick(l, 0, 1, 1, 2, 1, 2, 2, 3, 1, 2, 2, 3, 2, 3, 3, 4)
    else if h == 1 then Pick(l, 1, 2, 2, 3, 2, 3, 3, 4, 2, 3, 3, 4, 3, 4, 4, 5)
    else if h == 2 then Pick(l, 1, 2, 2, 3, 2, 3, 3, 4, 2, 3, 3, 4, 3, 4, 4, 5)
    else if h == 3 then Pick(l, 2, 3, 3, 4, 3, 4, 4, 5, 3, 4, 4, 5, 4, 5, 5, 6)
    else if h == 4 then Pick(l, 1, 2, 2, 3, 2, 3, 3, 4, 2, 3, 3, 4, 3, 4, 4, 5)
    else if h == 5 then Pick(l, 2, 3, 3, 4, 3, 4, 4, 5, 3, 4, 4, 5, 4, 5, 5, 6)
    else if h == 6 then Pick(l, 2, 3, 3, 4, 3, 4, 4, 5, 3, 4, 4, 5, 4, 5, 5, 6)
    else if h == 7 then Pick(l, 3, 4, 4, 5, 4, 5, 5, 6, 4, 5, 5, 6, 5, 6, 6, 7)
    else if h == 8 then Pick(l, 1, 2, 2, 3, 2, 3, 3, 4, 2, 3, 3, 4, 3, 4, 4, 5)
    else if h == 9 then Pick(l, 2, 3, 3, 4, 3, 4, 4, 5, 3, 4, 4, 5, 4, 5, 5, 6)
    else if h == 10 then Pick(l, 2, 3, 3, 4, 3, 4, 4, 5, 3, 4, 4, 5, 4, 5, 5, 6)
    else if h == 11 then Pick(l, 3, 4, 4, 5, 4, 5, 5, 6, 4, 5, 5, 6, 5, 6, 6, 7)
    else if h == 12 then Pick(l, 2, 3, 3, 4, 3, 4, 4, 5, 3, 4, 4, 5, 4, 5, 5, 6)
    else if h == 13 then Pick(l, 3, 4, 4, 5, 4, 5, 5, 6, 4, 5, 5, 6, 5, 6, 6, 7)
    else if h == 14 then Pick(l, 3, 4, 4, 5, 4, 5, 5, 6, 4, 5, 5, 6, 5, 6, 6, 7)
    else Pick(l, 4, 5, 5, 6, 5, 6, 6, 7, 5, 6, 6, 7, 6, 7, 7, 8)
  }

  // ---- Fields of a byte and of a word ----

  function Pairs(b: bv8): bv8 { (b & 0x55) + ((b >> 1) & 0x55) }

  function Nibbles(b: bv8): bv8 { (b & 0x33) + ((b >> 2) & 0x33) }

  function Whole(b: bv8): bv8 { (b + (b >> 4)) & 0x0F }

  /** The three steps on one byte. */
  function Fields(b: bv8): bv8 { Whole(Nibbles(Pairs(b))) }

  lemma TableIs(b: bv8)
    ensures BitsInByte(b) == Fields(b)
  {
  }

  function Word(a: bv8, b: bv8, c: bv8, d: bv8): bv32 {
    (a as bv32) | ((b as bv32) << 8) | ((c as bv32) << 16) | ((d as bv32) << 24)
  }

  function Plus(x: bv32, y: bv32): bv32 { x + y }

  function Minus(x: bv32, y: bv32): bv32 { x - y }

  function Even(w: bv32): bv32 { w & 0x55555555 }

  function Odd(w: bv32): bv32 { (w >> 1) & 0x55555555 }

  lemma Halves(w: bv32)
    ensures w == ((w & 0x55555555) + ((w >> 1) & 0x55555555)) + ((w >> 1) & 0x55555555)
  {
  }

  lemma HalvesJoin(w: bv32)
    ensures w == Plus(Plus(Even(w), Odd(w)), Odd(w))
  {
    Halves(w);
  }

  lemma TakeBack(y: bv32, u: bv32)
    ensures Minus(y + u, u) == y
  {
  }

  lemma PlusIs(x: bv32, y: bv32)
    ensures Plus(x, y) == x + y
  {
  }

  /** The first step of the source subtracts where it could have added. */
  lemma Subtracting(w: bv32)
    ensures Minus(w, Odd(w)) == Plus(Even(w), Odd(w))
  {
    hide *;
    HalvesJoin(w);
    PlusIs(Plus(Even(w), Odd(w)), Odd(w));
    TakeBack(Plus(Even(w), Odd(w)), Odd(w));
  }

  lemma WordPairs(a: bv8, b: bv8, c: bv8, d: bv8)
    ensures var w := Word(a, b, c, d); Plus(Even(w), Odd(w)) == Word(Pairs(a), Pairs(b), Pairs(c), Pairs(d))
  {
  }

  lemma WordNibbles(a: bv8, b: bv8, c: bv8, d: bv8)
    ensures var w := Word(a, b, c, d);
      (w & 0x33333333) + ((w >> 2) & 0x33333333) == Word(Nibbles(a), Nibbles(b), Nibbles(c), Nibbles(d))
  {
  }

  lemma WordWhole(a: bv8, b: bv8, c: bv8, d: bv8)
    requires a & 0x88 == 0 && b & 0x88 == 0 && c & 0x88 == 0 && d & 0x88 == 0
    ensures var w := Word(a, b, c, d);
      (w + (w >> 4)) & 0x0F0F0F0F == Word(Whole(a), Whole(b), Whole(c), Whole(d))
  {
  }

  lemma NibblesSmall(b: bv8)
    ensures Nibbles(Pairs(b)) & 0x88 == 0
  {
  }

  /** What the source does to each of its seven words. */
  function Step1(w: bv32): bv32 { w - ((w >> 1) & 0x55555555) }

  lemma Step1Minus(w: bv32)
    ensures Step1(w) == Minus(w, Odd(w))
  {
  }

  function Step2(w: bv32): bv32 { (w & 0x33333333) + ((w >> 2) & 0x33333333) }

  function Step3(w: bv32): bv32 { (w + (w >> 4)) & 0x0F0F0F0F }

  lemma WordFields(a: bv8, b: bv8, c: bv8, d: bv8)
    ensures Step3(Step2(Step1(Word(a, b, c, d)))) == Word(Fields(a), Fields(b), Fields(c), Fields(d))
  {
    Step1Is(a, b, c, d);
    Step2Is(Pairs(a), Pairs(b), Pairs(c), Pairs(d));
    Step3Is(a, b, c, d);
    hide Step1;
    hide Step2;
    hide Step3;
    hide Pairs;
    hide Nibbles;
    hide Whole;
    hide Word;
  }

  lemma Step1Is(a: bv8, b: bv8, c: bv8, d: bv8)
    ensures Step1(Word(a, b, c, d)) == Word(Pairs(a), Pairs(b), Pairs(c), Pairs(d))
  {
    hide *;
    Step1Minus(Word(a, b, c, d));
    Subtracting(Word(a, b, c, d));
    WordPairs(a, b, c, d);
  }

  lemma Step2Is(a: bv8, b: bv8, c: bv8, d: bv8)
    ensures Step2(Word(a, b, c, d)) == Word(Nibbles(a), Nibbles(b), Nibbles(c), Nibbles(d))
  {
    WordNibbles(a, b, c, d);
    hide Word;
    hide Nibbles;
  }

  lemma Step3Is(a: bv8, b: bv8, c: bv8, d: bv8)
    ensures Step3(Word(Nibbles(Pairs(a)), Nibbles(Pairs(b)), Nibbles(Pairs(c)), Nibbles(Pairs(d)))) ==
            Word(Fields(a), Fields(b), Fields(c), Fields(d))
  {
    NibblesSmall(a);
    NibblesSmall(b);
    NibblesSmall(c);
    NibblesSmall(d);
    hide Pairs;
    hide Nibbles;
    WordWhole(Nibbles(Pairs(a)), Nibbles(Pairs(b)), Nibbles(Pairs(c)), Nibbles(Pairs(d)));
    hide Word;
    hide Whole;
  }

  // ---- Adding words field by field ----

  function Add8(a: bv8, b: bv8): bv8 { a + b }

  function Wide(a: bv8): bv32 { a as bv32 }

  predicate AtMost(b: bv8, n: bv8) { b <= n }

  lemma RawAdd(a: bv8, b: bv8, c: bv8, d: bv8, e: bv8, f: bv8, g: bv8, h: bv8)
    requires a <= 127 && b <= 127 && c <= 127 && e <= 127 && f <= 127 && g <= 127
    ensures Word(a, b, c, d) + Word(e, f, g, h) == Word(a + e, b + f, c + g, d + h)
  {
  }

  /** Words whose fields have room are added field by field. */
  lemma AddWords(a: bv8, b: bv8, c: bv8, d: bv8, e: bv8, f: bv8, g: bv8, h: bv8)
    requires AtMost(a, 112) && AtMost(b, 112) && AtMost(c, 112)
    requires AtMost(e, 112) && AtMost(f, 112) && AtMost(g, 112)
    ensures Plus(Word(a, b, c, d), Word(e, f, g, h)) == Word(Add8(a, e), Add8(b, f), Add8(c, g), Add8(d, h))
  {
    hide Word;
    RawAdd(a, b, c, d, e, f, g, h);
  }

  /** `(w * 0x01010101) >> 24`. */
  function Gather(w: bv32): bv32 { (w * 0x01010101) >> 24 }

  // The multiplication is by 0x101 and then by 0x10001.

  function Once(w: bv32): bv32 { w * 0x101 }

  function Again(u: bv32): bv32 { (u * 0x10001) >> 24 }

  lemma GatherIs(w: bv32)
    ensures Gather(w) == Again(w * 0x101)
  {
  }

  lemma OnceIs(w: bv32)
    ensures Once(w) == w * 0x101
  {
  }

  lemma OncePlus(w: bv32)
    ensures Once(w) == Plus(w, w << 8)
  {
  }

  function Up8(w: bv32): bv32 { w << 8 }

  lemma Up8Def(w: bv32)
    ensures Up8(w) == w << 8
  {
  }

  lemma Up8Is(a: bv8, b: bv8, c: bv8, d: bv8)
    ensures Up8(Word(a, b, c, d)) == Word(0, a, b, c)
  {
  }

  lemma AgainIs(a: bv8, b: bv8, c: bv8, d: bv8)
    requires AtMost(a, 56) && AtMost(b, 112) && AtMost(c, 112)
    ensures Again(Word(a, b, c, d)) == Wide(Add8(d, b))
  {
  }

  lemma SmallSum(a: bv8, b: bv8)
    requires AtMost(a, 56) && AtMost(b, 56)
    ensures AtMost(Add8(a, b), 112) && AtMost(a, 112) && AtMost(b, 112)
  {
  }

  lemma AddNone(a: bv8)
    ensures Add8(a, 0) == a && AtMost(0, 112)
  {
  }

  /** The multiplication puts the sum of the four fields on top. */
  lemma TopSum(a: bv8, b: bv8, c: bv8, d: bv8)
    requires AtMost(a, 56) && AtMost(b, 56) && AtMost(c, 56)
    ensures Gather(Word(a, b, c, d)) == Wide(Add8(Add8(d, c), Add8(b, a)))
  {
    hide *;
    var w := Word(a, b, c, d);
    GatherIs(w);
    OnceIs(w);
    OncePlus(w);
    Up8Def(w);
    Up8Is(a, b, c, d);
    AddNone(a);
    SmallSum(b, a);
    SmallSum(c, b);
    AddWords(a, b, c, d, 0, a, b, c);
    AgainIs(a, Add8(b, a), Add8(c, b), Add8(d, c));
  }

  // ---- Fields as numbers ----

  /** The set bits among the first `j`, counted in a byte. */
  ghost function BitsByte(b: bv8, j: nat): bv8
    requires j <= 8
  {
    if j == 0 then 0 else BitsByte(b, j - 1) + if Has(b, j - 1) then 1 else 0
  }

  lemma {:induction false} BitsByteNat(b: bv8, j: nat)
    requires j <= 8
    ensures BitsByte(b, j) as nat == OnesIn(b, j)
    decreases j
  {
    hide Has;
    if j > 0 {
      BitsByteNat(b, j - 1);
      OneMore(BitsByte(b, j - 1));
    }
  }

  function Unit(b: bv8, m: bv8): bv8 { if b & m != 0 then 1 else 0 }

  function Units(b: bv8): bv8 {
    Add8(Add8(Add8(Add8(Add8(Add8(Add8(Unit(b, 0x80), Unit(b, 0x40)), Unit(b, 0x20)), Unit(b, 0x10)), Unit(b, 0x08)),
                   Unit(b, 0x04)), Unit(b, 0x02)), Unit(b, 0x01))
  }

  lemma BitStep(b: bv8, j: nat)
    requires j < 8
    ensures BitsByte(b, j + 1) == Add8(BitsByte(b, j), Unit(b, Mask(j)))
  {
  }

  lemma FirstBit(b: bv8)
    ensures BitsByte(b, 1) == Unit(b, 0x80)
  {
  }

  lemma Masks()
    ensures Mask(1) == 0x40 && Mask(2) == 0x20 && Mask(3) == 0x10 && Mask(4) == 0x08 && Mask(5) == 0x04
    ensures Mask(6) == 0x02 && Mask(7) == 0x01
  {
  }

  lemma UnitsAre(b: bv8)
    ensures BitsByte(b, 8) == Units(b)
  {
    UnitsIs(b);
    hide *;
    Masks();
    FirstBit(b);
    BitStep(b, 1);
    BitStep(b, 2);
    BitStep(b, 3);
    BitStep(b, 4);
    BitStep(b, 5);
    BitStep(b, 6);
    BitStep(b, 7);
  }

  lemma UnitsIs(b: bv8)
    ensures Units(b) ==
            Add8(Add8(Add8(Add8(Add8(Add8(Add8(Unit(b, 0x80), Unit(b, 0x40)), Unit(b, 0x20)), Unit(b, 0x10)),
                                Unit(b, 0x08)), Unit(b, 0x04)), Unit(b, 0x02)), Unit(b, 0x01))
  {
    hide Unit;
    hide Add8;
  }

  lemma FieldsUnits(b: bv8)
    ensures Fields(b) == Units(b)
  {
  }

  /** The three steps count the set bits of a byte. */
  lemma FieldsNat(b: bv8)
    ensures Fields(b) as nat == Ones(b)
  {
    hide *;
    FieldsUnits(b);
    UnitsAre(b);
    BitsByteNat(b, 8);
    OnesIs(b);
  }

  lemma OnesIs(b: bv8)
    ensures Ones(b) == OnesIn(b, 8)
  {
  }

  lemma TableNat(b: bv8)
    ensures BitsInByte(b) as nat == Ones(b)
  {
    hide *;
    TableIs(b);
    FieldsNat(b);
  }

  lemma {:induction false} AddNat(a: bv8, b: bv8)
    requires a as nat + b as nat < 256
    ensures Add8(a, b) as nat == a as nat + b as nat
    decreases b as nat
  {
    if b != 0 {
      OneLess(b);
      AddNat(a, b - 1);
      OneMore(Add8(a, b - 1));
      NextSum(a, b);
    }
  }

  lemma OneLess(b: bv8)
    requires b != 0
    ensures (b - 1) as nat + 1 == b as nat
  {
  }

  lemma NextSum(a: bv8, b: bv8)
    ensures Add8(a, b) == Add8(a, b - 1) + 1
  {
  }

  lemma AtMostNat(b: bv8)
    ensures b as nat <= 56 ==> AtMost(b, 56)
    ensures b as nat <= 112 ==> AtMost(b, 112)
  {
  }

  // ---- Seven words at once ----

  /** What the source makes of word `i` of the block: a count in each of its four bytes. */
  function Lanes(p: seq<bv8>, i: nat): bv32
    requires 4 * i + 4 <= |p|
  {
    Step3(Step2(Step1(Word(p[4 * i], p[4 * i + 1], p[4 * i + 2], p[4 * i + 3]))))
  }

  /** The sum of the first `n` of them, from the left. */
  ghost function Total(p: seq<bv8>, n: nat): bv32
    requires 0 < n && 4 * n <= |p|
  {
    if n == 1 then Lanes(p, 0) else Plus(Total(p, n - 1), Lanes(p, n - 1))
  }

  /** Its byte `k`. */
  ghost function Lane(p: seq<bv8>, k: nat, n: nat): bv8
    requires k < 4 && 0 < n && 4 * n <= |p|
  {
    if n == 1 then Fields(p[k]) else Add8(Lane(p, k, n - 1), Fields(p[4 * (n - 1) + k]))
  }

  /** The number it should be. */
  ghost function LaneOnes(p: seq<bv8>, k: nat, n: nat): (r: nat)
    requires k < 4 && 4 * n <= |p|
    ensures r <= 8 * n
  {
    if n == 0 then 0 else LaneOnes(p, k, n - 1) + Ones(p[4 * (n - 1) + k])
  }

  lemma {:induction false} LaneNat(p: seq<bv8>, k: nat, n: nat)
    requires k < 4 && 0 < n <= 7 && 4 * n <= |p|
    ensures Lane(p, k, n) as nat == LaneOnes(p, k, n)
    ensures n <= 7 ==> AtMost(Lane(p, k, n), 56) && AtMost(Lane(p, k, n), 112)
    decreases n
  {
    hide Fields;
    hide Ones;
    hide Add8;
    hide AtMost;
    FieldsNat(p[4 * (n - 1) + k]);
    if n > 1 {
      LaneNat(p, k, n - 1);
      AddNat(Lane(p, k, n - 1), Fields(p[4 * (n - 1) + k]));
    } else {
      assert LaneOnes(p, k, 0) == 0;
    }
    AtMostNat(Lane(p, k, n));
  }

  lemma {:induction false} TotalIs(p: seq<bv8>, n: nat)
    requires 0 < n <= 7 && 4 * n <= |p|
    ensures Total(p, n) == Word(Lane(p, 0, n), Lane(p, 1, n), Lane(p, 2, n), Lane(p, 3, n))
    decreases n
  {
    hide Fields;
    hide Word;
    hide Plus;
    hide Add8;
    hide AtMost;
    hide Step1;
    hide Step2;
    hide Step3;
    var j := 4 * (n - 1);
    WordFields(p[j], p[j + 1], p[j + 2], p[j + 3]);
    if n > 1 {
      TotalIs(p, n - 1);
      LaneNat(p, 0, n - 1);
      LaneNat(p, 1, n - 1);
      LaneNat(p, 2, n - 1);
      FieldsSmall(p[j]);
      FieldsSmall(p[j + 1]);
      FieldsSmall(p[j + 2]);
      AddWords(Lane(p, 0, n - 1), Lane(p, 1, n - 1), Lane(p, 2, n - 1), Lane(p, 3, n - 1),
               Fields(p[j]), Fields(p[j + 1]), Fields(p[j + 2]), Fields(p[j + 3]));
    }
  }

  lemma FieldsSmall(b: bv8)
    ensures AtMost(Fields(b), 112)
  {
    hide Fields;
    FieldsNat(b);
    AtMostNat(Fields(b));
  }

  lemma WideNat(b: bv8)
    ensures Wide(b) as nat == b as nat
  {
  }

  /** The block count is the number of set bits of the 28 bytes. */
  lemma BlockIs(p: seq<bv8>)
    requires |p| == 28
    ensures Gather(Total(p, 7)) as nat == LaneOnes(p, 0, 7) + LaneOnes(p, 1, 7) + LaneOnes(p, 2, 7) + LaneOnes(p, 3, 7)
  {
    hide *;
    TotalIs(p, 7);
    LaneNat(p, 0, 7);
    LaneNat(p, 1, 7);
    LaneNat(p, 2, 7);
    LaneNat(p, 3, 7);
    var a, b, c, d := Lane(p, 0, 7), Lane(p, 1, 7), Lane(p, 2, 7), Lane(p, 3, 7);
    TopSum(a, b, c, d);
    AddNat(d, c);
    AddNat(b, a);
    AddNat(Add8(d, c), Add8(b, a));
    WideNat(Add8(Add8(d, c), Add8(b, a)));
  }

  lemma {:induction false} CountWords(s: seq<bv8>, i: nat, p: seq<bv8>, n: nat)
    requires i + |p| <= |s| && p == s[i..i + |p|] && 4 * n <= |p|
    ensures Count(s, 8 * (i + 4 * n)) ==
            Count(s, 8 * i) + LaneOnes(p, 0, n) + LaneOnes(p, 1, n) + LaneOnes(p, 2, n) + LaneOnes(p, 3, n)
    decreases n
  {
    hide *;
    LaneStep(p, n);
    if n > 0 {
      var j := 4 * (n - 1);
      CountWords(s, i, p, n - 1);
      CountByte(s, i + j);
      CountByte(s, i + j + 1);
      CountByte(s, i + j + 2);
      CountByte(s, i + j + 3);
    }
  }

  lemma LaneStep(p: seq<bv8>, n: nat)
    requires 4 * n <= |p|
    ensures forall k :: 0 <= k < 4 ==>
              LaneOnes(p, k, n) == if n == 0 then 0 else LaneOnes(p, k, n - 1) + Ones(p[4 * (n - 1) + k])
  {
    hide Ones;
  }

  /** The body of the loop over blocks (bitops.c:75-108). */
  method CountBlock(p: seq<bv8>) returns (bits: nat)
    requires |p| == 28
    ensures bits == LaneOnes(p, 0, 7) + LaneOnes(p, 1, 7) + LaneOnes(p, 2, 7) + LaneOnes(p, 3, 7)
  {
    BlockIs(p);
    TotalSeven(p);
    hide *;
    var aux1 := Lanes(p, 0);
    var aux2 := Lanes(p, 1);
    var aux3 := Lanes(p, 2);
    var aux4 := Lanes(p, 3);
    var aux5 := Lanes(p, 4);
    var aux6 := Lanes(p, 5);
    var aux7 := Lanes(p, 6);
    bits := Gather(Plus(Plus(Plus(Plus(Plus(Plus(aux1, aux2), aux3), aux4), aux5), aux6), aux7)) as nat;
  }

  lemma TotalSeven(p: seq<bv8>)
    requires |p| == 28
    ensures Total(p, 7) ==
            Plus(Plus(Plus(Plus(Plus(Plus(Lanes(p, 0), Lanes(p, 1)), Lanes(p, 2)), Lanes(p, 3)), Lanes(p, 4)),
                      Lanes(p, 5)), Lanes(p, 6))
  {
    hide Plus;
    hide Lanes;
    assert Total(p, 2) == Plus(Lanes(p, 0), Lanes(p, 1));
    assert Total(p, 4) == Plus(Plus(Total(p, 2), Lanes(p, 2)), Lanes(p, 3));
    assert Total(p, 6) == Plus(Plus(Total(p, 4), Lanes(p, 4)), Lanes(p, 5));
  }

  /** The bits of the bytes before `p` are counted. */
  ghost predicate CountedTo(s: seq<bv8>, p: nat, count: nat, bits: nat) {
    p + count == |s| && bits == Count(s, 8 * p)
  }

  lemma CountStarts(s: seq<bv8>)
    ensures CountedTo(s, 0, |s|, 0)
  {
  }

  lemma CountEnds(s: seq<bv8>, p: nat, bits: nat)
    requires CountedTo(s, p, 0, bits)
    ensures bits == Count(s, 8 * |s|)
  {
    hide Count;
  }

  lemma CountOne(s: seq<bv8>, p: nat, count: nat, bits: nat)
    requires CountedTo(s, p, count, bits) && count > 0
    ensures p < |s| && CountedTo(s, p + 1, count - 1, bits + BitsInByte(s[p]) as nat)
  {
    hide Count;
    hide BitsInByte;
    hide Ones;
    TableNat(s[p]);
    CountByte(s, p);
  }

  lemma CountMany(s: seq<bv8>, p: nat, count: nat, bits: nat)
    requires CountedTo(s, p, count, bits) && count >= 28
    ensures p + 28 <= |s|
    ensures var b := s[p..p + 28];
      CountedTo(s, p + 28, count - 28,
                bits + (LaneOnes(b, 0, 7) + LaneOnes(b, 1, 7) + LaneOnes(b, 2, 7) + LaneOnes(b, 3, 7)))
  {
    hide Count;
    hide LaneOnes;
    CountWords(s, p, s[p..p + 28], 7);
  }

  /** The bytes before a multiple of four (bitops.c:68-71). */
  method CountUnaligned(s: seq<bv8>, address: nat) returns (p: nat, count: nat, bits: nat)
    ensures CountedTo(s, p, count, bits) && (count == 0 || (address + p) % 4 == 0)
  {
    hide *;
    p, count, bits := 0, |s|, 0;
    CountStarts(s);
    while (address + p) % 4 != 0 && count > 0
      invariant CountedTo(s, p, count, bits)
      decreases count
    {
      CountOne(s, p, count, bits);
      bits := bits + BitsInByte(s[p]) as nat;
      p, count := p + 1, count - 1;
    }
  }

  /** `redisPopcount` (bitops.c:61-113) of the bytes at an address: bytes up to a multiple of four, blocks
      of 28, and the bytes that are left. */
  method RedisPopcount(s: seq<bv8>, address: nat) returns (bits: nat)
    ensures bits == Count(s, 8 * |s|)
  {
    hide *;
    var p: nat, count: nat;
    p, count, bits := CountUnaligned(s, address);
    while count >= 28
      invariant CountedTo(s, p, count, bits)
    {
      CountMany(s, p, count, bits);
      var more := CountBlock(s[p..p + 28]);
      bits := bits + more;
      p, count := p + 28, count - 28;
    }
    while count > 0
      invariant CountedTo(s, p, count, bits)
    {
      CountOne(s, p, count, bits);
      bits := bits + BitsInByte(s[p]) as nat;
      p, count := p + 1, count - 1;
    }
    CountEnds(s, p, bits);
  }
}
