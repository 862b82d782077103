/** Dense HyperLogLog registers of hyperloglog.c: 6 bits each, packed in bytes from the low bits up. */
module HllDense {
  const REGISTERS := 16384
  const BITS := 6
  const REGISTER_MAX := 63
  const DENSE_BYTES := 12288

  // ---- Registers in two bytes ----

  predicate Offset(fb: nat) { fb == 0 || fb == 2 || fb == 4 || fb == 6 }

  /** `((b0 >> fb) | (b1 << (8 - fb))) & 63`: the shifts are of wide words, so what they push past the
      byte is masked away. */
  function GetBits(b0: bv8, b1: bv8, fb: nat): bv8
    requires Offset(fb)
  {
    if fb == 0 then b0 & 63
    else if fb == 2 then ((b0 >> 2) | (b1 << 6)) & 63
    else if fb == 4 then ((b0 >> 4) | (b1 << 4)) & 63
    else ((b0 >> 6) | (b1 << 2)) & 63
  }

  /** The two bytes after `HLL_DENSE_SET_REGISTER`. */
  function SetLow(b0: bv8, fb: nat, v: bv8): bv8
    requires Offset(fb)
  {
    if fb == 0 then (b0 & !63) | v
    else if fb == 2 then (b0 & !(63 << 2)) | (v << 2)
    else if fb == 4 then (b0 & !(63 << 4)) | (v << 4)
    else (b0 & !(63 << 6)) | (v << 6)
  }

  function SetHigh(b1: bv8, fb: nat, v: bv8): bv8
    requires Offset(fb)
  {
    if fb == 0 then b1
    else if fb == 2 then (b1 & !(63 >> 6)) | (v >> 6)
    else if fb == 4 then (b1 & !(63 >> 4)) | (v >> 4)
    else (b1 & !(63 >> 2)) | (v >> 2)
  }

  lemma Place(i: nat)
    ensures Offset(i * BITS % 8)
    ensures var g, t := i / 4, i % 4;
      && i * BITS / 8 == 3 * g + (if t == 0 || t == 1 then 0 else if t == 2 then 1 else 2)
      && i * BITS % 8 == (if t == 0 then 0 else if t == 1 then 6 else if t == 2 then 4 else 2)
  {
    assert i == 4 * (i / 4) + i % 4;
  }

  // ---- Registers in a buffer ----

  /** Room for the registers, and the byte after them: the terminator every sds string has. */
  predicate DenseOK(d: seq<bv8>) { |d| == DENSE_BYTES + 1 }

  /** `HLL_DENSE_GET_REGISTER`. */
  function Get(d: seq<bv8>, i: nat): bv8
    requires DenseOK(d) && i < REGISTERS
  {
    Place(i);
    GetBits(d[i * BITS / 8], d[i * BITS / 8 + 1], i * BITS % 8)
  }

  /** `HLL_DENSE_SET_REGISTER`: first the low byte, then the high one. */
  function Set(d: seq<bv8>, i: nat, v: bv8): (r: seq<bv8>)
    requires DenseOK(d) && i < REGISTERS
    ensures DenseOK(r)
  {
    Place(i);
    var k := i * BITS / 8;
    var e := d[k := SetLow(d[k], i * BITS % 8, v)];
    e[k + 1 := SetHigh(e[k + 1], i * BITS % 8, v)]
  }

  // ---- Four registers in three bytes ----

  /** The four registers in three bytes, as the unrolled sum reads them. */
  function First(x: bv8): bv8 { x & 63 }

  function Second(x: bv8, y: bv8): bv8 { ((x >> 6) | (y << 2)) & 63 }

  function Third(y: bv8, z: bv8): bv8 { ((y >> 4) | (z << 4)) & 63 }

  function Fourth(z: bv8): bv8 { (z >> 2) & 63 }

  function GetGroup(x: bv8, y: bv8, z: bv8, t: nat): bv8
    requires t < 4
  {
    if t == 0 then First(x) else if t == 1 then Second(x, y) else if t == 2 then Third(y, z) else Fourth(z)
  }

  function SetGroup(x: bv8, y: bv8, z: bv8, t: nat, v: bv8): (bv8, bv8, bv8)
    requires t < 4
  {
    if t == 0 then (SetLow(x, 0, v), y, z)
    else if t == 1 then (SetLow(x, 6, v), SetHigh(y, 6, v), z)
    else if t == 2 then (x, SetLow(y, 4, v), SetHigh(z, 4, v))
    else (x, y, SetLow(z, 2, v))
  }

  lemma SetFirst(x: bv8, y: bv8, v: bv8)
    requires v & 63 == v
    ensures First(SetLow(x, 0, v)) == v && Second(SetLow(x, 0, v), y) == Second(x, y)
  {
  }

  lemma SetSecond(x: bv8, y: bv8, z: bv8, v: bv8)
    requires v & 63 == v
    ensures First(SetLow(x, 6, v)) == First(x)
    ensures Second(SetLow(x, 6, v), SetHigh(y, 6, v)) == v
    ensures Third(SetHigh(y, 6, v), z) == Third(y, z)
  {
  }

  lemma SetThird(x: bv8, y: bv8, z: bv8, v: bv8)
    requires v & 63 == v
    ensures Second(x, SetLow(y, 4, v)) == Second(x, y)
    ensures Third(SetLow(y, 4, v), SetHigh(z, 4, v)) == v
    ensures Fourth(SetHigh(z, 4, v)) == Fourth(z)
  {
  }

  lemma SetFourth(y: bv8, z: bv8, v: bv8)
    requires v & 63 == v
    ensures Third(y, SetLow(z, 2, v)) == Third(y, z) && Fourth(SetLow(z, 2, v)) == v
  {
  }

  lemma GroupRegister(x: bv8, y: bv8, z: bv8, r: nat, v: bv8, t: nat)
    requires r < 4 && t < 4 && v & 63 == v
    ensures var (x', y', z') := SetGroup(x, y, z, r, v);
      GetGroup(x', y', z', t) == if t == r then v else GetGroup(x, y, z, t)
  {
    hide SetLow;
    hide SetHigh;
    hide First;
    hide Second;
    hide Third;
    hide Fourth;
    if r == 0 {
      SetFirst(x, y, v);
    } else if r == 1 {
      SetSecond(x, y, z, v);
    } else if r == 2 {
      SetThird(x, y, z, v);
    } else {
      SetFourth(y, z, v);
    }
  }

  lemma SpillsNothing(b1: bv8, v: bv8)
    requires v & 63 == v
    ensures SetHigh(b1, 2, v) == b1
  {
  }

  lemma LastInByte(z: bv8, b1: bv8)
    ensures GetBits(z, b1, 2) == GetGroup(0, 0, z, 3)
  {
  }

  lemma GetIsGroup(d: seq<bv8>, i: nat)
    requires DenseOK(d) && i < REGISTERS
    ensures Get(d, i) == GetGroup(d[3 * (i / 4)], d[3 * (i / 4) + 1], d[3 * (i / 4) + 2], i % 4)
  {
    Place(i);
    if i % 4 == 3 {
      LastInByte(d[i * BITS / 8], d[i * BITS / 8 + 1]);
    }
  }

  lemma SetIsGroup(d: seq<bv8>, i: nat, v: bv8)
    requires DenseOK(d) && i < REGISTERS && v & 63 == v
    ensures var k := 3 * (i / 4);
            var (x, y, z) := SetGroup(d[k], d[k + 1], d[k + 2], i % 4, v);
      Set(d, i, v) == d[k := x][k + 1 := y][k + 2 := z]
  {
    Place(i);
    var k := i * BITS / 8;
    if i % 4 == 3 {
      SpillsNothing(d[k + 1], v);
    }
    hide SetLow;
  }

  lemma GroupBytes(d: seq<bv8>, k: nat, x: bv8, y: bv8, z: bv8, q: nat)
    requires DenseOK(d) && k + 2 < DENSE_BYTES && k % 3 == 0 && q + 2 < DENSE_BYTES && q % 3 == 0
    ensures var e := d[k := x][k + 1 := y][k + 2 := z];
      && e[DENSE_BYTES] == d[DENSE_BYTES]
      && (if q == k then e[q] == x && e[q + 1] == y && e[q + 2] == z
          else e[q] == d[q] && e[q + 1] == d[q + 1] && e[q + 2] == d[q + 2])
  {
  }

  /** The group of three bytes of the register changes as `SetGroup` says, and no other. */
  lemma GroupPlace(g: nat)
    requires g < REGISTERS / 4
    ensures 3 * g + 2 < DENSE_BYTES && (3 * g) % 3 == 0
  {
  }

  lemma GroupAfterSet(d: seq<bv8>, i: nat, v: bv8, g: nat)
    requires DenseOK(d) && i < REGISTERS && v & 63 == v && g < REGISTERS / 4
    ensures DenseOK(Set(d, i, v)) && Set(d, i, v)[DENSE_BYTES] == d[DENSE_BYTES]
    ensures (Set(d, i, v)[3 * g], Set(d, i, v)[3 * g + 1], Set(d, i, v)[3 * g + 2]) ==
            if g == i / 4 then SetGroup(d[3 * g], d[3 * g + 1], d[3 * g + 2], i % 4, v)
            else (d[3 * g], d[3 * g + 1], d[3 * g + 2])
  {
    var k := 3 * (i / 4);
    GroupPlace(i / 4);
    GroupPlace(g);
    hide *;
    SetIsGroup(d, i, v);
    var s := SetGroup(d[k], d[k + 1], d[k + 2], i % 4, v);
    GroupBytes(d, k, s.0, s.1, s.2, 3 * g);
  }

  lemma SamePlace(i: nat, j: nat)
    requires i / 4 == j / 4
    ensures i % 4 == j % 4 <==> i == j
  {
    assert i == 4 * (i / 4) + i % 4 && j == 4 * (j / 4) + j % 4;
  }

  /** Setting a register stores the value and leaves every other register, and the terminator, alone. */
  lemma SetThenGet(d: seq<bv8>, i: nat, v: bv8, j: nat)
    requires DenseOK(d) && i < REGISTERS && j < REGISTERS && v & 63 == v
    ensures Get(Set(d, i, v), j) == if j == i then v else Get(d, j)
    ensures Set(d, i, v)[DENSE_BYTES] == d[DENSE_BYTES]
  {
    var g := j / 4;
    assert 3 * g + 2 < DENSE_BYTES < |d| && g < REGISTERS / 4;
    hide *;
    GroupAfterSet(d, i, v, g);
    GetIsGroup(d, j);
    GetIsGroup(Set(d, i, v), j);
    if i / 4 == g {
      GroupRegister(d[3 * g], d[3 * g + 1], d[3 * g + 2], i % 4, v, j % 4);
      SamePlace(i, j);
    }
  }

  // ---- Registers as numbers ----

  /** `target`: the value of a register. */
  function Reg(d: seq<bv8>, i: nat): (r: nat)
    requires DenseOK(d) && i < REGISTERS
  {
    Get(d, i) as nat
  }

  function Registers(d: seq<bv8>): (r: seq<nat>)
    requires DenseOK(d)
    ensures |r| == REGISTERS && forall i :: 0 <= i < REGISTERS ==> r[i] == Reg(d, i)
  {
    seq(REGISTERS, i requires 0 <= i < REGISTERS && DenseOK(d) => Reg(d, i))
  }

  lemma GetMasked(d: seq<bv8>, i: nat)
    requires DenseOK(d) && i < REGISTERS
    ensures Get(d, i) & 63 == Get(d, i)
  {
    Place(i);
    BitsMasked(d[i * BITS / 8], d[i * BITS / 8 + 1], i * BITS % 8);
  }

  lemma BitsMasked(b0: bv8, b1: bv8, fb: nat)
    requires Offset(fb)
    ensures GetBits(b0, b1, fb) & 63 == GetBits(b0, b1, fb)
  {
  }

  lemma SmallByte(v: bv8)
    requires v & 63 == v
    ensures v as nat < 64
  {
  }

  lemma FromNat(v: nat)
    requires v < 64
    ensures ((v as bv8) as nat) == v && (v as bv8) & 63 == v as bv8
  {
  }

  lemma RegSmall(d: seq<bv8>, i: nat)
    requires DenseOK(d) && i < REGISTERS
    ensures Reg(d, i) <= REGISTER_MAX
  {
    GetMasked(d, i);
    SmallByte(Get(d, i));
  }

  /** `HLL_DENSE_SET_REGISTER` with a count. */
  function SetReg(d: seq<bv8>, i: nat, v: nat): (r: seq<bv8>)
    requires DenseOK(d) && i < REGISTERS && v <= REGISTER_MAX
    ensures DenseOK(r)
  {
    Set(d, i, v as bv8)
  }

  lemma SetRegisters(d: seq<bv8>, i: nat, v: nat)
    requires DenseOK(d) && i < REGISTERS && v <= REGISTER_MAX
    ensures Registers(SetReg(d, i, v)) == Registers(d)[i := v]
    ensures SetReg(d, i, v)[DENSE_BYTES] == d[DENSE_BYTES]
  {
    FromNat(v);
    SetThenGet(d, i, v as bv8, i);
    hide Get;
    hide Set;
    forall j | 0 <= j < REGISTERS ensures Reg(SetReg(d, i, v), j) == Registers(d)[i := v][j] {
      SetThenGet(d, i, v as bv8, j);
    }
  }

  // ---- In place ----

  method GetRegister(p: array<bv8>, i: nat) returns (target: nat)
    requires DenseOK(p[..]) && i < REGISTERS
    ensures target == Reg(p[..], i) <= REGISTER_MAX
  {
    Place(i);
    RegSmall(p[..], i);
    var k, fb := i * BITS / 8, i * BITS % 8;
    var b0, b1 := p[k], p[k + 1];
    hide GetBits;
    target := GetBits(b0, b1, fb) as nat;
  }

  method SetRegister(p: array<bv8>, i: nat, v: nat)
    requires DenseOK(p[..]) && i < REGISTERS && v <= REGISTER_MAX
    modifies p
    ensures p[..] == SetReg(old(p[..]), i, v)
    ensures Registers(p[..]) == Registers(old(p[..]))[i := v]
  {
    ghost var d := p[..];
    SetRegisters(d, i, v);
    Place(i);
    FromNat(v);
    var k, fb := i * BITS / 8, i * BITS % 8;
    hide SetLow;
    hide SetHigh;
    p[k] := SetLow(p[k], fb, v as bv8);
    p[k + 1] := SetHigh(p[k + 1], fb, v as bv8);
    assert p[..] == SetReg(d, i, v);
    hide SetReg;
    hide Registers;
  }

  /** `hllDenseAdd` (hyperloglog.c:485-498), given the element's register and count. */
  method DenseAdd(p: array<bv8>, index: nat, count: nat) returns (changed: bool)
    requires DenseOK(p[..]) && index < REGISTERS && count <= REGISTER_MAX
    modifies p
    ensures DenseOK(p[..]) && changed == (count > Reg(old(p[..]), index))
    ensures p[..] == if changed then SetReg(old(p[..]), index, count) else old(p[..])
    ensures Registers(p[..]) ==
            Registers(old(p[..]))[index := if count > Registers(old(p[..]))[index] then count
                                           else Registers(old(p[..]))[index]]
  {
    ghost var d := p[..];
    var oldcount := GetRegister(p, index);
    hide Reg;
    if count > oldcount {
      SetRegister(p, index, count);
      return true;
    }
    assert Registers(d)[index := Registers(d)[index]] == Registers(d);
    return false;
  }
}
