/** Sparse HyperLogLog registers of hyperloglog.c: run-length opcodes in one or two bytes. */
module HllSparse {
  import opened SmallBytes

  const VAL_MAX_VALUE := 32
  const VAL_MAX_LEN := 4
  const ZERO_MAX_LEN := 64
  const XZERO_MAX_LEN := 16384

  // ---- Opcodes ----

  predicate IsZero(b: bv8) { b & 0xc0 == 0 }

  predicate IsXZero(b: bv8) { b & 0xc0 == 0x40 }

  predicate IsVal(b: bv8) { b & 0x80 != 0 }

  function ZeroLen(b: bv8): nat { (b & 0x3f) as nat + 1 }

  function XZeroLen(b: bv8, c: bv8): nat { (b & 0x3f) as nat * 256 + c as nat + 1 }

  function ValValue(b: bv8): nat { ((b >> 2) & 0x1f) as nat + 1 }

  function ValLen(b: bv8): nat { (b & 0x3) as nat + 1 }

  function ZeroByte(len: nat): bv8
    requires 1 <= len <= ZERO_MAX_LEN
  {
    (len - 1) as bv8
  }

  function XZeroHigh(len: nat): bv8
    requires 1 <= len <= XZERO_MAX_LEN
  {
    ((len - 1) / 256) as bv8 | 0x40
  }

  function XZeroLow(len: nat): bv8
    requires 1 <= len <= XZERO_MAX_LEN
  {
    ((len - 1) % 256) as bv8
  }

  function ValByte(value: nat, len: nat): bv8
    requires 1 <= value <= VAL_MAX_VALUE && 1 <= len <= VAL_MAX_LEN
  {
    ((((value - 1) as bv8) << 2) | ((len - 1) as bv8)) | 0x80
  }

  // One bit-level fact each.

  lemma Kinds(b: bv8)
    ensures IsVal(b) <==> !IsZero(b) && !IsXZero(b)
    ensures !(IsZero(b) && IsXZero(b))
  {
  }

  lemma ZeroBits(b: bv8)
    requires b as nat < 64
    ensures IsZero(b) && b & 0x3f == b
  {
  }

  lemma ZeroByteOK(len: nat)
    requires 1 <= len <= ZERO_MAX_LEN
    ensures IsZero(ZeroByte(len)) && ZeroLen(ZeroByte(len)) == len
  {
    SmallNat(len - 1);
    ZeroBits(ZeroByte(len));
  }

  lemma XZeroBits(b: bv8)
    requires b as nat < 64
    ensures IsXZero(b | 0x40) && (b | 0x40) & 0x3f == b
  {
  }

  lemma XZeroOK(len: nat)
    requires 1 <= len <= XZERO_MAX_LEN
    ensures IsXZero(XZeroHigh(len)) && XZeroLen(XZeroHigh(len), XZeroLow(len)) == len
  {
    var h := ((len - 1) / 256) as bv8;
    SmallNat((len - 1) / 256);
    SmallNat((len - 1) % 256);
    XZeroBits(h);
    hide IsXZero;
  }

  lemma ValBits(v: bv8, l: bv8)
    requires v & 0x1f == v && l & 3 == l
    ensures var b := ((v << 2) | l) | 0x80;
      IsVal(b) && (b >> 2) & 0x1f == v && b & 0x3 == l
  {
  }

  lemma Under32(v: nat)
    requires v < 32
    ensures (v as bv8) & 0x1f == v as bv8 && (v as bv8) as nat == v
  {
  }

  lemma Under4(v: nat)
    requires v < 4
    ensures (v as bv8) & 3 == v as bv8 && (v as bv8) as nat == v
  {
  }

  lemma ValByteOK(value: nat, len: nat)
    requires 1 <= value <= VAL_MAX_VALUE && 1 <= len <= VAL_MAX_LEN
    ensures IsVal(ValByte(value, len)) && ValValue(ValByte(value, len)) == value && ValLen(ValByte(value, len)) == len
  {
    Under32(value - 1);
    Under4(len - 1);
    ValBits((value - 1) as bv8, (len - 1) as bv8);
    hide IsVal;
  }

  lemma LengthBounds(b: bv8, c: bv8)
    ensures 1 <= ZeroLen(b) <= ZERO_MAX_LEN && 1 <= XZeroLen(b, c) <= XZERO_MAX_LEN
    ensures 1 <= ValLen(b) <= VAL_MAX_LEN && 1 <= ValValue(b) <= VAL_MAX_VALUE
  {
    Masked6(b);
    Masked5(b >> 2);
    Masked2(b);
  }

  lemma Masked6(b: bv8)
    ensures (b & 0x3f) as nat < 64
  {
  }

  lemma Masked5(b: bv8)
    ensures (b & 0x1f) as nat < 32
  {
  }

  lemma Masked2(b: bv8)
    ensures (b & 0x3) as nat < 4
  {
  }

  datatype Op = Zero(len: nat) | XZero(len: nat) | Val(value: nat, len: nat)

  /** The opcode at the front is not cut off. */
  predicate Whole(s: seq<bv8>) { s != [] && (IsXZero(s[0]) ==> |s| >= 2) }

  function OpAt(s: seq<bv8>): (op: Op)
    requires Whole(s)
    ensures 1 <= op.len <= XZERO_MAX_LEN
    ensures op.Zero? ==> op.len <= ZERO_MAX_LEN
    ensures op.Val? ==> op.len <= VAL_MAX_LEN && 1 <= op.value <= VAL_MAX_VALUE
  {
    if IsZero(s[0]) then
      LengthBounds(s[0], 0);
      Zero(ZeroLen(s[0]))
    else if IsXZero(s[0]) then
      LengthBounds(s[0], s[1]);
      XZero(XZeroLen(s[0], s[1]))
    else
      LengthBounds(s[0], 0);
      Val(ValValue(s[0]), ValLen(s[0]))
  }

  function Size(b: bv8): (n: nat)
    ensures n == 1 || n == 2
  {
    if IsXZero(b) then 2 else 1
  }

  // ---- Strings of opcodes ----

  predicate WellFormed(s: seq<bv8>)
    decreases |s|
  {
    s == [] || (Whole(s) && WellFormed(s[Size(s[0])..]))
  }

  function Repeat(v: nat, n: nat): (r: seq<nat>)
    ensures |r| == n && forall i :: 0 <= i < n ==> r[i] == v
  {
    seq(n, _ => v)
  }

  function Expand(op: Op): seq<nat> {
    if op.Val? then Repeat(op.value, op.len) else Repeat(0, op.len)
  }

  /** The registers a string of opcodes stands for. */
  function Regs(s: seq<bv8>): (r: seq<nat>)
    requires WellFormed(s)
    ensures forall i :: 0 <= i < |r| ==> r[i] <= VAL_MAX_VALUE
    decreases |s|
  {
    if s == [] then [] else Expand(OpAt(s)) + Regs(s[Size(s[0])..])
  }

  lemma OpAtFront(a: seq<bv8>, b: seq<bv8>)
    requires Whole(a)
    ensures Whole(a + b) && OpAt(a + b) == OpAt(a) && (a + b)[0] == a[0]
  {
    hide IsZero;
    hide IsXZero;
    hide ZeroLen;
    hide XZeroLen;
    hide ValValue;
    hide ValLen;
  }

  function Tail(s: seq<bv8>): seq<bv8>
    requires Whole(s)
  {
    s[Size(s[0])..]
  }

  lemma TailOf(a: seq<bv8>, b: seq<bv8>)
    requires Whole(a)
    ensures Whole(a + b) && Tail(a + b) == Tail(a) + b && |Tail(a)| < |a|
  {
    OpAtFront(a, b);
  }

  lemma RegsStep(s: seq<bv8>)
    requires Whole(s)
    ensures WellFormed(s) <==> WellFormed(Tail(s))
    ensures WellFormed(s) ==> Regs(s) == Expand(OpAt(s)) + Regs(Tail(s))
  {
    hide OpAt;
    hide Expand;
  }

  lemma NoRegs()
    ensures WellFormed([]) && Regs([]) == []
  {
  }

  lemma FirstWhole(s: seq<bv8>)
    requires WellFormed(s) && s != []
    ensures Whole(s)
  {
  }

  lemma Assoc(a: seq<nat>, b: seq<nat>, c: seq<nat>)
    ensures (a + b) + c == a + (b + c)
  {
  }

  lemma {:induction false} RegsConcat(a: seq<bv8>, b: seq<bv8>)
    requires WellFormed(a) && WellFormed(b)
    ensures WellFormed(a + b) && Regs(a + b) == Regs(a) + Regs(b)
    decreases |a|
  {
    hide *;
    NoRegs();
    if a == [] {
      assert a + b == b;
      assert Regs(a) + Regs(b) == Regs(b);
    } else {
      FirstWhole(a);
      OpAtFront(a, b);
      TailOf(a, b);
      RegsStep(a);
      RegsConcat(Tail(a), b);
      RegsStep(a + b);
      Assoc(Expand(OpAt(a)), Regs(Tail(a)), Regs(b));
    }
  }

  lemma OneOp(s: seq<bv8>)
    requires Whole(s) && |s| == Size(s[0])
    ensures WellFormed(s) && Regs(s) == Expand(OpAt(s))
  {
    assert s[Size(s[0])..] == [];
    hide OpAt;
  }

  // ---- Writing opcodes ----

  /** A run of zero registers, in the shorter opcode if it fits. */
  function ZeroRun(len: nat): seq<bv8>
    requires 1 <= len <= XZERO_MAX_LEN
  {
    if len > ZERO_MAX_LEN then [XZeroHigh(len), XZeroLow(len)] else [ZeroByte(len)]
  }

  lemma ZeroRunOK(len: nat)
    requires 1 <= len <= XZERO_MAX_LEN
    ensures WellFormed(ZeroRun(len)) && Regs(ZeroRun(len)) == Repeat(0, len)
    ensures |ZeroRun(len)| == if len > ZERO_MAX_LEN then 2 else 1
  {
    var s := ZeroRun(len);
    if len > ZERO_MAX_LEN {
      XZeroOK(len);
    } else {
      ZeroByteOK(len);
    }
    Kinds(s[0]);
    hide IsZero;
    hide IsXZero;
    hide XZeroHigh;
    hide XZeroLow;
    hide ZeroByte;
    hide XZeroLen;
    hide ZeroLen;
    OneOp(s);
  }

  lemma ValOK(value: nat, len: nat)
    requires 1 <= value <= VAL_MAX_VALUE && 1 <= len <= VAL_MAX_LEN
    ensures WellFormed([ValByte(value, len)]) && Regs([ValByte(value, len)]) == Repeat(value, len)
  {
    var s := [ValByte(value, len)];
    ValByteOK(value, len);
    Kinds(s[0]);
    hide IsZero;
    hide IsXZero;
    hide IsVal;
    hide ValByte;
    hide ValValue;
    hide ValLen;
    OneOp(s);
  }

  /** A run like that of opcode `op`, of another length. */
  function Run(op: Op, len: nat): seq<bv8>
    requires 1 <= len <= op.len && OpOK(op)
  {
    if op.Val? then [ValByte(op.value, len)] else ZeroRun(len)
  }

  predicate OpOK(op: Op) {
    && 1 <= op.len <= XZERO_MAX_LEN
    && (op.Val? ==> op.len <= VAL_MAX_LEN && 1 <= op.value <= VAL_MAX_VALUE)
  }

  /** `len` registers like those of `op`, possibly none. */
  function Part(op: Op, len: nat): seq<bv8>
    requires len <= op.len && OpOK(op)
  {
    if len > 0 then Run(op, len) else []
  }

  function One(count: nat): seq<bv8>
    requires 1 <= count <= VAL_MAX_VALUE
  {
    [ValByte(count, 1)]
  }

  /** The opcodes that replace `op` to set its register number `off` (hyperloglog.c:768-808). */
  function Split(op: Op, off: nat, count: nat): seq<bv8>
    requires OpOK(op) && off < op.len && 1 <= count <= VAL_MAX_VALUE
  {
    Part(op, off) + One(count) + Part(op, op.len - 1 - off)
  }

  function Level(op: Op): nat { if op.Val? then op.value else 0 }

  lemma RunOK(op: Op, len: nat)
    requires 1 <= len <= op.len && OpOK(op)
    ensures WellFormed(Run(op, len)) && Regs(Run(op, len)) == Repeat(Level(op), len)
    ensures |Run(op, len)| <= 2
  {
    if op.Val? {
      ValOK(op.value, len);
    } else {
      ZeroRunOK(len);
    }
  }

  lemma Pieces(v: nat, n: nat, off: nat, count: nat)
    requires off < n
    ensures Repeat(v, off) + Repeat(count, 1) + Repeat(v, n - 1 - off) == Repeat(v, n)[off := count]
  {
  }

  lemma PartOK(op: Op, len: nat)
    requires len <= op.len && OpOK(op)
    ensures WellFormed(Part(op, len)) && Regs(Part(op, len)) == Repeat(Level(op), len)
    ensures |Part(op, len)| <= 2
  {
    NoRegs();
    if len > 0 {
      RunOK(op, len);
    } else {
      assert Repeat(Level(op), 0) == [];
    }
    hide Run;
    hide OpAt;
  }

  lemma OneOK(count: nat)
    requires 1 <= count <= VAL_MAX_VALUE
    ensures WellFormed(One(count)) && Regs(One(count)) == Repeat(count, 1) && |One(count)| == 1
  {
    ValOK(count, 1);
    hide ValByte;
    hide OpAt;
  }

  lemma SplitIs(op: Op, off: nat, count: nat)
    requires OpOK(op) && off < op.len && 1 <= count <= VAL_MAX_VALUE
    ensures Split(op, off, count) == Part(op, off) + One(count) + Part(op, op.len - 1 - off)
  {
    hide Part;
    hide One;
  }

  lemma ExpandLevel(op: Op)
    ensures Expand(op) == Repeat(Level(op), op.len)
  {
  }

  /** Splitting sets exactly the one register. */
  lemma SplitOK(op: Op, off: nat, count: nat)
    requires OpOK(op) && off < op.len && 1 <= count <= VAL_MAX_VALUE
    ensures WellFormed(Split(op, off, count))
    ensures |Expand(op)| == op.len && Regs(Split(op, off, count)) == Expand(op)[off := count]
    ensures 1 <= |Split(op, off, count)| <= 5
  {
    hide *;
    var a, b, c := Part(op, off), One(count), Part(op, op.len - 1 - off);
    SplitIs(op, off, count);
    PartOK(op, off);
    OneOK(count);
    PartOK(op, op.len - 1 - off);
    ExpandLevel(op);
    RegsConcat(a, b);
    RegsConcat(a + b, c);
    Pieces(Level(op), op.len, off, count);
  }
}
