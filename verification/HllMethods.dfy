/** The loops of hyperloglog.c over opcodes and registers, each proved against its function. */
module HllMethods {
  import opened HllSparse
  import opened HllSparseAdd
  import opened HllObject
  import Dense = HllDense

  /** The opcode at `p`, decoded with the macros. */
  method Decode(s: seq<bv8>, p: nat) returns (op: Op, size: nat)
    requires p < |s| && Whole(s[p..])
    ensures op == OpAt(s[p..]) && size == SizeAt(s, p) && p + size <= |s|
  {
    Kinds(s[p]);
    assert s[p..][0] == s[p];
    hide ZeroLen;
    hide XZeroLen;
    hide ValValue;
    hide ValLen;
    if IsZero(s[p]) {
      return Zero(ZeroLen(s[p])), 1;
    } else if IsVal(s[p]) {
      return Val(ValValue(s[p]), ValLen(s[p])), 1;
    }
    assert s[p..][1] == s[p + 1];
    return XZero(XZeroLen(s[p], s[p + 1])), 2;
  }

  /** The search loop of `hllSparseAdd` (hyperloglog.c:667-689). */
  method LocateOpcode(s: seq<bv8>, index: nat) returns (p: nat, prev: nat, first: nat, op: Op)
    requires Valid(s) && index < REGISTERS
    ensures Found(s, index, p, prev, first, op)
  {
    hide *;
    SearchStarts(s, index);
    p, prev, first := 0, 0, 0;
    while true
      invariant Searching(s, p, prev, first, index)
      decreases |s| - p
    {
      SearchStep(s, p, prev, first, index);
      var size: nat;
      op, size := Decode(s, p);
      if index < first + op.len {
        FoundBy(s, index, p, prev, first);
        return;
      }
      prev, p, first := p, p + size, first + op.len;
    }
  }

  /** The opcode that `Find` finds. */
  ghost predicate Found(s: seq<bv8>, index: nat, p: nat, prev: nat, first: nat, op: Op)
    requires Valid(s) && index < REGISTERS
  {
    (p, prev, first) == Find(s, index) && p < |s| && Whole(s[p..]) && op == OpAt(s[p..])
  }

  lemma FoundBy(s: seq<bv8>, index: nat, p: nat, prev: nat, first: nat)
    requires Valid(s) && index < REGISTERS && p < |s| && Whole(s[p..]) && (p, prev, first) == Find(s, index)
    ensures Found(s, index, p, prev, first, OpAt(s[p..]))
  {
    hide Find;
    hide OpAt;
    hide Valid;
  }

  lemma FoundParts(s: seq<bv8>, index: nat, p: nat, prev: nat, first: nat, op: Op)
    requires Valid(s) && index < REGISTERS && Found(s, index, p, prev, first, op)
    ensures (p, prev, first) == Find(s, index) && p < |s| && Whole(s[p..]) && op == OpAt(s[p..])
  {
    hide Find;
    hide OpAt;
    hide Valid;
  }

  /** The search has reached the opcode at `p`, and will find what it should. */
  ghost predicate Searching(s: seq<bv8>, p: nat, prev: nat, first: nat, index: nat) {
    && Valid(s) && index < REGISTERS && Walking(s, p, prev, first, index)
    && p < |s| && WellFormed(s[p..]) && Locate(s, p, prev, first, index) == Find(s, index)
  }

  lemma SearchStarts(s: seq<bv8>, index: nat)
    requires Valid(s) && index < REGISTERS
    ensures Searching(s, 0, 0, 0, index)
  {
    WalkStarts(s, index);
    FindIs(s, index);
    hide *;
    SearchBy(s, 0, 0, 0, index);
  }

  lemma SearchBy(s: seq<bv8>, p: nat, prev: nat, first: nat, index: nat)
    requires Valid(s) && index < REGISTERS && Walking(s, p, prev, first, index)
    requires p < |s| && WellFormed(s[p..]) && Locate(s, p, prev, first, index) == Find(s, index)
    ensures Searching(s, p, prev, first, index)
  {
  }

  lemma SearchParts(s: seq<bv8>, p: nat, prev: nat, first: nat, index: nat)
    requires Searching(s, p, prev, first, index)
    ensures Valid(s) && index < REGISTERS && Walking(s, p, prev, first, index)
    ensures p < |s| && WellFormed(s[p..]) && Locate(s, p, prev, first, index) == Find(s, index)
  {
  }

  lemma SearchStep(s: seq<bv8>, p: nat, prev: nat, first: nat, index: nat)
    requires Searching(s, p, prev, first, index)
    ensures p < |s| && Whole(s[p..]) && SizeAt(s, p) > 0
    ensures var next := first + OpAt(s[p..]).len;
      if index < next then (p, prev, first) == Find(s, index)
      else p + SizeAt(s, p) < |s| && Searching(s, p + SizeAt(s, p), p, next, index)
  {
    hide *;
    SearchParts(s, p, prev, first, index);
    LocateStep(s, p, prev, first, index);
    WalkOn(s, p, prev, first, index);
    SizePositive(s, p);
    var next := first + OpAt(s[p..]).len;
    if index >= next {
      SearchBy(s, p + SizeAt(s, p), p, next, index);
    }
  }

  lemma FindIs(s: seq<bv8>, index: nat)
    requires Valid(s) && index < REGISTERS
    ensures 0 < |s| && WellFormed(s[0..]) && Locate(s, 0, 0, 0, index) == Find(s, index)
  {
    WalkStarts(s, index);
    assert s[0..] == s;
    hide Locate;
  }

  /** Step 4 of `hllSparseAdd`: merge adjacent VAL opcodes (hyperloglog.c:831-861). */
  method MergeAdjacent(s: seq<bv8>, start: nat) returns (t: seq<bv8>)
    ensures t == Merge(s, start, 5)
  {
    hide MergedByte;
    hide ValValue;
    hide ValLen;
    t := s;
    var p: nat, scanlen: nat := start, 5;
    while p < |t| && scanlen > 0
      invariant Merge(t, p, scanlen) == Merge(s, start, 5)
      decreases scanlen
    {
      Kinds(t[p]);
      scanlen := scanlen - 1;
      if IsXZero(t[p]) {
        p := p + 2;
      } else if IsZero(t[p]) {
        p := p + 1;
      } else if p + 1 < |t| && IsVal(t[p + 1]) && ValValue(t[p]) == ValValue(t[p + 1]) &&
                ValLen(t[p]) + ValLen(t[p + 1]) <= VAL_MAX_LEN {
        t := t[..p] + [MergedByte(t[p], t[p + 1])] + t[p + 2..];
      } else {
        p := p + 1;
      }
    }
  }

  /** Set a run of registers (hyperloglog.c:601-604). */
  method SetRegisters(d: array<bv8>, idx: nat, v: nat, n: nat)
    requires Dense.DenseOK(d[..]) && idx + n <= REGISTERS && v <= Dense.REGISTER_MAX
    modifies d
    ensures Dense.DenseOK(d[..]) && d[..] == SetRun(old(d[..]), idx, v, n)
  {
    ghost var start := d[..];
    hide *;
    var i, left := idx, n;
    RunStarts(start, idx, v, n);
    while left > 0
      invariant Running(start, idx, v, n, d[..], i, left)
    {
      RunStep(start, idx, v, n, d[..], i, left);
      Dense.SetRegister(d, i, v);
      i, left := i + 1, left - 1;
    }
    RunEnds(start, idx, v, n, d[..], i);
  }

  /** `left` registers are still to be set. */
  ghost predicate Running(start: seq<bv8>, idx: nat, v: nat, n: nat, now: seq<bv8>, i: nat, left: nat) {
    && Dense.DenseOK(start) && Dense.DenseOK(now) && i + left == idx + n <= REGISTERS && v <= Dense.REGISTER_MAX
    && SetRun(now, i, v, left) == SetRun(start, idx, v, n)
  }

  lemma RunStarts(start: seq<bv8>, idx: nat, v: nat, n: nat)
    requires Dense.DenseOK(start) && idx + n <= REGISTERS && v <= Dense.REGISTER_MAX
    ensures Running(start, idx, v, n, start, idx, n)
  {
    hide SetRun;
  }

  lemma RunStep(start: seq<bv8>, idx: nat, v: nat, n: nat, now: seq<bv8>, i: nat, left: nat)
    requires Running(start, idx, v, n, now, i, left) && left > 0
    ensures Dense.DenseOK(now) && i < REGISTERS && v <= Dense.REGISTER_MAX
    ensures Running(start, idx, v, n, Dense.SetReg(now, i, v), i + 1, left - 1)
  {
    assert SetRun(now, i, v, left) == SetRun(Dense.SetReg(now, i, v), i + 1, v, left - 1);
    hide Dense.SetReg;
    hide SetRun;
  }

  lemma RunEnds(start: seq<bv8>, idx: nat, v: nat, n: nat, now: seq<bv8>, i: nat)
    requires Running(start, idx, v, n, now, i, 0)
    ensures Dense.DenseOK(start) && idx + n <= REGISTERS && v <= Dense.REGISTER_MAX
    ensures Dense.DenseOK(now) && now == SetRun(start, idx, v, n)
  {
  }

  /** The loop of `hllSparseToDense` (hyperloglog.c:589-607). */
  method SparseToDense(s: seq<bv8>) returns (d: array<bv8>)
    requires Valid(s)
    ensures fresh(d) && d[..] == ToDense(s)
  {
    hide *;
    d := ZeroBuffer();
    FillStarts(s);
    var p: nat, idx: nat := 0, 0;
    while p < |s|
      invariant Filling(s, d[..], p, idx)
      decreases |s| - p
    {
      FillingStep(s, d[..], p, idx);
      var op, size := Decode(s, p);
      if op.Val? {
        SetRegisters(d, idx, op.value, op.len);
      }
      p, idx := p + size, idx + op.len;
    }
    FillingEnds(s, d[..], p, idx);
  }

  /** The buffer has the registers of the opcodes before `p`, and the rest will make it right. */
  ghost predicate Filling(s: seq<bv8>, d: seq<bv8>, p: nat, idx: nat) {
    && Valid(s) && p <= |s| && WellFormed(s[p..]) && Dense.DenseOK(d)
    && idx + |Regs(s[p..])| <= REGISTERS && Fill(d, s[p..], idx) == ToDense(s)
  }

  lemma FillingEnds(s: seq<bv8>, d: seq<bv8>, p: nat, idx: nat)
    requires Filling(s, d, p, idx) && p >= |s|
    ensures Valid(s) && d == ToDense(s)
  {
    assert s[p..] == [];
  }

  lemma FillingStep(s: seq<bv8>, d: seq<bv8>, p: nat, idx: nat)
    requires Filling(s, d, p, idx) && p < |s|
    ensures Whole(s[p..]) && SizeAt(s, p) > 0 && p + SizeAt(s, p) <= |s|
    ensures var op := OpAt(s[p..]);
      && Dense.DenseOK(d) && idx + op.len <= REGISTERS && (op.Val? ==> op.value <= Dense.REGISTER_MAX)
      && Filling(s, if op.Val? then SetRun(d, idx, op.value, op.len) else d, p + SizeAt(s, p), idx + op.len)
  {
    FillUnfold(d, s[p..], idx);
    TailAt(s, p);
    hide SetRun;
    hide Fill;
    hide Regs;
    hide OpAt;
    hide WellFormed;
    hide Whole;
  }

  method ZeroBuffer() returns (d: array<bv8>)
    ensures fresh(d) && d[..] == ZeroDense()
  {
    d := new bv8[Dense.DENSE_BYTES + 1](_ => 0);
  }

  lemma FillStarts(s: seq<bv8>)
    requires Valid(s)
    ensures Filling(s, ZeroDense(), 0, 0)
  {
    assert s[0..] == s;
  }

  lemma FillUnfold(d: seq<bv8>, t: seq<bv8>, idx: nat)
    requires Dense.DenseOK(d) && WellFormed(t) && t != [] && idx + |Regs(t)| <= REGISTERS
    ensures Whole(t) && WellFormed(Tail(t)) && OpOK(OpAt(t))
    ensures var op := OpAt(t);
      && idx + op.len + |Regs(Tail(t))| <= REGISTERS
      && (op.Val? ==> op.value <= Dense.REGISTER_MAX)
      && Fill(d, t, idx) == Fill(if op.Val? then SetRun(d, idx, op.value, op.len) else d, Tail(t), idx + op.len)
  {
    RegsStep(t);
    ExpandAt(OpAt(t), 0);
    OpAtOK(t);
    hide SetRun;
    hide Regs;
    hide OpAt;
  }

  lemma TailAt(s: seq<bv8>, p: nat)
    requires p < |s| && Whole(s[p..])
    ensures p + SizeAt(s, p) <= |s| && Tail(s[p..]) == s[p + SizeAt(s, p)..] && SizeAt(s, p) > 0
  {
    assert s[p..][0] == s[p];
  }

  /** The pieces of a split opcode (hyperloglog.c:764-808). */
  method SplitOpcode(op: Op, first: nat, index: nat, count: nat) returns (piece: seq<bv8>)
    requires OpOK(op) && first <= index < first + op.len && 1 <= count <= VAL_MAX_VALUE
    ensures piece == Split(op, index - first, count)
  {
    var last := first + op.len - 1;
    hide ZeroRun;
    hide ValByte;
    piece := [];
    if index != first {
      piece := Run(op, index - first);
    }
    assert piece == Part(op, index - first);
    piece := piece + [ValByte(count, 1)];
    if index != last {
      piece := piece + Run(op, last - index);
    } else {
      assert piece + [] == piece;
    }
  }

  /** Promotion, and the add to the dense registers (hyperloglog.c:868-881). */
  method Promote(s: seq<bv8>, index: nat, count: nat) returns (g: Hll, changed: bool)
    requires Valid(s) && index < REGISTERS && count <= Dense.REGISTER_MAX
    requires WellFormed(s) && (count > VAL_MAX_VALUE || count > Regs(s)[index])
    ensures (g, changed) == DenseAdd(ToDense(s), index, count) && changed
  {
    PromoteOK(s, index, count);
    ToDenseOK(s);
    hide ToDense;
    hide Raises;
    hide Dense.Reg;
    hide Dense.SetReg;
    var d := SparseToDense(s);
    changed := Dense.DenseAdd(d, index, count);
    assert changed;
    g := DenseRegs(d[..]);
  }

  lemma SplitSingle(s: seq<bv8>, p: nat, op: Op, count: nat)
    requires p < |s| && OpOK(op) && op.len == 1 && SizeAt(s, p) == 1 && 1 <= count <= VAL_MAX_VALUE
    ensures Split(op, 0, count) == [ValByte(count, 1)]
    ensures Splice(s, p, Split(op, 0, count)) == s[p := ValByte(count, 1)]
  {
    hide ValByte;
  }

  lemma SizeOfOp(s: seq<bv8>, p: nat)
    requires p < |s| && Whole(s[p..])
    ensures SizeAt(s, p) == if OpAt(s[p..]).XZero? then 2 else 1
  {
    Kinds(s[p]);
    assert s[p..][0] == s[p];
  }

  lemma FoundLevel(s: seq<bv8>, p: nat, prev: nat, first: nat, index: nat)
    requires Valid(s) && Located(s, p, prev, first, index) && index < REGISTERS
    ensures WellFormed(s) && p < |s| && Whole(s[p..]) && Regs(s)[index] == Level(OpAt(s[p..]))
  {
    SplicedOK(s, p, prev, first, index, 1);
    ValidParts(s);
    LocatedParts(s, p, prev, first, index);
    hide *;
  }

  /** `hllSparseAdd` (hyperloglog.c:638-882), given the element's register and count. */
  method SparseAdd(s: seq<bv8>, index: nat, count: nat, maxBytes: nat) returns (g: Hll, changed: bool)
    requires Valid(s) && index < REGISTERS && 1 <= count <= Dense.REGISTER_MAX
    ensures (g, changed) == HllObject.SparseAdd(s, index, count, maxBytes)
  {
    ValidParts(s);
    hide AddAt;
    hide Find;
    hide DenseAdd;
    hide ToDense;
    hide Valid;
    hide WellFormed;
    hide Regs;
    if count > VAL_MAX_VALUE {
      g, changed := Promote(s, index, count);
      return;
    }
    var p, prev, first, op := LocateOpcode(s, index);
    FoundParts(s, index, p, prev, first, op);
    g, changed := UpdateAt(s, p, prev, first, op, index, count, maxBytes);
  }

  /** Steps 1 to 4 once the opcode is found. */
  method UpdateAt(s: seq<bv8>, p: nat, prev: nat, first: nat, op: Op, index: nat, count: nat, maxBytes: nat)
    returns (g: Hll, changed: bool)
    requires Valid(s) && Located(s, p, prev, first, index) && index < REGISTERS && 1 <= count <= VAL_MAX_VALUE
    requires p < |s| && Whole(s[p..]) && op == OpAt(s[p..])
    ensures (g, changed) == AddAt(s, p, prev, first, index, count, maxBytes)
  {
    AddAtIs(s, p, prev, first, index, count, maxBytes);
    FoundLevel(s, p, prev, first, index);
    SizeOfOp(s, p);
    SmallCount(count);
    hide Valid;
    hide Located;
    hide WellFormed;
    hide OpAt;
    hide Split;
    hide Splice;
    hide Merge;
    hide Regs;
    hide DenseAdd;
    hide ToDense;
    hide Whole;
    hide ValByte;
    hide SizeAt;
    if op.Val? {
      if op.value >= count {
        return Sparse(s), false;
      }
    }
    if (op.Val? || op.Zero?) && op.len == 1 {
      SplitSingle(s, p, op, count);
      var t := MergeAdjacent(s[p := ValByte(count, 1)], prev);
      return Sparse(t), true;
    }
    var piece := SplitOpcode(op, first, index, count);
    var oldlen := if op.XZero? then 2 else 1;
    if |piece| > oldlen && HDR_SIZE + |s| + |piece| - oldlen > maxBytes {
      g, changed := Promote(s, index, count);
      return;
    }
    SpliceIs(s, p, piece);
    var t := MergeAdjacent(s[..p] + piece + s[p + oldlen..], prev);
    return Sparse(t), true;
  }

  lemma SpliceIs(s: seq<bv8>, p: nat, piece: seq<bv8>)
    requires p < |s| && p + SizeAt(s, p) <= |s|
    ensures Splice(s, p, piece) == s[..p] + piece + s[p + SizeAt(s, p)..]
  {
  }
}
