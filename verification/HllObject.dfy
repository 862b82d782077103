/** A HyperLogLog object of hyperloglog.c in either encoding: adding to it, and promoting it. */
module HllObject {
  import opened HllSparse
  import opened HllSparseAdd
  import Dense = HllDense

  datatype Hll = Sparse(s: seq<bv8>) | DenseRegs(d: seq<bv8>)

  ghost predicate HllOK(h: Hll) {
    match h case Sparse(s) => Valid(s) case DenseRegs(d) => Dense.DenseOK(d)
  }

  ghost function RegsOf(h: Hll): (r: seq<nat>)
    requires HllOK(h)
    ensures |r| == REGISTERS
  {
    match h case Sparse(s) => Regs(s) case DenseRegs(d) => Dense.Registers(d)
  }

  // ---- Finding the opcode of a register ----

  /** The opcode covering register `index`, the opcode before it, and its first register
      (hyperloglog.c:667-689). */
  ghost function Locate(s: seq<bv8>, p: nat, prev: nat, first: nat, index: nat): (nat, nat, nat)
    requires p < |s| && WellFormed(s[p..])
    decreases |s| - p
  {
    var op := OpAt(s[p..]);
    if index < first + op.len || p + SizeAt(s, p) >= |s| then (p, prev, first)
    else
      assert s[p..][SizeAt(s, p)..] == s[p + SizeAt(s, p)..];
      Locate(s, p + SizeAt(s, p), p, first + op.len, index)
  }

  /** `p` is where register `index` is, and `prev` is the opcode before, or `p` itself. */
  ghost predicate Located(s: seq<bv8>, p: nat, prev: nat, first: nat, index: nat) {
    && AtOp(s, p) && Whole(s[p..]) && first == |Regs(s[..p])|
    && first <= index < first + OpAt(s[p..]).len
    && prev <= p && WellFormed(s[..prev]) && WellFormed(s[prev..p])
  }

  /** The walk so far: opcode `p` is reached and does not come after `index`. */
  ghost predicate Walking(s: seq<bv8>, p: nat, prev: nat, first: nat, index: nat) {
    && WellFormed(s) && AtOp(s, p) && Whole(s[p..]) && first == |Regs(s[..p])| && first <= index < |Regs(s)|
    && prev <= p && WellFormed(s[..prev]) && WellFormed(s[prev..p])
  }

  lemma WalkOn(s: seq<bv8>, p: nat, prev: nat, first: nat, index: nat)
    requires Walking(s, p, prev, first, index)
    ensures index < first + OpAt(s[p..]).len ==> Located(s, p, prev, first, index)
    ensures index >= first + OpAt(s[p..]).len ==>
              p + SizeAt(s, p) < |s| && Walking(s, p + SizeAt(s, p), p, first + OpAt(s[p..]).len, index)
  {
    var op := OpAt(s[p..]);
    var q := p + SizeAt(s, p);
    Around(s, p);
    ExpandAt(op, 0);
    OneOpAt(s, p);
    hide OpAt;
    hide Expand;
    hide Regs;
    hide WellFormed;
    hide Whole;
    if index >= first + op.len {
      assert |Regs(s[..q])| == first + op.len;
      assert s[..|s|] == s;
      FirstWholeAt(s, q);
    }
  }

  lemma OneOpAt(s: seq<bv8>, p: nat)
    requires AtOp(s, p)
    ensures p + SizeAt(s, p) <= |s| && WellFormed(s[p..p + SizeAt(s, p)])
  {
    Slices(s, p);
    FrontOK(s[p..]);
    assert s[p..p + SizeAt(s, p)] == Front(s[p..]);
    hide WellFormed;
    hide Whole;
  }

  lemma FirstWholeAt(s: seq<bv8>, q: nat)
    requires q < |s| && WellFormed(s[q..])
    ensures Whole(s[q..])
  {
    FirstWhole(s[q..]);
  }

  lemma LocateStep(s: seq<bv8>, p: nat, prev: nat, first: nat, index: nat)
    requires Walking(s, p, prev, first, index)
    ensures p < |s| && WellFormed(s[p..]) && Whole(s[p..])
    ensures var next := first + OpAt(s[p..]).len;
            var q := p + SizeAt(s, p);
      if index < next || q >= |s| then Locate(s, p, prev, first, index) == (p, prev, first)
      else WellFormed(s[q..]) && Locate(s, p, prev, first, index) == Locate(s, q, p, next, index)
  {
    assert p + SizeAt(s, p) < |s| ==> s[p..][SizeAt(s, p)..] == s[p + SizeAt(s, p)..];
    hide OpAt;
    hide Regs;
  }

  lemma {:induction false} LocateOK(s: seq<bv8>, p: nat, prev: nat, first: nat, index: nat)
    requires Walking(s, p, prev, first, index)
    ensures p < |s| && WellFormed(s[p..])
    ensures var r := Locate(s, p, prev, first, index); Located(s, r.0, r.1, r.2, index)
    decreases |s| - p
  {
    hide *;
    LocateStep(s, p, prev, first, index);
    WalkOn(s, p, prev, first, index);
    SizePositive(s, p);
    if index >= first + OpAt(s[p..]).len {
      LocateOK(s, p + SizeAt(s, p), p, first + OpAt(s[p..]).len, index);
    }
  }

  lemma SizePositive(s: seq<bv8>, p: nat)
    requires p < |s|
    ensures SizeAt(s, p) > 0
  {
  }

  lemma WalkStarts(s: seq<bv8>, index: nat)
    requires Valid(s) && index < REGISTERS
    ensures s != [] && Walking(s, 0, 0, 0, index)
  {
    NoRegs();
    FirstWhole(s);
    assert s[..0] == [] && s[0..] == s && s[0..0] == [];
    hide WellFormed;
    hide Regs;
    hide Whole;
  }

  // ---- Promotion ----

  function ZeroDense(): (d: seq<bv8>)
    ensures Dense.DenseOK(d)
  {
    seq(Dense.DENSE_BYTES + 1, _ => 0)
  }

  lemma ZeroBits(fb: nat)
    requires Dense.Offset(fb)
    ensures Dense.GetBits(0, 0, fb) == 0
  {
  }

  lemma ZeroRegisters(i: nat)
    requires i < REGISTERS
    ensures Dense.Reg(ZeroDense(), i) == 0
  {
    Dense.Place(i);
    ZeroBits(i * Dense.BITS % 8);
    hide Dense.GetBits;
  }

  /** Set `n` registers from `idx` on. */
  function SetRun(d: seq<bv8>, idx: nat, v: nat, n: nat): (r: seq<bv8>)
    requires Dense.DenseOK(d) && idx + n <= REGISTERS && v <= Dense.REGISTER_MAX
    ensures Dense.DenseOK(r)
    decreases n
  {
    if n == 0 then d else SetRun(Dense.SetReg(d, idx, v), idx + 1, v, n - 1)
  }

  lemma {:induction false} SetRunOK(d: seq<bv8>, idx: nat, v: nat, n: nat, j: nat)
    requires Dense.DenseOK(d) && idx + n <= REGISTERS && v <= Dense.REGISTER_MAX && j < REGISTERS
    ensures Dense.Reg(SetRun(d, idx, v, n), j) == if idx <= j < idx + n then v else Dense.Reg(d, j)
    decreases n
  {
    if n > 0 {
      Dense.SetRegisters(d, idx, v);
      SetRunOK(Dense.SetReg(d, idx, v), idx + 1, v, n - 1, j);
      assert Dense.Registers(Dense.SetReg(d, idx, v))[j] == Dense.Reg(Dense.SetReg(d, idx, v), j);
      hide Dense.Reg;
      hide Dense.SetReg;
    }
  }

  /** The loop of `hllSparseToDense` (hyperloglog.c:589-607). */
  ghost function Fill(d: seq<bv8>, s: seq<bv8>, idx: nat): (r: seq<bv8>)
    requires Dense.DenseOK(d) && WellFormed(s) && idx + |Regs(s)| <= REGISTERS
    ensures Dense.DenseOK(r)
    decreases |s|
  {
    if s == [] then d
    else
      RegsStep(s);
      var op := OpAt(s);
      ExpandAt(op, 0);
      Fill(if op.Val? then SetRun(d, idx, op.value, op.len) else d, Tail(s), idx + op.len)
  }

  /** From `idx` on the buffer is empty. */
  ghost predicate EmptyFrom(d: seq<bv8>, idx: nat)
    requires Dense.DenseOK(d)
  {
    forall j :: idx <= j < REGISTERS ==> Dense.Reg(d, j) == 0
  }

  lemma FillStep(d: seq<bv8>, s: seq<bv8>, idx: nat) returns (e: seq<bv8>)
    requires Dense.DenseOK(d) && WellFormed(s) && idx + |Regs(s)| <= REGISTERS && s != [] && EmptyFrom(d, idx)
    ensures Whole(s) && WellFormed(Tail(s)) && |Tail(s)| < |s| && Dense.DenseOK(e)
    ensures var n := OpAt(s).len;
      && |Regs(s)| == n + |Regs(Tail(s))|
      && Fill(d, s, idx) == Fill(e, Tail(s), idx + n)
      && EmptyFrom(e, idx + n)
      && forall j :: 0 <= j < idx + n && j < REGISTERS ==>
           Dense.Reg(e, j) == if j < idx then Dense.Reg(d, j) else Regs(s)[j - idx]
  {
    RegsStep(s);
    var op := OpAt(s);
    ExpandAt(op, 0);
    e := if op.Val? then SetRun(d, idx, op.value, op.len) else d;
    hide OpAt;
    hide Regs;
    hide SetRun;
    hide Dense.Reg;
    forall j | 0 <= j < REGISTERS
      ensures Dense.Reg(e, j) == if idx <= j < idx + op.len then Level(op) else Dense.Reg(d, j)
    {
      if op.Val? {
        SetRunOK(d, idx, op.value, op.len, j);
      }
    }
    forall i | 0 <= i < op.len ensures Regs(s)[i] == Level(op) {
      ExpandAt(op, i);
    }
  }

  lemma {:induction false} FillOK(d: seq<bv8>, s: seq<bv8>, idx: nat, j: nat)
    requires Dense.DenseOK(d) && WellFormed(s) && idx + |Regs(s)| <= REGISTERS && EmptyFrom(d, idx) && j < REGISTERS
    ensures Dense.Reg(Fill(d, s, idx), j) ==
            if j < idx then Dense.Reg(d, j) else if j < idx + |Regs(s)| then Regs(s)[j - idx] else 0
    decreases |s|
  {
    hide Dense.Reg;
    if s == [] {
      assert j >= idx ==> Dense.Reg(d, j) == 0;
    } else {
      var e := FillStep(d, s, idx);
      var n := OpAt(s).len;
      FillOK(e, Tail(s), idx + n, j);
      RegsStep(s);
      ExpandAt(OpAt(s), 0);
      hide OpAt;
      hide Fill;
      hide Regs;
      hide Expand;
    }
  }

  /** `hllSparseToDense` of a valid string. */
  ghost function ToDense(s: seq<bv8>): seq<bv8>
    requires Valid(s)
  {
    Fill(ZeroDense(), s, 0)
  }

  /** Promotion keeps every register. */
  lemma ToDenseOK(s: seq<bv8>)
    requires Valid(s)
    ensures Dense.DenseOK(ToDense(s)) && Dense.Registers(ToDense(s)) == Regs(s)
  {
    forall j | 0 <= j < REGISTERS ensures Dense.Reg(ZeroDense(), j) == 0 {
      ZeroRegisters(j);
    }
    hide Dense.Reg;
    hide Regs;
    hide ZeroDense;
    hide Fill;
    forall j | 0 <= j < REGISTERS ensures Dense.Registers(ToDense(s))[j] == Regs(s)[j] {
      FillOK(ZeroDense(), s, 0, j);
    }
  }

  // ---- Adding ----

  /** `hllDenseAdd`. */
  function DenseAdd(d: seq<bv8>, index: nat, count: nat): (Hll, bool)
    requires Dense.DenseOK(d) && index < REGISTERS && count <= Dense.REGISTER_MAX
  {
    if count > Dense.Reg(d, index) then (DenseRegs(Dense.SetReg(d, index, count)), true) else (DenseRegs(d), false)
  }

  /** The string with the opcode at `p` split, unless that makes it longer than allowed. */
  ghost predicate Fits(s: seq<bv8>, p: nat, piece: seq<bv8>, maxBytes: nat)
    requires p < |s|
  {
    |piece| <= SizeAt(s, p) || HDR_SIZE + |s| + |piece| - SizeAt(s, p) <= maxBytes
  }

  /** The update of `hllSparseAdd` once the opcode is found (hyperloglog.c:709-881). */
  ghost function AddAt(s: seq<bv8>, p: nat, prev: nat, first: nat, index: nat, count: nat, maxBytes: nat): (Hll, bool)
    requires Valid(s) && Located(s, p, prev, first, index) && index < REGISTERS && 1 <= count <= VAL_MAX_VALUE
  {
    var op := OpAt(s[p..]);
    if op.Val? && op.value >= count then (Sparse(s), false)
    else
      SplitFits(s, p, prev, first, index);
      var piece := Split(op, index - first, count);
      if !Fits(s, p, piece, maxBytes) then DenseAdd(ToDense(s), index, count)
      else (Sparse(Merge(Splice(s, p, piece), prev, 5)), true)
  }

  ghost function Find(s: seq<bv8>, index: nat): (r: (nat, nat, nat))
    requires Valid(s) && index < REGISTERS
    ensures Located(s, r.0, r.1, r.2, index)
  {
    WalkStarts(s, index);
    LocateOK(s, 0, 0, 0, index);
    assert s[0..] == s;
    Locate(s, 0, 0, 0, index)
  }

  /** `hllSparseAdd` (hyperloglog.c:638-882): the object and whether a register rose. */
  ghost function SparseAdd(s: seq<bv8>, index: nat, count: nat, maxBytes: nat): (Hll, bool)
    requires Valid(s) && index < REGISTERS && 1 <= count <= Dense.REGISTER_MAX
  {
    if count > VAL_MAX_VALUE then DenseAdd(ToDense(s), index, count)
    else
      var r := Find(s, index);
      AddAt(s, r.0, r.1, r.2, index, count, maxBytes)
  }

  lemma SplitFits(s: seq<bv8>, p: nat, prev: nat, first: nat, index: nat)
    requires Located(s, p, prev, first, index)
    ensures p < |s| && Whole(s[p..]) && OpOK(OpAt(s[p..])) && first <= index && index - first < OpAt(s[p..]).len
    ensures p + SizeAt(s, p) <= |s|
  {
    Around(s, p);
    OpAtOK(s[p..]);
    hide WellFormed;
    hide Regs;
    hide OpAt;
  }

  /** What an add must do: the register becomes the greater of its value and the count, the others stay,
      and the answer is whether it rose. */
  ghost predicate Raises(h: Hll, index: nat, count: nat, g: Hll, changed: bool)
    requires HllOK(h) && index < REGISTERS
  {
    var old_ := RegsOf(h)[index];
    && HllOK(g)
    && RegsOf(g) == RegsOf(h)[index := if count > old_ then count else old_]
    && changed == (count > old_)
  }

  lemma DenseAddOK(d: seq<bv8>, index: nat, count: nat)
    requires Dense.DenseOK(d) && index < REGISTERS && count <= Dense.REGISTER_MAX
    ensures var (g, changed) := DenseAdd(d, index, count);
      Raises(DenseRegs(d), index, count, g, changed)
  {
    Dense.SetRegisters(d, index, count);
    assert Dense.Registers(d)[index] == Dense.Reg(d, index);
    hide Dense.Reg;
    assert Dense.Registers(d)[index := Dense.Registers(d)[index]] == Dense.Registers(d);
  }

  /** After a promotion the dense add always raises the register: the assertion at
      hyperloglog.c:880 holds. */
  lemma PromoteOK(s: seq<bv8>, index: nat, count: nat)
    requires Valid(s) && index < REGISTERS && count <= Dense.REGISTER_MAX
    requires count > VAL_MAX_VALUE || count > Regs(s)[index]
    ensures var (g, changed) := DenseAdd(ToDense(s), index, count);
      changed && g.DenseRegs? && Raises(Sparse(s), index, count, g, changed)
  {
    hide *;
    ToDenseOK(s);
    DenseAddOK(ToDense(s), index, count);
    SparseRegs(s);
    DenseAs(ToDense(s), index, count);
    SameRegsRaise(DenseRegs(ToDense(s)), Sparse(s), index, count, DenseAdd(ToDense(s), index, count).0,
                  DenseAdd(ToDense(s), index, count).1);
    RaisesWhen(Sparse(s), index, count, DenseAdd(ToDense(s), index, count).0, DenseAdd(ToDense(s), index, count).1);
    SparseSmall(s, index);
  }

  lemma SparseRegs(s: seq<bv8>)
    requires Valid(s)
    ensures HllOK(Sparse(s)) && RegsOf(Sparse(s)) == Regs(s)
  {
  }

  lemma SparseSmall(s: seq<bv8>, index: nat)
    requires Valid(s) && index < REGISTERS
    ensures WellFormed(s) && index < |Regs(s)| && Regs(s)[index] <= VAL_MAX_VALUE
  {
  }

  lemma DenseAs(d: seq<bv8>, index: nat, count: nat)
    requires Dense.DenseOK(d) && index < REGISTERS && count <= Dense.REGISTER_MAX
    ensures HllOK(DenseRegs(d)) && RegsOf(DenseRegs(d)) == Dense.Registers(d)
    ensures DenseAdd(d, index, count).0.DenseRegs?
  {
  }

  lemma SameRegsRaise(h: Hll, k: Hll, index: nat, count: nat, g: Hll, changed: bool)
    requires HllOK(h) && HllOK(k) && RegsOf(h) == RegsOf(k) && index < REGISTERS && Raises(h, index, count, g, changed)
    ensures Raises(k, index, count, g, changed)
  {
    hide HllOK;
    hide RegsOf;
  }

  lemma RaisesWhen(h: Hll, index: nat, count: nat, g: Hll, changed: bool)
    requires HllOK(h) && index < REGISTERS && Raises(h, index, count, g, changed)
    ensures changed == (count > RegsOf(h)[index])
  {
    hide HllOK;
    hide RegsOf;
  }

  /** An update in place: the split opcode spliced in and its neighbours merged. */
  lemma SplicedOK(s: seq<bv8>, p: nat, prev: nat, first: nat, index: nat, count: nat)
    requires Valid(s) && Located(s, p, prev, first, index) && index < REGISTERS && 1 <= count <= VAL_MAX_VALUE
    ensures p + SizeAt(s, p) <= |s| && OpOK(OpAt(s[p..])) && Regs(s)[index] == Level(OpAt(s[p..]))
    ensures var piece := Split(OpAt(s[p..]), index - first, count);
            var t := Merge(Splice(s, p, piece), prev, 5);
      && Valid(t) && Regs(t) == Regs(s)[index := count]
      && |t| <= |s| + |piece| - SizeAt(s, p)
  {
    hide *;
    LocatedParts(s, p, prev, first, index);
    SplitFits(s, p, prev, first, index);
    var op := OpAt(s[p..]);
    UpdateOK(s, p, index - first, count);
    var t := Splice(s, p, Split(op, index - first, count));
    SplitOK(op, index - first, count);
    PrevAtOp(s, p, prev, Split(op, index - first, count));
    MergeKeeps(t, prev, 5);
    ValidParts(s);
    ValidBy(Merge(t, prev, 5));
  }

  lemma ValidParts(s: seq<bv8>)
    requires Valid(s)
    ensures WellFormed(s) && |Regs(s)| == REGISTERS
  {
  }

  lemma ValidBy(s: seq<bv8>)
    requires WellFormed(s) && |Regs(s)| == REGISTERS
    ensures Valid(s)
  {
  }

  lemma LocatedParts(s: seq<bv8>, p: nat, prev: nat, first: nat, index: nat)
    requires Located(s, p, prev, first, index)
    ensures AtOp(s, p) && p < |s| && Whole(s[p..]) && WellFormed(s[..p]) && first == |Regs(s[..p])|
    ensures first <= index < first + OpAt(s[p..]).len
    ensures prev <= p && WellFormed(s[..prev]) && WellFormed(s[prev..p])
  {
  }

  /** The merge starts at an opcode of the spliced string. */
  lemma PrevAtOp(s: seq<bv8>, p: nat, prev: nat, piece: seq<bv8>)
    requires AtOp(s, p) && prev <= p && WellFormed(s[..prev]) && WellFormed(s[prev..p]) && WellFormed(piece)
    requires piece != []
    ensures p + SizeAt(s, p) <= |s| && AtOp(Splice(s, p, piece), prev)
  {
    hide *;
    AtFacts(s, p);
    Around(s, p);
    var q := p + SizeAt(s, p);
    PrevSlices(s, p, prev, piece);
    RegsConcat(s[prev..p], piece);
    RegsConcat(s[prev..p] + piece, s[q..]);
    AtOpBy(Splice(s, p, piece), prev);
  }

  lemma PrevSlices(s: seq<bv8>, p: nat, prev: nat, piece: seq<bv8>)
    requires p < |s| && p + SizeAt(s, p) <= |s| && prev <= p && piece != []
    ensures var t := Splice(s, p, piece);
      prev < |t| && t[..prev] == s[..prev] && t[prev..] == s[prev..p] + piece + s[p + SizeAt(s, p)..]
  {
    hide SizeAt;
  }

  /** The update is right, and a sparse result that grew is within the limit. */
  ghost predicate AddedOK(s: seq<bv8>, index: nat, count: nat, maxBytes: nat, g: Hll, changed: bool)
    requires Valid(s) && index < REGISTERS
  {
    Raises(Sparse(s), index, count, g, changed) && (g.Sparse? && |g.s| > |s| ==> HDR_SIZE + |g.s| <= maxBytes)
  }

  lemma KeptOK(s: seq<bv8>, index: nat, count: nat, maxBytes: nat)
    requires Valid(s) && index < REGISTERS && WellFormed(s) && Regs(s)[index] >= count
    ensures AddedOK(s, index, count, maxBytes, Sparse(s), false)
  {
    assert Regs(s)[index := Regs(s)[index]] == Regs(s);
    hide Regs;
    hide WellFormed;
  }

  lemma RaisedOK(s: seq<bv8>, t: seq<bv8>, index: nat, count: nat, maxBytes: nat)
    requires Valid(s) && Valid(t) && index < REGISTERS && WellFormed(s) && WellFormed(t)
    requires Regs(t) == Regs(s)[index := count] && Regs(s)[index] < count
    requires |t| > |s| ==> HDR_SIZE + |t| <= maxBytes
    ensures AddedOK(s, index, count, maxBytes, Sparse(t), true)
  {
    hide Regs;
    hide WellFormed;
  }

  lemma PromotedOK(s: seq<bv8>, index: nat, count: nat, maxBytes: nat)
    requires Valid(s) && index < REGISTERS && count <= Dense.REGISTER_MAX && WellFormed(s)
    requires count > VAL_MAX_VALUE || count > Regs(s)[index]
    ensures var (g, changed) := DenseAdd(ToDense(s), index, count); AddedOK(s, index, count, maxBytes, g, changed)
  {
    PromoteOK(s, index, count);
    hide Raises;
    hide DenseAdd;
    hide ToDense;
  }

  lemma AddAtOK(s: seq<bv8>, p: nat, prev: nat, first: nat, index: nat, count: nat, maxBytes: nat)
    requires Valid(s) && Located(s, p, prev, first, index) && index < REGISTERS && 1 <= count <= VAL_MAX_VALUE
    ensures var (g, changed) := AddAt(s, p, prev, first, index, count, maxBytes);
      AddedOK(s, index, count, maxBytes, g, changed)
  {
    hide *;
    ValidParts(s);
    LocatedParts(s, p, prev, first, index);
    SplitFits(s, p, prev, first, index);
    SplicedOK(s, p, prev, first, index, count);
    var op := OpAt(s[p..]);
    AddAtIs(s, p, prev, first, index, count, maxBytes);
    LevelIs(op);
    SmallCount(count);
    if op.Val? && op.value >= count {
      KeptOK(s, index, count, maxBytes);
    } else if !Fits(s, p, Split(op, index - first, count), maxBytes) {
      PromotedOK(s, index, count, maxBytes);
    } else {
      var t := Merge(Splice(s, p, Split(op, index - first, count)), prev, 5);
      FitsSays(s, p, Split(op, index - first, count), maxBytes);
      ValidParts(t);
      RaisedOK(s, t, index, count, maxBytes);
    }
  }

  lemma SmallCount(count: nat)
    requires count <= VAL_MAX_VALUE
    ensures count <= Dense.REGISTER_MAX
  {
  }

  lemma LevelIs(op: Op)
    ensures Level(op) == if op.Val? then op.value else 0
  {
  }

  lemma FitsSays(s: seq<bv8>, p: nat, piece: seq<bv8>, maxBytes: nat)
    requires p < |s| && Fits(s, p, piece, maxBytes)
    ensures |piece| > SizeAt(s, p) ==> HDR_SIZE + |s| + |piece| - SizeAt(s, p) <= maxBytes
  {
  }

  lemma AddAtIs(s: seq<bv8>, p: nat, prev: nat, first: nat, index: nat, count: nat, maxBytes: nat)
    requires Valid(s) && Located(s, p, prev, first, index) && index < REGISTERS && 1 <= count <= VAL_MAX_VALUE
    ensures p < |s| && Whole(s[p..]) && OpOK(OpAt(s[p..])) && first <= index && index - first < OpAt(s[p..]).len
    ensures p + SizeAt(s, p) <= |s|
    ensures var op := OpAt(s[p..]);
            var piece := Split(op, index - first, count);
      AddAt(s, p, prev, first, index, count, maxBytes) ==
      if op.Val? && op.value >= count then (Sparse(s), false)
      else if !Fits(s, p, piece, maxBytes) then DenseAdd(ToDense(s), index, count)
      else (Sparse(Merge(Splice(s, p, piece), prev, 5)), true)
  {
    SplitFits(s, p, prev, first, index);
    hide Located;
    hide OpAt;
    hide Split;
    hide Splice;
    hide Merge;
    hide Fits;
    hide DenseAdd;
    hide ToDense;
  }

  /** Adding to a sparse object does exactly the register update, whether it stays sparse or is
      promoted; and a sparse result that grew is within the limit. */
  lemma SparseAddOK(s: seq<bv8>, index: nat, count: nat, maxBytes: nat)
    requires Valid(s) && index < REGISTERS && 1 <= count <= Dense.REGISTER_MAX
    ensures var (g, changed) := SparseAdd(s, index, count, maxBytes);
      && Raises(Sparse(s), index, count, g, changed)
      && (g.Sparse? && |g.s| > |s| ==> HDR_SIZE + |g.s| <= maxBytes)
  {
    ValidParts(s);
    if count > VAL_MAX_VALUE {
      PromotedOK(s, index, count, maxBytes);
    } else {
      var r := Find(s, index);
      AddAtOK(s, r.0, r.1, r.2, index, count, maxBytes);
    }
    hide Raises;
    hide DenseAdd;
    hide ToDense;
    hide AddAt;
    hide Find;
  }
}
