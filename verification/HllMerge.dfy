/** `hllMerge` and what PFADD, PFCOUNT and PFMERGE do to objects (hyperloglog.c). */
module HllMerge {
  import opened Options
  import opened HllSparse
  import opened HllSparseAdd
  import opened HllObject
  import HllMethods
  import HllSums
  import Dense = HllDense

  // ---- Registers side by side ----

  function Max(a: nat, b: nat): nat { if b > a then b else a }

  function MaxRegs(a: seq<nat>, b: seq<nat>): (r: seq<nat>)
    requires |a| == |b|
    ensures |r| == |a| && forall i :: 0 <= i < |r| ==> r[i] == Max(a[i], b[i])
  {
    seq(|a|, i requires 0 <= i < |a| && |a| == |b| => Max(a[i], b[i]))
  }

  function NoneSet(): (r: seq<nat>)
    ensures |r| == REGISTERS && forall i :: 0 <= i < REGISTERS ==> r[i] == 0
  {
    seq(REGISTERS, _ => 0)
  }

  /** Registers form a join-semilattice with the empty ones at the bottom. */
  lemma Semilattice(a: seq<nat>, b: seq<nat>, c: seq<nat>)
    requires |a| == |b| == |c| == REGISTERS
    ensures MaxRegs(a, b) == MaxRegs(b, a)
    ensures MaxRegs(MaxRegs(a, b), c) == MaxRegs(a, MaxRegs(b, c))
    ensures MaxRegs(a, a) == a
    ensures MaxRegs(NoneSet(), a) == a
  {
  }

  /** The first `n` registers are merged. */
  ghost predicate MergedTo(start: seq<nat>, regs: seq<nat>, n: nat, now: seq<nat>) {
    && |start| == |now| && n <= |regs| && n <= |start|
    && forall i :: 0 <= i < |now| ==> now[i] == if i < n then Max(start[i], regs[i]) else start[i]
  }

  /** The inner loop over a VAL opcode (hyperloglog.c:1073-1076). */
  method MaxRun(max: array<nat>, i0: nat, len: nat, v: nat, ghost start: seq<nat>, ghost regs: seq<nat>)
    requires MergedTo(start, regs, i0, max[..]) && i0 + len <= |regs| <= |start|
    requires forall i :: i0 <= i < i0 + len ==> regs[i] == v
    modifies max
    ensures MergedTo(start, regs, i0 + len, max[..])
  {
    var i, left := i0, len;
    while left > 0
      invariant i + left == i0 + len && MergedTo(start, regs, i, max[..])
    {
      left := left - 1;
      if v > max[i] {
        max[i] := v;
      }
      i := i + 1;
    }
  }

  /** A run of zeros changes nothing. */
  lemma ZerosMerge(start: seq<nat>, regs: seq<nat>, i: nat, len: nat, now: seq<nat>)
    requires MergedTo(start, regs, i, now) && i + len <= |regs| <= |start|
    requires forall k :: i <= k < i + len ==> regs[k] == 0
    ensures MergedTo(start, regs, i + len, now)
  {
  }

  lemma NoneMerged(start: seq<nat>, regs: seq<nat>)
    ensures MergedTo(start, regs, 0, start)
  {
  }

  /** The sparse loop reached opcode `p` and register `i`. */
  ghost predicate Reading(s: seq<bv8>, p: nat, i: nat) {
    && WellFormed(s) && p <= |s| && WellFormed(s[p..]) && i <= |Regs(s)| && Regs(s[p..]) == Regs(s)[i..]
  }

  lemma ReadingStarts(s: seq<bv8>)
    requires WellFormed(s)
    ensures Reading(s, 0, 0)
  {
    assert s[0..] == s && Regs(s)[0..] == Regs(s);
    hide WellFormed;
    hide Regs;
  }

  lemma ReadingEnds(s: seq<bv8>, p: nat, i: nat)
    requires Reading(s, p, i) && p >= |s|
    ensures i == |Regs(s)|
  {
    assert s[p..] == [];
    assert Regs(s[p..]) == [];
    assert |Regs(s)[i..]| == |Regs(s)| - i;
  }

  lemma ReadingStep(s: seq<bv8>, p: nat, i: nat)
    requires Reading(s, p, i) && p < |s|
    ensures WellFormed(s) && Whole(s[p..]) && SizeAt(s, p) > 0 && p + SizeAt(s, p) <= |s|
    ensures var op := OpAt(s[p..]);
      && Reading(s, p + SizeAt(s, p), i + op.len) && i + op.len <= |Regs(s)|
      && forall k :: i <= k < i + op.len ==> Regs(s)[k] == if op.Val? then op.value else 0
  {
    ReadingParts(s, p, i);
    HllSums.RunAhead(s, p, i);
    LevelIs(OpAt(s[p..]));
    hide WellFormed;
    hide OpAt;
    hide Regs;
    hide Whole;
    hide SizeAt;
    hide Level;
  }

  lemma ReadingParts(s: seq<bv8>, p: nat, i: nat)
    requires Reading(s, p, i)
    ensures WellFormed(s) && p <= |s| && WellFormed(s[p..]) && i <= |Regs(s)| && Regs(s[p..]) == Regs(s)[i..]
  {
  }

  /** What `hllMerge` is given: valid registers, or opcodes that cover too few. */
  ghost predicate Readable(h: Hll) {
    match h
    case Sparse(s) => WellFormed(s) && |Regs(s)| <= REGISTERS
    case DenseRegs(d) => Dense.DenseOK(d)
  }

  /** The sparse branch of `hllMerge` (hyperloglog.c:1056-1081). */
  method MergeSparse(max: array<nat>, s: seq<bv8>) returns (i: nat)
    requires max.Length == REGISTERS && WellFormed(s) && |Regs(s)| <= REGISTERS
    modifies max
    ensures i == |Regs(s)| && MergedTo(old(max[..]), Regs(s), |Regs(s)|, max[..])
  {
    hide *;
    ghost var start, regs := max[..], Regs(s);
    var p := 0;
    i := 0;
    ReadingStarts(s);
    NoneMerged(start, regs);
    while p < |s|
      invariant Reading(s, p, i) && MergedTo(start, regs, i, max[..])
      decreases |s| - p
    {
      ReadingStep(s, p, i);
      var op, size := HllMethods.Decode(s, p);
      if op.Val? {
        MaxRun(max, i, op.len, op.value, start, regs);
      } else {
        ZerosMerge(start, regs, i, op.len, max[..]);
      }
      p, i := p + size, i + op.len;
    }
    ReadingEnds(s, p, i);
  }

  /** The dense branch (hyperloglog.c:1048-1054). */
  method MergeDense(max: array<nat>, d: seq<bv8>)
    requires max.Length == REGISTERS && Dense.DenseOK(d)
    modifies max
    ensures MergedTo(old(max[..]), Dense.Registers(d), REGISTERS, max[..])
  {
    ghost var start, regs := max[..], Dense.Registers(d);
    hide Dense.Reg;
    for i := 0 to REGISTERS
      invariant MergedTo(start, regs, i, max[..])
    {
      var val := Dense.Reg(d, i);
      if val > max[i] {
        max[i] := val;
      }
    }
  }

  /** `hllMerge` (hyperloglog.c:1044-1083): it fails exactly on opcodes that do not cover the registers;
      otherwise every register of `max` becomes the greater of the two. */
  method Merge(max: array<nat>, h: Hll) returns (ok: bool)
    requires max.Length == REGISTERS && Readable(h)
    modifies max
    ensures ok <==> HllOK(h)
    ensures ok ==> max[..] == MaxRegs(old(max[..]), RegsOf(h))
  {
    ghost var start := max[..];
    match h {
      case DenseRegs(d) =>
        MergeDense(max, d);
        assert max[..] == MaxRegs(start, Dense.Registers(d));
        ok := true;
      case Sparse(s) =>
        var i := MergeSparse(max, s);
        ok := i == REGISTERS;
        if ok {
          assert max[..] == MaxRegs(start, Regs(s));
        }
    }
  }

  // ---- Several objects ----

  ghost predicate AllOK(objs: seq<Option<Hll>>) {
    forall k :: 0 <= k < |objs| && objs[k].Some? ==> HllOK(objs[k].value)
  }

  /** The registers of all the objects that exist, merged. */
  ghost function MaxAll(objs: seq<Option<Hll>>): (r: seq<nat>)
    requires AllOK(objs)
    ensures |r| == REGISTERS
  {
    if objs == [] then NoneSet()
    else
      var n := |objs| - 1;
      if objs[n].None? then MaxAll(objs[..n]) else MaxRegs(MaxAll(objs[..n]), RegsOf(objs[n].value))
  }

  lemma OKReadable(h: Hll)
    requires HllOK(h)
    ensures Readable(h)
  {
  }

  lemma MaxAllNext(objs: seq<Option<Hll>>, j: nat)
    requires AllOK(objs) && j < |objs|
    ensures AllOK(objs[..j]) && AllOK(objs[..j + 1]) && (objs[j].Some? ==> HllOK(objs[j].value))
    ensures MaxAll(objs[..j + 1]) ==
            if objs[j].None? then MaxAll(objs[..j]) else MaxRegs(MaxAll(objs[..j]), RegsOf(objs[j].value))
  {
    assert objs[..j + 1][..j] == objs[..j];
    hide RegsOf;
    hide HllOK;
  }

  /** The loop over the keys of PFMERGE and of PFCOUNT with several keys (hyperloglog.c:1213-1225,
      1294-1306). */
  method MergeAll(objs: seq<Option<Hll>>) returns (max: array<nat>)
    requires AllOK(objs)
    ensures fresh(max) && max.Length == REGISTERS && max[..] == MaxAll(objs)
  {
    max := new nat[REGISTERS](_ => 0);
    assert max[..] == NoneSet();
    assert objs[..0] == [];
    hide HllOK;
    hide RegsOf;
    for j := 0 to |objs|
      invariant max.Length == REGISTERS && AllOK(objs[..j]) && max[..] == MaxAll(objs[..j])
    {
      MaxAllNext(objs, j);
      if objs[j].Some? {
        OKReadable(objs[j].value);
        var ok := Merge(max, objs[j].value);
        assert ok;
      }
    }
    assert objs[..|objs|] == objs;
  }

  /** Every register fits six bits. */
  ghost predicate Fit(regs: seq<nat>) { forall i :: 0 <= i < |regs| ==> regs[i] <= Dense.REGISTER_MAX }

  lemma RegsFit(h: Hll)
    requires HllOK(h)
    ensures Fit(RegsOf(h))
  {
    match h {
      case Sparse(s) =>
        hide Regs;
      case DenseRegs(d) =>
        forall i | 0 <= i < REGISTERS ensures RegsOf(h)[i] <= Dense.REGISTER_MAX {
          Dense.RegSmall(d, i);
        }
        hide Dense.Reg;
    }
  }

  lemma {:induction false} MaxAllFit(objs: seq<Option<Hll>>)
    requires AllOK(objs)
    ensures Fit(MaxAll(objs))
  {
    if objs != [] {
      var n := |objs| - 1;
      MaxAllFit(objs[..n]);
      if objs[n].Some? {
        RegsFit(objs[n].value);
      }
      hide HllOK;
      hide RegsOf;
    }
  }

  /** The final loop of PFMERGE (hyperloglog.c:1332-1334): whatever was in the registers is replaced. */
  method WriteAll(d: array<bv8>, max: array<nat>)
    requires Dense.DenseOK(d[..]) && max.Length == REGISTERS && Fit(max[..])
    modifies d
    ensures Dense.DenseOK(d[..]) && Dense.Registers(d[..]) == max[..]
  {
    ghost var regs := max[..];
    hide Dense.Reg;
    hide Dense.SetReg;
    for j := 0 to REGISTERS
      invariant Dense.DenseOK(d[..]) && max[..] == regs
      invariant forall i :: 0 <= i < j ==> Dense.Registers(d[..])[i] == regs[i]
    {
      Dense.SetRegister(d, j, max[j]);
    }
  }

  /** `createHLLObject` (hyperloglog.c:1089-1119). */
  method Create() returns (h: Hll)
    ensures h == Fresh()
  {
    var s: seq<bv8>, aux := [], REGISTERS;
    while aux > 0
      invariant if aux == 0 then s == ZeroRun(REGISTERS) else s == [] && aux == REGISTERS
    {
      var xzero := XZERO_MAX_LEN;
      if xzero > aux {
        xzero := aux;
      }
      s := s + [XZeroHigh(xzero), XZeroLow(xzero)];
      aux := aux - xzero;
    }
    h := Sparse(s);
  }

  function Fresh(): Hll { Sparse(ZeroRun(REGISTERS)) }

  lemma FreshOK()
    ensures HllOK(Fresh()) && RegsOf(Fresh()) == NoneSet()
  {
    ZeroRunOK(REGISTERS);
    assert Repeat(0, REGISTERS) == NoneSet();
    hide ZeroRun;
  }

  /** `pfmergeCommand` (hyperloglog.c:1285-1343): the destination, dense whatever it was, has the
      merged registers of all the keys, its own among them. */
  method PfMerge(dest: Option<Hll>, others: seq<Option<Hll>>) returns (h: Hll)
    requires AllOK([dest] + others)
    ensures h.DenseRegs? && HllOK(h) && RegsOf(h) == MaxAll([dest] + others)
  {
    assert ([dest] + others)[0] == dest;
    var max := MergeAll([dest] + others);
    MaxAllFit([dest] + others);
    var o: Hll;
    if dest.None? {
      FreshOK();
      o := Create();
    } else {
      o := dest.value;
    }
    var d: array<bv8>;
    match o {
      case Sparse(s) =>
        ToDenseOK(s);
        d := HllMethods.SparseToDense(s);
      case DenseRegs(r) =>
        d := new bv8[|r|](i requires 0 <= i < |r| => r[i]);
        assert d[..] == r;
    }
    assert Dense.DenseOK(d[..]);
    hide RegsOf;
    hide MaxAll;
    hide ToDense;
    hide Fresh;
    WriteAll(d, max);
    h := DenseRegs(d[..]);
    DenseAs(d[..], 0, 0);
  }
}
