/** The sums of 2^-reg in hyperloglog.c, over exact reals: the unrolled dense loop, the generic dense
    loop, the sparse loop and the raw loop all give the sum and the zero count of the register vector. */
module HllSums {
  import opened HllSparse
  import opened HllSparseAdd
  import opened HllMethods
  import Dense = HllDense

  /** `PE[j]`: 2^-j. */
  function PE(j: nat): real { if j == 0 then 1.0 else PE(j - 1) / 2.0 }

  /** The sum over the first `n` registers, and how many of them are zero. */
  function Sum(regs: seq<nat>, n: nat): real
    requires n <= |regs|
  {
    if n == 0 then 0.0 else Sum(regs, n - 1) + PE(regs[n - 1])
  }

  function Zeros(regs: seq<nat>, n: nat): nat
    requires n <= |regs|
  {
    if n == 0 then 0 else Zeros(regs, n - 1) + if regs[n - 1] == 0 then 1 else 0
  }

  /** The sum that leaves the zero registers out: they are added at the end. */
  lemma {:induction false} NonzeroSum(regs: seq<nat>, n: nat, e: real)
    requires n < |regs| && e + Zeros(regs, n) as real == Sum(regs, n)
    ensures regs[n] == 0 ==> e + Zeros(regs, n + 1) as real == Sum(regs, n + 1)
    ensures regs[n] != 0 ==> (e + PE(regs[n])) + Zeros(regs, n + 1) as real == Sum(regs, n + 1)
  {
    assert PE(0) == 1.0;
    hide PE;
  }

  /** The table `hllCount` precomputes (hyperloglog.c:977-981). */
  method PowersTable() returns (t: seq<real>)
    ensures |t| == 64 && forall j :: 0 <= j < 64 ==> t[j] == PE(j)
  {
    t := [1.0];
    for j := 1 to 64
      invariant |t| == j && forall i :: 0 <= i < j ==> t[i] == PE(i)
    {
      t := t + [t[j - 1] / 2.0];
    }
  }

  ghost predicate IsPE(t: seq<real>) { |t| == 64 && forall j :: 0 <= j < 64 ==> t[j] == PE(j) }

  /** `hllRawSum` (hyperloglog.c:928-954): eight registers at a time, all zero at once if they are. */
  method RawSum(regs: seq<nat>, t: seq<real>) returns (e: real, ez: nat)
    requires |regs| == REGISTERS && IsPE(t) && forall i :: 0 <= i < |regs| ==> regs[i] < 64
    ensures e == Sum(regs, REGISTERS) && ez == Zeros(regs, REGISTERS)
  {
    e, ez := 0.0, 0;
    for j := 0 to REGISTERS / 8
      invariant ez == Zeros(regs, 8 * j) && e + ez as real == Sum(regs, 8 * j)
    {
      if forall k :: 8 * j <= k < 8 * j + 8 ==> regs[k] == 0 {
        ZeroWord(regs, 8 * j, e);
        ez := ez + 8;
      } else {
        e, ez := RawWord(regs, t, 8 * j, e, ez);
      }
    }
    e := e + ez as real;
  }

  lemma ZeroWord(regs: seq<nat>, n: nat, e: real)
    requires n + 8 <= |regs| && e + Zeros(regs, n) as real == Sum(regs, n)
    requires forall k :: n <= k < n + 8 ==> regs[k] == 0
    ensures Zeros(regs, n + 8) == Zeros(regs, n) + 8
    ensures e + Zeros(regs, n + 8) as real == Sum(regs, n + 8)
  {
    ZeroRunSum(regs, n, 8, e);
  }

  lemma {:induction false} ZeroRunSum(regs: seq<nat>, n: nat, len: nat, e: real)
    requires n + len <= |regs| && e + Zeros(regs, n) as real == Sum(regs, n)
    requires forall k :: n <= k < n + len ==> regs[k] == 0
    ensures Zeros(regs, n + len) == Zeros(regs, n) + len
    ensures e + Zeros(regs, n + len) as real == Sum(regs, n + len)
    decreases len
  {
    if len > 0 {
      ZeroRunSum(regs, n, len - 1, e);
      NonzeroSum(regs, n + len - 1, e);
      hide Sum;
    }
  }

  /** The eight bytes of a word that is not zero. */
  method RawWord(regs: seq<nat>, t: seq<real>, n: nat, e0: real, ez0: nat) returns (e: real, ez: nat)
    requires n + 8 <= |regs| && IsPE(t) && forall i :: 0 <= i < |regs| ==> regs[i] < 64
    requires ez0 == Zeros(regs, n) && e0 + ez0 as real == Sum(regs, n)
    ensures ez == Zeros(regs, n + 8) && e + ez as real == Sum(regs, n + 8)
  {
    e, ez := e0, ez0;
    for k := 0 to 8
      invariant ez == Zeros(regs, n + k) && e + ez as real == Sum(regs, n + k)
    {
      NonzeroSum(regs, n + k, e);
      hide Sum;
      hide PE;
      if regs[n + k] != 0 {
        e := e + t[regs[n + k]];
      } else {
        ez := ez + 1;
      }
    }
  }

  /** The generic loop of `hllDenseSum` (hyperloglog.c:543-554). */
  method DenseSumGeneric(p: array<bv8>, t: seq<real>) returns (e: real, ez: nat)
    requires Dense.DenseOK(p[..]) && IsPE(t)
    ensures e == Sum(Dense.Registers(p[..]), REGISTERS) && ez == Zeros(Dense.Registers(p[..]), REGISTERS)
  {
    ghost var regs := Dense.Registers(p[..]);
    e, ez := 0.0, 0;
    for j := 0 to REGISTERS
      invariant ez == Zeros(regs, j) && e + ez as real == Sum(regs, j)
    {
      var reg := Dense.GetRegister(p, j);
      NonzeroSum(regs, j, e);
      hide Sum;
      hide PE;
      hide Dense.Reg;
      if reg == 0 {
        ez := ez + 1;
      } else {
        e := e + t[reg];
      }
    }
    e := e + ez as real;
  }

  // The four registers in the k-th group of three bytes.

  lemma RegFirst(d: seq<bv8>, k: nat)
    requires Dense.DenseOK(d) && k < REGISTERS / 4
    ensures Dense.Reg(d, 4 * k) == Dense.First(d[3 * k]) as nat
  {
    GroupAt(d, k, 0);
    hide Dense.First;
    hide Dense.Get;
  }

  lemma RegSecond(d: seq<bv8>, k: nat)
    requires Dense.DenseOK(d) && k < REGISTERS / 4
    ensures Dense.Reg(d, 4 * k + 1) == Dense.Second(d[3 * k], d[3 * k + 1]) as nat
  {
    GroupAt(d, k, 1);
    hide Dense.Second;
    hide Dense.Get;
  }

  lemma RegThird(d: seq<bv8>, k: nat)
    requires Dense.DenseOK(d) && k < REGISTERS / 4
    ensures Dense.Reg(d, 4 * k + 2) == Dense.Third(d[3 * k + 1], d[3 * k + 2]) as nat
  {
    GroupAt(d, k, 2);
    hide Dense.Third;
    hide Dense.Get;
  }

  lemma RegFourth(d: seq<bv8>, k: nat)
    requires Dense.DenseOK(d) && k < REGISTERS / 4
    ensures Dense.Reg(d, 4 * k + 3) == Dense.Fourth(d[3 * k + 2]) as nat
  {
    GroupAt(d, k, 3);
    hide Dense.Fourth;
    hide Dense.Get;
  }

  lemma GroupAt(d: seq<bv8>, k: nat, r: nat)
    requires Dense.DenseOK(d) && k < REGISTERS / 4 && r < 4
    ensures Dense.Get(d, 4 * k + r) == Dense.GetGroup(d[3 * k], d[3 * k + 1], d[3 * k + 2], r)
  {
    Dense.GetIsGroup(d, 4 * k + r);
    assert (4 * k + r) / 4 == k && (4 * k + r) % 4 == r;
    hide Dense.Get;
    hide Dense.GetGroup;
  }

  lemma SmallRegisters(d: seq<bv8>, k: nat)
    requires Dense.DenseOK(d) && k < REGISTERS / 4
    ensures Dense.Reg(d, 4 * k) < 64 && Dense.Reg(d, 4 * k + 1) < 64
    ensures Dense.Reg(d, 4 * k + 2) < 64 && Dense.Reg(d, 4 * k + 3) < 64
  {
    Dense.RegSmall(d, 4 * k);
    Dense.RegSmall(d, 4 * k + 1);
    Dense.RegSmall(d, 4 * k + 2);
    Dense.RegSmall(d, 4 * k + 3);
    hide Dense.Reg;
  }

  /** How many of four are zero. */
  function ZeroCount(a: nat, b: nat, c: nat, d: nat): nat {
    (if a == 0 then 1 else 0) + (if b == 0 then 1 else 0) + (if c == 0 then 1 else 0) + if d == 0 then 1 else 0
  }

  lemma SumStep(regs: seq<nat>, n: nat)
    requires n < |regs|
    ensures Sum(regs, n + 1) == Sum(regs, n) + PE(regs[n])
    ensures Zeros(regs, n + 1) == Zeros(regs, n) + if regs[n] == 0 then 1 else 0
  {
  }

  lemma FourSum(regs: seq<nat>, n: nat)
    requires n + 4 <= |regs|
    ensures Sum(regs, n + 4) ==
            Sum(regs, n) + ((PE(regs[n]) + PE(regs[n + 1])) + (PE(regs[n + 2]) + PE(regs[n + 3])))
    ensures Zeros(regs, n + 4) == Zeros(regs, n) + ZeroCount(regs[n], regs[n + 1], regs[n + 2], regs[n + 3])
  {
    hide PE;
    hide Sum;
    hide Zeros;
    SumStep(regs, n);
    SumStep(regs, n + 1);
    SumStep(regs, n + 2);
    SumStep(regs, n + 3);
  }

  /** Four registers of the unrolled loop: bytes `3k`, `3k + 1` and `3k + 2`. */
  method FourRegisters(p: array<bv8>, k: nat) returns (r0: nat, r1: nat, r2: nat, r3: nat)
    requires Dense.DenseOK(p[..]) && k < REGISTERS / 4
    ensures r0 == Dense.Registers(p[..])[4 * k] && r1 == Dense.Registers(p[..])[4 * k + 1]
    ensures r2 == Dense.Registers(p[..])[4 * k + 2] && r3 == Dense.Registers(p[..])[4 * k + 3]
    ensures r0 < 64 && r1 < 64 && r2 < 64 && r3 < 64
  {
    ghost var d := p[..];
    RegFirst(d, k);
    RegSecond(d, k);
    RegThird(d, k);
    RegFourth(d, k);
    SmallRegisters(d, k);
    hide Dense.First;
    hide Dense.Second;
    hide Dense.Third;
    hide Dense.Fourth;
    hide Dense.Reg;
    var x, y, z := p[3 * k], p[3 * k + 1], p[3 * k + 2];
    r0 := Dense.First(x) as nat;
    r1 := Dense.Second(x, y) as nat;
    r2 := Dense.Third(y, z) as nat;
    r3 := Dense.Fourth(z) as nat;
  }

  /** The sum and the zero count of registers `n` to `m`. */
  ghost predicate Adds(regs: seq<nat>, n: nat, m: nat, e: real, ez: nat) {
    n <= m <= |regs| && Sum(regs, m) == Sum(regs, n) + e && Zeros(regs, m) == Zeros(regs, n) + ez
  }

  lemma AddsChain(regs: seq<nat>, n: nat, m: nat, k: nat, e: real, ez: nat, f: real, fz: nat)
    requires Adds(regs, n, m, e, ez) && Adds(regs, m, k, f, fz)
    ensures Adds(regs, n, k, e + f, ez + fz)
  {
    hide Sum;
    hide Zeros;
  }

  /** Three bytes of the unrolled loop. */
  method GroupSum(p: array<bv8>, t: seq<real>, k: nat, ghost regs: seq<nat>) returns (s: real, z: nat)
    requires Dense.DenseOK(p[..]) && IsPE(t) && k < REGISTERS / 4 && regs == Dense.Registers(p[..])
    ensures Adds(regs, 4 * k, 4 * k + 4, s, z)
  {
    var r0, r1, r2, r3 := FourRegisters(p, k);
    FourSum(regs, 4 * k);
    hide Sum;
    hide Zeros;
    hide PE;
    hide Dense.Reg;
    hide Dense.Registers;
    z := ZeroCount(r0, r1, r2, r3);
    s := (t[r0] + t[r1]) + (t[r2] + t[r3]);
  }

  /** Twelve bytes: sixteen registers. */
  method TurnSum(p: array<bv8>, t: seq<real>, j: nat, ghost regs: seq<nat>) returns (s: real, z: nat)
    requires Dense.DenseOK(p[..]) && IsPE(t) && j < 1024 && regs == Dense.Registers(p[..])
    ensures Adds(regs, 16 * j, 16 * j + 16, s, z)
  {
    hide *;
    assert REGISTERS == 16384 by { Registers16384(); }
    var s0, z0 := GroupSum(p, t, 4 * j, regs);
    var s1, z1 := GroupSum(p, t, 4 * j + 1, regs);
    var s2, z2 := GroupSum(p, t, 4 * j + 2, regs);
    var s3, z3 := GroupSum(p, t, 4 * j + 3, regs);
    AddsChain(regs, 16 * j, 16 * j + 4, 16 * j + 8, s0, z0, s1, z1);
    AddsChain(regs, 16 * j, 16 * j + 8, 16 * j + 12, s0 + s1, z0 + z1, s2, z2);
    AddsChain(regs, 16 * j, 16 * j + 12, 16 * j + 16, s0 + s1 + s2, z0 + z1 + z2, s3, z3);
    s := s0 + s1 + s2 + s3;
    z := z0 + z1 + z2 + z3;
  }

  lemma Registers16384()
    ensures REGISTERS == 16384
  {
  }

  /** The unrolled loop of `hllDenseSum` (hyperloglog.c:515-541), four registers to a group of three
      bytes, four groups to a turn. */
  method DenseSum(p: array<bv8>, t: seq<real>) returns (e: real, ez: nat)
    requires Dense.DenseOK(p[..]) && IsPE(t)
    ensures e == Sum(Dense.Registers(p[..]), REGISTERS) && ez == Zeros(Dense.Registers(p[..]), REGISTERS)
  {
    ghost var regs := Dense.Registers(p[..]);
    e, ez := 0.0, 0;
    AddsNothing(regs);
    for j := 0 to 1024
      invariant Adds(regs, 0, 16 * j, e, ez)
    {
      hide *;
      var s, z := TurnSum(p, t, j, regs);
      AddsChain(regs, 0, 16 * j, 16 * j + 16, e, ez, s, z);
      e := e + s;
      ez := ez + z;
    }
    AddsAll(regs, e, ez);
  }

  lemma AddsNothing(regs: seq<nat>)
    ensures Adds(regs, 0, 0, 0.0, 0)
  {
  }

  lemma AddsAll(regs: seq<nat>, e: real, ez: nat)
    requires Adds(regs, 0, REGISTERS, e, ez)
    ensures REGISTERS <= |regs| && e == Sum(regs, REGISTERS) && ez == Zeros(regs, REGISTERS)
  {
    assert Sum(regs, 0) == 0.0;
  }

  // ---- The sparse loop ----

  /** What a run adds. */
  ghost function RunE(v: nat, len: nat): real { PE(v) * len as real }

  ghost function RunZ(v: nat, len: nat): nat { if v == 0 then len else 0 }

  lemma OneMore(v: nat, len: nat)
    requires len > 0
    ensures RunE(v, len - 1) + PE(v) == RunE(v, len) && RunZ(v, len - 1) + RunZ(v, 1) == RunZ(v, len)
  {
    hide PE;
    assert len as real == (len - 1) as real + 1.0;
  }

  lemma AddsOne(regs: seq<nat>, n: nat)
    requires n < |regs|
    ensures Adds(regs, n, n + 1, PE(regs[n]), RunZ(regs[n], 1))
  {
    SumStep(regs, n);
    hide Sum;
    hide Zeros;
  }

  lemma AddsNone(regs: seq<nat>, n: nat, v: nat)
    requires n <= |regs|
    ensures Adds(regs, n, n, RunE(v, 0), RunZ(v, 0))
  {
    hide PE;
    assert PE(v) * 0.0 == 0.0;
  }

  /** The registers of a run are all alike. */
  lemma {:induction false} RunSum(regs: seq<nat>, n: nat, len: nat, v: nat)
    requires n + len <= |regs| && forall i :: n <= i < n + len ==> regs[i] == v
    ensures Adds(regs, n, n + len, RunE(v, len), RunZ(v, len))
    decreases len
  {
    hide *;
    if len == 0 {
      AddsNone(regs, n, v);
    } else {
      RunSum(regs, n, len - 1, v);
      AddsOne(regs, n + len - 1);
      OneMore(v, len);
      AddsChain(regs, n, n + len - 1, n + len, RunE(v, len - 1), RunZ(v, len - 1), PE(v), RunZ(v, 1));
    }
  }

  /** The sums when zero registers are counted but not added yet. */
  ghost predicate Summing(s: seq<bv8>, p: nat, idx: nat, e: real, ez: nat) {
    && WellFormed(s) && p <= |s| && WellFormed(s[p..]) && idx <= |Regs(s)| && Regs(s[p..]) == Regs(s)[idx..]
    && Adds(Regs(s), 0, idx, e + ez as real, ez)
  }

  lemma SummingStarts(s: seq<bv8>)
    requires WellFormed(s)
    ensures Summing(s, 0, 0, 0.0, 0)
  {
    assert s[0..] == s && Regs(s)[0..] == Regs(s);
    hide WellFormed;
    hide Regs;
    AddsNothing(Regs(s));
  }

  lemma SummingEnds(s: seq<bv8>, p: nat, idx: nat, e: real, ez: nat)
    requires Summing(s, p, idx, e, ez) && p >= |s|
    ensures WellFormed(s) && idx == |Regs(s)|
    ensures e + ez as real == Sum(Regs(s), |Regs(s)|) && ez == Zeros(Regs(s), |Regs(s)|)
  {
    assert s[p..] == [];
    assert Regs(s[p..]) == [];
    assert Sum(Regs(s), 0) == 0.0;
  }

  lemma Within(regs: seq<nat>, idx: nat, a: seq<nat>, r: seq<nat>, v: nat)
    requires idx <= |regs| && regs[idx..] == a + r && forall i :: 0 <= i < |a| ==> a[i] == v
    ensures idx + |a| <= |regs| && regs[idx + |a|..] == r
    ensures forall i :: idx <= i < idx + |a| ==> regs[i] == v
  {
    forall i | idx <= i < idx + |a| ensures regs[i] == v {
      assert regs[i] == regs[idx..][i - idx] == a[i - idx];
    }
    assert regs[idx + |a|..] == regs[idx..][|a|..];
  }

  lemma ExpandAll(op: Op)
    ensures |Expand(op)| == op.len && forall i :: 0 <= i < op.len ==> Expand(op)[i] == Level(op)
  {
  }

  /** The next run. */
  lemma RunAhead(s: seq<bv8>, p: nat, idx: nat)
    requires WellFormed(s) && p < |s| && WellFormed(s[p..]) && idx <= |Regs(s)| && Regs(s[p..]) == Regs(s)[idx..]
    ensures Whole(s[p..]) && SizeAt(s, p) > 0 && p + SizeAt(s, p) <= |s|
    ensures var q, op := p + SizeAt(s, p), OpAt(s[p..]);
      && WellFormed(s[q..]) && idx + op.len <= |Regs(s)| && Regs(s[q..]) == Regs(s)[idx + op.len..]
      && (forall i :: idx <= i < idx + op.len ==> Regs(s)[i] == Level(op))
  {
    hide *;
    FirstWhole(s[p..]);
    RegsStep(s[p..]);
    TailAt(s, p);
    var op := OpAt(s[p..]);
    ExpandAll(op);
    Within(Regs(s), idx, Expand(op), Regs(s[p + SizeAt(s, p)..]), Level(op));
  }

  lemma SummingStep(s: seq<bv8>, p: nat, idx: nat, e: real, ez: nat)
    requires Summing(s, p, idx, e, ez) && p < |s|
    ensures Whole(s[p..]) && SizeAt(s, p) > 0
    ensures var q, op := p + SizeAt(s, p), OpAt(s[p..]);
      if op.Val? then op.value <= VAL_MAX_VALUE && Summing(s, q, idx + op.len, e + RunE(op.value, op.len), ez)
      else Summing(s, q, idx + op.len, e, ez + op.len)
  {
    hide *;
    SummingParts(s, p, idx, e, ez);
    RunAhead(s, p, idx);
    var q, op := p + SizeAt(s, p), OpAt(s[p..]);
    OpAtOK(s[p..]);
    OpBounds(op);
    LevelSum(op);
    RunSum(Regs(s), idx, op.len, Level(op));
    AddsChain(Regs(s), 0, idx, idx + op.len, e + ez as real, ez, RunE(Level(op), op.len), RunZ(Level(op), op.len));
    if op.Val? {
      SummingBy(s, q, idx + op.len, e + RunE(op.value, op.len), ez);
    } else {
      SummingBy(s, q, idx + op.len, e, ez + op.len);
    }
  }

  lemma LevelSum(op: Op)
    requires op.Val? ==> op.value > 0
    ensures op.Val? ==> RunE(Level(op), op.len) == RunE(op.value, op.len) && RunZ(Level(op), op.len) == 0
    ensures !op.Val? ==> RunE(Level(op), op.len) == op.len as real && RunZ(Level(op), op.len) == op.len
  {
    assert PE(0) == 1.0;
    hide PE;
  }

  lemma OpBounds(op: Op)
    requires OpOK(op)
    ensures op.Val? ==> 1 <= op.value <= VAL_MAX_VALUE
  {
  }

  lemma SummingParts(s: seq<bv8>, p: nat, idx: nat, e: real, ez: nat)
    requires Summing(s, p, idx, e, ez)
    ensures WellFormed(s) && p <= |s| && WellFormed(s[p..]) && idx <= |Regs(s)| && Regs(s[p..]) == Regs(s)[idx..]
    ensures Adds(Regs(s), 0, idx, e + ez as real, ez)
  {
  }

  lemma SummingBy(s: seq<bv8>, p: nat, idx: nat, e: real, ez: nat)
    requires WellFormed(s) && p <= |s| && WellFormed(s[p..]) && idx <= |Regs(s)| && Regs(s[p..]) == Regs(s)[idx..]
    requires Adds(Regs(s), 0, idx, e + ez as real, ez)
    ensures Summing(s, p, idx, e, ez)
  {
  }

  /** `hllSparseSum` (hyperloglog.c:888-918) of whole opcodes: `invalid` exactly when they do not cover
      the registers. */
  method SparseSum(s: seq<bv8>, t: seq<real>) returns (e: real, ez: nat, invalid: bool)
    requires WellFormed(s) && IsPE(t)
    ensures e == Sum(Regs(s), |Regs(s)|) && ez == Zeros(Regs(s), |Regs(s)|)
    ensures invalid <==> !Valid(s)
  {
    var p, idx := 0, 0;
    e, ez := 0.0, 0;
    SummingStarts(s);
    while p < |s|
      invariant Summing(s, p, idx, e, ez)
      decreases |s| - p
    {
      e, ez, p, idx := SparseSumOne(s, t, e, ez, p, idx);
    }
    SummingEnds(s, p, idx, e, ez);
    invalid := idx != REGISTERS;
    e := e + ez as real;
  }

  /** One opcode. */
  method SparseSumOne(s: seq<bv8>, t: seq<real>, e0: real, ez0: nat, p0: nat, idx0: nat)
    returns (e: real, ez: nat, p: nat, idx: nat)
    requires Summing(s, p0, idx0, e0, ez0) && p0 < |s| && IsPE(t)
    ensures Summing(s, p, idx, e, ez) && p0 < p
  {
    hide *;
    SummingStep(s, p0, idx0, e0, ez0);
    var op, size := Decode(s, p0);
    p, idx, e, ez := p0 + size, idx0 + op.len, e0, ez0;
    if op.Val? {
      PEAt(t, op.value, op.len);
      e := e + t[op.value] * op.len as real;
    } else {
      ez := ez + op.len;
    }
  }

  lemma PEAt(t: seq<real>, v: nat, len: nat)
    requires IsPE(t) && v <= VAL_MAX_VALUE
    ensures v < |t| && t[v] * len as real == RunE(v, len)
  {
  }

  /** Equal registers, equal sums, whichever loop computes them. */
  method SumsAgree(s: seq<bv8>, p: array<bv8>, regs: seq<nat>, t: seq<real>)
    returns (dense: (real, nat), generic: (real, nat), sparse: (real, nat), raw: (real, nat))
    requires Valid(s) && Dense.DenseOK(p[..]) && IsPE(t)
    requires Regs(s) == regs == Dense.Registers(p[..])
    ensures dense == generic == sparse == raw == (Sum(regs, REGISTERS), Zeros(regs, REGISTERS))
  {
    var e, ez := DenseSum(p, t);
    dense := (e, ez);
    e, ez := DenseSumGeneric(p, t);
    generic := (e, ez);
    var invalid: bool;
    e, ez, invalid := SparseSum(s, t);
    sparse := (e, ez);
    e, ez := RawSum(regs, t);
    raw := (e, ez);
  }
}
