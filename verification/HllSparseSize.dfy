/** The size of a sparse HyperLogLog: how many bytes an update takes, when it makes the object dense, and
    what the scan for neighbours leaves (`hllSparseAdd` of hyperloglog.c). */
module HllSparseSize {
  import opened HllSparse
  import opened HllSparseAdd
  import opened HllObject

  /** The default of `hll-sparse-max-bytes`. */
  const DEFAULT_MAX_BYTES := 3000

  // ---- The opcodes that replace one ----

  /** The bytes of a run: a VAL takes one, and so do up to 64 zeros; more zeros take two. */
  function RunBytes(op: Op, len: nat): nat {
    if len == 0 then 0 else if op.Val? || len <= 64 then 1 else 2
  }

  /** The bytes that replace an opcode: the registers before, the one that is set, and those after. */
  function ReplacementBytes(op: Op, off: nat): nat
    requires off < op.len
  {
    RunBytes(op, off) + 1 + RunBytes(op, op.len - 1 - off)
  }

  function OpBytes(op: Op): nat { if op.XZero? then 2 else 1 }

  lemma PartBytes(op: Op, len: nat)
    requires len <= op.len && OpOK(op)
    ensures |Part(op, len)| == RunBytes(op, len)
  {
    hide ValByte;
    hide ZeroByte;
    hide XZeroHigh;
    hide XZeroLow;
  }

  lemma SplitBytes(op: Op, off: nat, count: nat)
    requires OpOK(op) && off < op.len && 1 <= count <= VAL_MAX_VALUE
    ensures |Split(op, off, count)| == ReplacementBytes(op, off)
  {
    PartBytes(op, off);
    PartBytes(op, op.len - 1 - off);
    SplitIs(op, off, count);
    hide Part;
    hide Split;
    hide ValByte;
    hide RunBytes;
  }

  lemma SizeBytes(s: seq<bv8>, p: nat)
    requires p < |s| && Whole(s[p..])
    ensures SizeAt(s, p) == OpBytes(OpAt(s[p..]))
  {
    assert s[p..][0] == s[p];
    Kinds(s[p]);
    hide IsZero;
    hide IsXZero;
    hide ZeroLen;
    hide XZeroLen;
    hide ValLen;
    hide ValValue;
  }

  // ---- When the object becomes dense ----

  /** The opcode at `p` is the one of register `index`, whose first register is `first`. */
  ghost predicate Covers(s: seq<bv8>, p: nat, first: nat, index: nat) {
    && AtOp(s, p) && Whole(s[p..]) && first == |Regs(s[..p])|
    && first <= index < first + OpAt(s[p..]).len
  }

  lemma FindCovers(s: seq<bv8>, index: nat)
    requires Valid(s) && index < REGISTERS
    ensures var r := Find(s, index); Covers(s, r.0, r.2, index) && Located(s, r.0, r.1, r.2, index)
  {
    hide Find;
    hide WellFormed;
    hide Regs;
    hide OpAt;
    hide Whole;
  }

  /** The replacement is longer, and makes the string longer than allowed. */
  ghost predicate TooLong(s: seq<bv8>, op: Op, off: nat, maxBytes: nat)
    requires off < op.len
  {
    && ReplacementBytes(op, off) > OpBytes(op)
    && 16 + |s| + ReplacementBytes(op, off) - OpBytes(op) > maxBytes
  }

  /** The object becomes dense if and only if the count has no sparse opcode, or it exceeds the register's
      value and the opcodes that replace the register's make the string, with its header, too long. */
  lemma PromotesExactly(s: seq<bv8>, index: nat, count: nat, maxBytes: nat) returns (p: nat, first: nat)
    requires Valid(s) && index < REGISTERS && 1 <= count <= Dense.REGISTER_MAX
    ensures Covers(s, p, first, index) && WellFormed(s)
    ensures SparseAdd(s, index, count, maxBytes).0.DenseRegs? <==>
            count > 32 || (count > Regs(s)[index] && TooLong(s, OpAt(s[p..]), index - first, maxBytes))
  {
    assert VAL_MAX_VALUE == 32;
    hide *;
    ValidParts(s);
    FindCovers(s, index);
    var r := Find(s, index);
    p, first := r.0, r.2;
    SparseAddIs(s, index, count, maxBytes);
    if count <= VAL_MAX_VALUE {
      SplitFits(s, p, r.1, first, index);
      SplicedOK(s, p, r.1, first, index, count);
      AddAtIs(s, p, r.1, first, index, count, maxBytes);
      SplitBytes(OpAt(s[p..]), index - first, count);
      SizeBytes(s, p);
      FitsOrNot(s, p, first, index, count, maxBytes);
      SmallCount(count);
      LevelIs(OpAt(s[p..]));
    }
    DenseAs(ToDense(s), index, count);
  }

  lemma SparseAddIs(s: seq<bv8>, index: nat, count: nat, maxBytes: nat)
    requires Valid(s) && index < REGISTERS && 1 <= count <= Dense.REGISTER_MAX
    ensures var r := Find(s, index);
      && Dense.DenseOK(ToDense(s)) && Located(s, r.0, r.1, r.2, index)
      && SparseAdd(s, index, count, maxBytes) ==
         if count > VAL_MAX_VALUE then DenseAdd(ToDense(s), index, count)
         else AddAt(s, r.0, r.1, r.2, index, count, maxBytes)
  {
    ToDenseOK(s);
    hide Located;
    hide Find;
    hide AddAt;
    hide DenseAdd;
    hide ToDense;
    hide Valid;
  }

  lemma FitsOrNot(s: seq<bv8>, p: nat, first: nat, index: nat, count: nat, maxBytes: nat)
    requires p < |s| && Whole(s[p..]) && OpOK(OpAt(s[p..])) && first <= index < first + OpAt(s[p..]).len
    requires 1 <= count <= VAL_MAX_VALUE
    requires |Split(OpAt(s[p..]), index - first, count)| == ReplacementBytes(OpAt(s[p..]), index - first)
    requires SizeAt(s, p) == OpBytes(OpAt(s[p..]))
    ensures Fits(s, p, Split(OpAt(s[p..]), index - first, count), maxBytes) <==>
            !TooLong(s, OpAt(s[p..]), index - first, maxBytes)
  {
    hide ReplacementBytes;
    hide OpBytes;
    hide Split;
    hide OpAt;
    hide SizeAt;
    hide Whole;
  }

  /** An update of one register takes at most three bytes more, so it promotes only close to the limit. */
  lemma ShortStaysSparse(s: seq<bv8>, index: nat, count: nat, maxBytes: nat)
    requires Valid(s) && index < REGISTERS && 1 <= count <= 32 && 16 + |s| + 3 <= maxBytes
    ensures SparseAdd(s, index, count, maxBytes).0.Sparse?
  {
    var p, first := PromotesExactly(s, index, count, maxBytes);
    hide SparseAdd;
    hide Valid;
    hide Covers;
    hide OpAt;
    hide Regs;
    hide WellFormed;
    hide Whole;
  }

  /** The first element of a new key keeps it sparse, with the default limit, whatever its register. */
  lemma FreshStaysSparse(index: nat, count: nat)
    requires index < REGISTERS && 1 <= count <= 32
    ensures Valid(ZeroRun(REGISTERS)) && SparseAdd(ZeroRun(REGISTERS), index, count, DEFAULT_MAX_BYTES).0.Sparse?
  {
    ZeroRunOK(REGISTERS);
    ShortStaysSparse(ZeroRun(REGISTERS), index, count, DEFAULT_MAX_BYTES);
    hide SparseAdd;
    hide ZeroRun;
  }

  // ---- The opcode before ----

  /** `prev` is the opcode just before `p`, or the string starts at `p`. */
  predicate JustBefore(s: seq<bv8>, prev: nat, p: nat)
    requires p < |s|
  {
    if p == 0 then prev == 0 else prev < p && prev + SizeAt(s, prev) == p
  }

  lemma {:induction false} LocateBefore(s: seq<bv8>, p: nat, prev: nat, first: nat, index: nat)
    requires Walking(s, p, prev, first, index) && p < |s| && WellFormed(s[p..]) && JustBefore(s, prev, p)
    ensures var r := Locate(s, p, prev, first, index); r.0 < |s| && JustBefore(s, r.1, r.0)
    decreases |s| - p
  {
    hide *;
    LocateStep(s, p, prev, first, index);
    WalkOn(s, p, prev, first, index);
    SizePositive(s, p);
    var q := p + SizeAt(s, p);
    if index >= first + OpAt(s[p..]).len {
      NextBefore(s, p);
      LocateBefore(s, q, p, first + OpAt(s[p..]).len, index);
    }
  }

  lemma NextBefore(s: seq<bv8>, p: nat)
    requires p < |s| && p + SizeAt(s, p) < |s|
    ensures JustBefore(s, p, p + SizeAt(s, p))
  {
  }

  /** The scan for neighbours starts at the opcode before the one that was changed. */
  lemma FindBefore(s: seq<bv8>, index: nat)
    requires Valid(s) && index < REGISTERS
    ensures var r := Find(s, index); r.0 < |s| && JustBefore(s, r.1, r.0)
  {
    WalkStarts(s, index);
    LocateBefore(s, 0, 0, 0, index);
    FindStarts(s, index);
    hide *;
  }

  lemma FindStarts(s: seq<bv8>, index: nat)
    requires Valid(s) && index < REGISTERS
    ensures s != [] && WellFormed(s[0..]) && Find(s, index) == Locate(s, 0, 0, 0, index)
  {
    WalkStarts(s, index);
    assert s[0..] == s;
    hide Locate;
    hide Walking;
    hide Regs;
  }

  // ---- Merging neighbours ----

  /** `k` opcodes lead from `p` to `q`, and none of them can be merged with the one after it. */
  predicate Walks(t: seq<bv8>, p: nat, q: nat, k: nat)
    decreases k
  {
    if k == 0 then p == q else p < |t| && !Mergeable(t, p) && Walks(t, p + SizeAt(t, p), q, k - 1)
  }

  lemma {:induction false} MergePrefix(s: seq<bv8>, p: nat, n: nat, j: nat)
    requires j <= p && j <= |s|
    ensures |Merge(s, p, n)| >= j && Merge(s, p, n)[..j] == s[..j] && |Merge(s, p, n)| <= |s|
    decreases n
  {
    hide IsXZero;
    hide IsZero;
    hide IsVal;
    hide MergedByte;
    hide ValValue;
    hide ValLen;
    if p < |s| && n > 0 {
      MergePrefix(s, p + 1, n - 1, j);
      MergePrefix(s, p + 2, n - 1, j);
      if Mergeable(s, p) {
        var t := s[..p] + [MergedByte(s[p], s[p + 1])] + s[p + 2..];
        MergePrefix(t, p, n - 1, j);
        assert t[..j] == s[..j];
      }
    }
  }

  /** The byte the scan starts at stays, or it is a VAL that got longer. */
  ghost predicate Longer(b: bv8, c: bv8) {
    c == b || (IsVal(b) && IsVal(c) && ValValue(c) == ValValue(b) && ValLen(c) >= ValLen(b))
  }

  lemma MergedLonger(b: bv8, c: bv8)
    requires IsVal(b) && ValLen(b) + ValLen(c) <= VAL_MAX_LEN
    ensures Longer(b, MergedByte(b, c))
  {
    LengthBounds(b, 0);
    LengthBounds(c, 0);
    ValByteOK(ValValue(b), ValLen(b) + ValLen(c));
    hide IsVal;
    hide ValValue;
    hide ValLen;
    hide ValByte;
  }

  lemma {:induction false} MergeFirst(s: seq<bv8>, p: nat, n: nat)
    requires p < |s|
    ensures p < |Merge(s, p, n)| && Longer(s[p], Merge(s, p, n)[p])
    decreases n
  {
    hide IsXZero;
    hide IsZero;
    hide IsVal;
    hide MergedByte;
    hide ValValue;
    hide ValLen;
    hide Longer;
    SameLonger(s[p]);
    if n > 0 {
      if IsXZero(s[p]) || IsZero(s[p]) || !Mergeable(s, p) {
        if p + 2 <= |s| {
          MergePrefix(s, p + 2, n - 1, p + 1);
        } else {
          MergePrefix(s, p + 2, n - 1, |s|);
        }
        MergePrefix(s, p + 1, n - 1, p + 1);
        KeepsAt(s, Merge(s, p, n), p);
      } else {
        var t := s[..p] + [MergedByte(s[p], s[p + 1])] + s[p + 2..];
        MergedLonger(s[p], s[p + 1]);
        MergeFirst(t, p, n - 1);
        LongerTwice(s[p], t[p], Merge(s, p, n)[p]);
      }
    }
  }

  lemma KeepsAt(s: seq<bv8>, t: seq<bv8>, p: nat)
    requires p < |s| && p < |t| && t[..p + 1] == s[..p + 1]
    ensures t[p] == s[p]
  {
    assert t[p] == t[..p + 1][p] == s[..p + 1][p];
  }

  lemma SameLonger(b: bv8)
    ensures Longer(b, b)
  {
  }

  lemma LongerTwice(a: bv8, b: bv8, c: bv8)
    requires Longer(a, b) && Longer(b, c)
    ensures Longer(a, c)
  {
    hide IsVal;
    hide ValLen;
    hide ValValue;
  }

  lemma NotMergeableLater(s: seq<bv8>, t: seq<bv8>, p: nat)
    requires p < |s| && p < |t| && t[p] == s[p] && !Mergeable(s, p)
    requires p + 1 < |t| ==> p + 1 < |s| && Longer(s[p + 1], t[p + 1])
    ensures !Mergeable(t, p)
  {
    hide IsVal;
    hide ValLen;
    hide ValValue;
  }

  lemma NotVal(t: seq<bv8>, p: nat)
    requires p < |t| && (IsXZero(t[p]) || IsZero(t[p]))
    ensures !Mergeable(t, p)
  {
    Kinds(t[p]);
    hide IsVal;
    hide IsZero;
    hide IsXZero;
  }

  lemma OneMore(t: seq<bv8>, p: nat, q: nat, k: nat)
    requires p < |t| && !Mergeable(t, p) && Walks(t, p + SizeAt(t, p), q, k)
    ensures Walks(t, p, q, k + 1)
  {
    hide Mergeable;
    hide SizeAt;
  }

  /** What the scan leaves: from where it started, opcodes none of which can be merged with its
      neighbour, five of them less one for every merge that was made, or up to the end of the string. */
  lemma {:induction false} MergeSettles(s: seq<bv8>, p: nat, n: nat) returns (q: nat, k: nat)
    ensures var t := Merge(s, p, n);
      && |t| <= |s| && Walks(t, p, q, k) && (k + (|s| - |t|) == n || q >= |t|)
    decreases n
  {
    hide IsXZero;
    hide IsZero;
    hide IsVal;
    hide MergedByte;
    hide Mergeable;
    hide Walks;
    var t := Merge(s, p, n);
    if p >= |s| || n == 0 {
      WalksNowhere(t, p);
      return p, 0;
    }
    MergePrefix(s, p, n, p);
    SizeOf(s[p]);
    if !(IsXZero(s[p]) || IsZero(s[p])) && Mergeable(s, p) {
      MergeableHas(s, p);
      q, k := MergeSettles(s[..p] + [MergedByte(s[p], s[p + 1])] + s[p + 2..], p, n - 1);
    } else {
      q, k := MergeSettles(s, p + SizeAt(s, p), n - 1);
      StepKept(s, p, n);
      OneMore(t, p, q, k);
      k := k + 1;
    }
  }

  lemma WalksNowhere(t: seq<bv8>, p: nat)
    ensures Walks(t, p, p, 0)
  {
  }

  /** A step of the scan that merges nothing leaves the opcode it passes, and nothing to merge there. */
  lemma StepKept(s: seq<bv8>, p: nat, n: nat)
    requires p < |s| && n > 0 && (IsXZero(s[p]) || IsZero(s[p]) || !Mergeable(s, p))
    ensures var t := Merge(s, p, n);
      && t == Merge(s, p + SizeAt(s, p), n - 1)
      && p < |t| && t[p] == s[p] && SizeAt(t, p) == SizeAt(s, p) && !Mergeable(t, p)
  {
    hide IsXZero;
    hide IsZero;
    hide IsVal;
    hide MergedByte;
    hide Mergeable;
    Kinds(s[p]);
    SizeOf(s[p]);
    var r, t := p + SizeAt(s, p), Merge(s, p, n);
    MergePrefix(s, r, n - 1, if r <= |s| then r else |s|);
    assert p < |t| && t[..p + 1] == s[..p + 1];
    KeepsAt(s, t, p);
    if IsXZero(s[p]) || IsZero(s[p]) {
      NotVal(t, p);
    } else {
      if p + 1 < |s| {
        MergeFirst(s, p + 1, n - 1);
      }
      NotMergeableLater(s, t, p);
    }
  }

  /** An update that stays sparse: the size is that of the string with the replacement, less one byte for
      every merge, and the scan went five opcodes from the one before the register's, or to the end. */
  lemma UpdateSettles(s: seq<bv8>, index: nat, count: nat, maxBytes: nat)
    returns (p: nat, prev: nat, first: nat, q: nat, k: nat)
    requires Valid(s) && index < REGISTERS && 1 <= count <= 32 && WellFormed(s) && index < |Regs(s)| && count > Regs(s)[index]
    requires SparseAdd(s, index, count, maxBytes).0.Sparse?
    ensures Covers(s, p, first, index) && JustBefore(s, prev, p)
    ensures var t := SparseAdd(s, index, count, maxBytes).0.s;
            var op := OpAt(s[p..]);
            var whole := |s| + ReplacementBytes(op, index - first) - OpBytes(op);
      |t| <= whole && Walks(t, prev, q, k) && (k + (whole - |t|) == 5 || q >= |t|)
  {
    assert VAL_MAX_VALUE == 32;
    hide *;
    FindCovers(s, index);
    FindBefore(s, index);
    var r := Find(s, index);
    p, prev, first := r.0, r.1, r.2;
    SparseAddIs(s, index, count, maxBytes);
    SplitFits(s, p, prev, first, index);
    SplicedOK(s, p, prev, first, index, count);
    AddAtIs(s, p, prev, first, index, count, maxBytes);
    SplitBytes(OpAt(s[p..]), index - first, count);
    SizeBytes(s, p);
    SmallCount(count);
    LevelIs(OpAt(s[p..]));
    DenseAs(ToDense(s), index, count);
    var u := Splice(s, p, Split(OpAt(s[p..]), index - first, count));
    SplicedBytes(s, p, Split(OpAt(s[p..]), index - first, count));
    q, k := MergeSettles(u, prev, 5);
  }

  lemma SplicedBytes(s: seq<bv8>, p: nat, piece: seq<bv8>)
    requires p < |s| && p + SizeAt(s, p) <= |s|
    ensures |Splice(s, p, piece)| == |s| + |piece| - SizeAt(s, p)
  {
  }
}
