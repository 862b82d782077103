/** Updating one register of a sparse HyperLogLog: find its opcode, split it, put the pieces in its
    place, and merge neighbours (`hllSparseAdd` of hyperloglog.c). */
module HllSparseAdd {
  import opened HllSparse
  import Dense = HllDense

  const REGISTERS := 16384
  const HDR_SIZE := 16

  ghost predicate Valid(s: seq<bv8>) {
    WellFormed(s) && |Regs(s)| == REGISTERS
  }

  /** An opcode starts at `p`. */
  ghost predicate AtOp(s: seq<bv8>, p: nat) {
    p < |s| && WellFormed(s[..p]) && WellFormed(s[p..])
  }

  function SizeAt(s: seq<bv8>, p: nat): nat
    requires p < |s|
  {
    Size(s[p])
  }

  function Front(t: seq<bv8>): seq<bv8>
    requires Whole(t)
  {
    t[..Size(t[0])]
  }

  lemma FrontOK(t: seq<bv8>)
    requires Whole(t)
    ensures Front(t) + Tail(t) == t && WellFormed(Front(t)) && Regs(Front(t)) == Expand(OpAt(t))
  {
    var o := Front(t);
    assert t == o + Tail(t);
    OpAtFront(o, Tail(t));
    OneOp(o);
    hide OpAt;
    hide Expand;
  }

  /** The registers around the opcode at the front of `t`, after `a`. */
  lemma AroundFront(a: seq<bv8>, t: seq<bv8>)
    requires WellFormed(a) && WellFormed(t) && Whole(t)
    ensures WellFormed(a + t) && WellFormed(a + Front(t)) && WellFormed(Tail(t))
    ensures Regs(a + Front(t)) == Regs(a) + Expand(OpAt(t))
    ensures Regs(a + t) == Regs(a + Front(t)) + Regs(Tail(t))
  {
    hide *;
    FrontOK(t);
    RegsStep(t);
    RegsConcat(a, t);
    RegsConcat(a, Front(t));
    Assoc(Regs(a), Expand(OpAt(t)), Regs(Tail(t)));
  }

  /** Where the slices are. */
  lemma Slices(s: seq<bv8>, p: nat)
    requires AtOp(s, p)
    ensures p < |s| && WellFormed(s[..p]) && WellFormed(s[p..]) && Whole(s[p..]) && p + SizeAt(s, p) <= |s|
    ensures s == s[..p] + s[p..] && s[..p + SizeAt(s, p)] == s[..p] + Front(s[p..])
    ensures s[p + SizeAt(s, p)..] == Tail(s[p..])
  {
    FirstWhole(s[p..]);
    assert s[p..][0] == s[p];
    assert Whole(s[p..]);
    hide WellFormed;
    hide IsXZero;
  }

  /** The string before, at, and after an opcode. */
  lemma Around(s: seq<bv8>, p: nat)
    requires AtOp(s, p)
    ensures WellFormed(s) && Whole(s[p..]) && p + SizeAt(s, p) <= |s|
    ensures var q := p + SizeAt(s, p);
      && WellFormed(s[..p]) && WellFormed(s[..q]) && WellFormed(s[q..])
      && Regs(s[..q]) == Regs(s[..p]) + Expand(OpAt(s[p..]))
      && Regs(s) == Regs(s[..q]) + Regs(s[q..])
  {
    hide *;
    Slices(s, p);
    AroundFront(s[..p], s[p..]);
  }

  lemma AtFacts(s: seq<bv8>, p: nat)
    requires AtOp(s, p)
    ensures p < |s| && WellFormed(s[..p]) && WellFormed(s[p..])
  {
  }

  // ---- Splicing ----

  /** The string with the opcode at `p` replaced. */
  function Splice(s: seq<bv8>, p: nat, piece: seq<bv8>): seq<bv8>
    requires p < |s| && p + SizeAt(s, p) <= |s|
  {
    s[..p] + piece + s[p + SizeAt(s, p)..]
  }

  lemma SpliceOK(s: seq<bv8>, p: nat, piece: seq<bv8>)
    requires AtOp(s, p) && WellFormed(piece)
    ensures WellFormed(s) && p + SizeAt(s, p) <= |s|
    ensures var q := p + SizeAt(s, p);
      && WellFormed(s[q..])
      && WellFormed(Splice(s, p, piece)) && Regs(Splice(s, p, piece)) == Regs(s[..p]) + Regs(piece) + Regs(s[q..])
      && |Splice(s, p, piece)| == |s| + |piece| - SizeAt(s, p)
  {
    Around(s, p);
    var q := p + SizeAt(s, p);
    assert Splice(s, p, piece) == s[..p] + piece + s[q..];
    hide *;
    AtFacts(s, p);
    RegsConcat(s[..p], piece);
    RegsConcat(s[..p] + piece, s[q..]);
  }

  lemma SetInMiddle(a: seq<nat>, b: seq<nat>, c: seq<nat>, off: nat, v: nat)
    requires off < |b|
    ensures a + b[off := v] + c == (a + b + c)[|a| + off := v]
    ensures (a + b + c)[|a| + off] == b[off]
  {
  }

  lemma OpAtOK(t: seq<bv8>)
    requires Whole(t)
    ensures OpOK(OpAt(t))
  {
  }

  /** Putting the pieces of a split in the opcode's place sets exactly the one register. */
  lemma UpdateOK(s: seq<bv8>, p: nat, off: nat, count: nat)
    requires AtOp(s, p) && 1 <= count <= VAL_MAX_VALUE
    requires Whole(s[p..]) && off < OpAt(s[p..]).len
    ensures WellFormed(s) && p + SizeAt(s, p) <= |s| && OpOK(OpAt(s[p..]))
    ensures var index := |Regs(s[..p])| + off;
            var t := Splice(s, p, Split(OpAt(s[p..]), off, count));
      && index < |Regs(s)| && WellFormed(t) && Regs(t) == Regs(s)[index := count]
      && Regs(s)[index] == Level(OpAt(s[p..]))
      && |t| == |s| + |Split(OpAt(s[p..]), off, count)| - SizeAt(s, p)
  {
    hide *;
    AtFacts(s, p);
    var op := OpAt(s[p..]);
    OpAtOK(s[p..]);
    Around(s, p);
    SplitOK(op, off, count);
    SpliceOK(s, p, Split(op, off, count));
    ExpandAt(op, off);
    SetInMiddle(Regs(s[..p]), Expand(op), Regs(s[p + SizeAt(s, p)..]), off, count);
  }

  lemma ExpandAt(op: Op, off: nat)
    requires off < op.len
    ensures |Expand(op)| == op.len && Expand(op)[off] == Level(op)
  {
  }

  // ---- Merging neighbours ----

  /** Two adjacent VAL opcodes of the same value that fit one. */
  predicate Mergeable(s: seq<bv8>, p: nat)
    requires p < |s|
  {
    && p + 1 < |s| && IsVal(s[p]) && IsVal(s[p + 1])
    && ValValue(s[p]) == ValValue(s[p + 1])
    && ValLen(s[p]) + ValLen(s[p + 1]) <= VAL_MAX_LEN
  }

  function MergedByte(b: bv8, c: bv8): bv8
    requires ValLen(b) + ValLen(c) <= VAL_MAX_LEN
  {
    LengthBounds(b, 0);
    LengthBounds(c, 0);
    ValByte(ValValue(b), ValLen(b) + ValLen(c))
  }

  /** The scan of at most `n` opcodes from `p` (hyperloglog.c:831-861). */
  function Merge(s: seq<bv8>, p: nat, n: nat): seq<bv8>
    decreases n
  {
    if p >= |s| || n == 0 then s
    else if IsXZero(s[p]) then Merge(s, p + 2, n - 1)
    else if IsZero(s[p]) then Merge(s, p + 1, n - 1)
    else if Mergeable(s, p) then Merge(s[..p] + [MergedByte(s[p], s[p + 1])] + s[p + 2..], p, n - 1)
    else Merge(s, p + 1, n - 1)
  }

  lemma RepeatTwice(v: nat, a: nat, b: nat)
    ensures Repeat(v, a) + Repeat(v, b) == Repeat(v, a + b)
  {
  }

  lemma ValAt(b: bv8, t: seq<bv8>)
    requires IsVal(b)
    ensures Whole([b] + t) && OpAt([b] + t) == Val(ValValue(b), ValLen(b)) && Size(b) == 1
  {
    Kinds(b);
    assert ([b] + t)[0] == b;
    hide IsZero;
    hide IsXZero;
    hide IsVal;
    hide ValValue;
    hide ValLen;
  }

  /** The merged opcode stands for the same registers as the two. */
  lemma MergedOK(b: bv8, c: bv8)
    requires IsVal(b) && IsVal(c) && ValValue(b) == ValValue(c) && ValLen(b) + ValLen(c) <= VAL_MAX_LEN
    ensures WellFormed([b, c]) && WellFormed([MergedByte(b, c)]) && Regs([MergedByte(b, c)]) == Regs([b, c])
  {
    MergedIs(b, c);
    hide *;
    ValOK(ValValue(b), ValLen(b) + ValLen(c));
    SingleVal(b);
    SingleVal(c);
    RegsConcat([b], [c]);
    assert [b] + [c] == [b, c];
    RepeatTwice(ValValue(b), ValLen(b), ValLen(c));
  }

  lemma MergedIs(b: bv8, c: bv8)
    requires ValLen(b) + ValLen(c) <= VAL_MAX_LEN
    ensures 1 <= ValValue(b) <= VAL_MAX_VALUE && 1 <= ValLen(b) + ValLen(c) <= VAL_MAX_LEN
    ensures MergedByte(b, c) == ValByte(ValValue(b), ValLen(b) + ValLen(c))
  {
    LengthBounds(b, 0);
    LengthBounds(c, 0);
  }

  lemma SingleVal(b: bv8)
    requires IsVal(b)
    ensures WellFormed([b]) && Regs([b]) == Repeat(ValValue(b), ValLen(b))
  {
    ValAt(b, []);
    assert [b] + [] == [b];
    hide OpAt;
    hide IsVal;
    hide ValValue;
    hide ValLen;
    OneOp([b]);
  }

  /** An opcode starts at `p`, or the string ends there. */
  ghost predicate AtOpOrEnd(s: seq<bv8>, p: nat) {
    p <= |s| && WellFormed(s[..p]) && WellFormed(s[p..])
  }

  lemma NextOp(s: seq<bv8>, p: nat)
    requires AtOp(s, p)
    ensures AtOpOrEnd(s, p + SizeAt(s, p)) && WellFormed(s)
  {
    Around(s, p);
    hide WellFormed;
  }

  /** Two mergeable opcodes between others. */
  lemma MergeBetween(a: seq<bv8>, b: bv8, c: bv8, r: seq<bv8>)
    requires WellFormed(a) && WellFormed(r)
    requires IsVal(b) && IsVal(c) && ValValue(b) == ValValue(c) && ValLen(b) + ValLen(c) <= VAL_MAX_LEN
    ensures WellFormed(a + [b, c] + r) && WellFormed([MergedByte(b, c)] + r)
    ensures WellFormed(a + [MergedByte(b, c)] + r) && Regs(a + [MergedByte(b, c)] + r) == Regs(a + [b, c] + r)
  {
    hide *;
    var m := MergedByte(b, c);
    MergedOK(b, c);
    RegsConcat(a, [b, c]);
    RegsConcat(a + [b, c], r);
    RegsConcat([m], r);
    RegsConcat(a, [m]);
    RegsConcat(a + [m], r);
  }

  lemma CutAt(s: seq<bv8>, p: nat, m: bv8)
    requires p + 1 < |s|
    ensures s == s[..p] + [s[p], s[p + 1]] + s[p + 2..]
    ensures var t := s[..p] + [m] + s[p + 2..];
      |t| == |s| - 1 && t[..p] == s[..p] && t[p..] == [m] + s[p + 2..]
  {
  }

  lemma MergePair(s: seq<bv8>, p: nat)
    requires AtOp(s, p) && Mergeable(s, p)
    ensures WellFormed(s)
    ensures var t := s[..p] + [MergedByte(s[p], s[p + 1])] + s[p + 2..];
      && AtOp(t, p) && WellFormed(t) && Regs(t) == Regs(s) && |t| == |s| - 1
  {
    AtFacts(s, p);
    TwoVals(s, p);
    MergeableHas(s, p);
    hide *;
    var m := MergedByte(s[p], s[p + 1]);
    MergeBetween(s[..p], s[p], s[p + 1], s[p + 2..]);
    CutAt(s, p, m);
    AtOpBy(s[..p] + [m] + s[p + 2..], p);
  }

  lemma AtOpBy(t: seq<bv8>, p: nat)
    requires p < |t| && WellFormed(t[..p]) && WellFormed(t[p..])
    ensures AtOp(t, p)
  {
  }

  lemma TwoVals(s: seq<bv8>, p: nat)
    requires AtOp(s, p) && Mergeable(s, p)
    ensures WellFormed(s[p + 2..])
    ensures IsVal(s[p]) && IsVal(s[p + 1]) && ValValue(s[p]) == ValValue(s[p + 1])
    ensures ValLen(s[p]) + ValLen(s[p + 1]) <= VAL_MAX_LEN
  {
    Kinds(s[p]);
    Kinds(s[p + 1]);
    Around(s, p);
    var q := p + 1;
    assert AtOp(s, q);
    Around(s, q);
    hide WellFormed;
    hide IsZero;
    hide IsVal;
  }

  /** Merging never changes a register, and never lengthens the string. */
  lemma {:induction false} MergeKeeps(s: seq<bv8>, p: nat, n: nat)
    requires WellFormed(s) && (p < |s| ==> AtOp(s, p))
    ensures var t := Merge(s, p, n);
      WellFormed(t) && Regs(t) == Regs(s) && |t| <= |s|
    decreases n
  {
    hide WellFormed;
    hide Regs;
    hide IsVal;
    hide IsZero;
    hide IsXZero;
    hide Mergeable;
    hide MergedByte;
    hide AtOp;
    if p < |s| && n > 0 {
      Kinds(s[p]);
      NextOp(s, p);
      AtOpOrEndNext(s, p + SizeAt(s, p));
      SizeOf(s[p]);
      if IsXZero(s[p]) || IsZero(s[p]) || !Mergeable(s, p) {
        MergeKeeps(s, p + SizeAt(s, p), n - 1);
      } else {
        MergePair(s, p);
        MergeableHas(s, p);
        MergeKeeps(s[..p] + [MergedByte(s[p], s[p + 1])] + s[p + 2..], p, n - 1);
      }
    }
  }

  lemma MergeableHas(s: seq<bv8>, p: nat)
    requires p < |s| && Mergeable(s, p)
    ensures p + 1 < |s| && ValLen(s[p]) + ValLen(s[p + 1]) <= VAL_MAX_LEN
  {
  }

  lemma SizeOf(b: bv8)
    ensures Size(b) == if IsXZero(b) then 2 else 1
  {
  }

  lemma AtOpOrEndNext(s: seq<bv8>, p: nat)
    requires AtOpOrEnd(s, p)
    ensures p < |s| ==> AtOp(s, p)
  {
  }
}
