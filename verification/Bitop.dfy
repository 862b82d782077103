/** The computation of BITOP in bitops.c: words of the part that all strings share, bytes of the rest. */
module Bitop {
  import opened Options
  import opened Bits
  import opened WordBytes

  datatype Op = And | Or | Xor | Not

  /** A source: a key that does not exist is an empty string. */
  type Source = Option<seq<bv8>>

  function Len(src: Source): nat { if src.Some? then |src.value| else 0 }

  /** Byte `j`, zero past the end. */
  function ByteAt(src: Source, j: nat): bv8 { if j < Len(src) then src.value[j] else 0 }

  function Apply(op: Op, a: bv8, b: bv8): bv8 {
    match op
    case And => a & b
    case Or => a | b
    case Xor => a ^ b
    case Not => a
  }

  /** Byte `j` of the first `n` sources, combined. */
  function Combined(op: Op, srcs: seq<Source>, n: nat, j: nat): bv8
    requires 0 < n <= |srcs|
  {
    if n == 1 then if op.Not? then !ByteAt(srcs[0], j) else ByteAt(srcs[0], j)
    else Apply(op, Combined(op, srcs, n - 1, j), ByteAt(srcs[n - 1], j))
  }

  ghost predicate IsMax(srcs: seq<Source>, n: nat, m: nat)
    requires n <= |srcs|
  {
    && (forall i :: 0 <= i < n ==> Len(srcs[i]) <= m)
    && (m == 0 || exists i :: 0 <= i < n && Len(srcs[i]) == m)
  }

  ghost predicate AtMostAll(srcs: seq<Source>, n: nat, m: nat)
    requires n <= |srcs|
  {
    forall i :: 0 <= i < n ==> m <= Len(srcs[i])
  }

  // ---- What the result is, bit by bit ----

  /** Bit `k` of a source, zero past its end. */
  predicate SourceBit(src: Source, k: nat) { src.Some? && Padded(src.value, k) }

  /** The sources, as numbers below `n`, in which bit `k` is set. */
  ghost function Setters(srcs: seq<Source>, n: nat, k: nat): set<nat>
    requires n <= |srcs|
  {
    set i: nat | i < n && SourceBit(srcs[i], k)
  }

  /** Bit `k` must be set: it is in all the first `n` sources, in one, in an odd number of them, or it is
      clear in the one. */
  ghost predicate Wanted(op: Op, srcs: seq<Source>, n: nat, k: nat)
    requires 0 < n <= |srcs|
  {
    match op
    case And => forall i :: 0 <= i < n ==> SourceBit(srcs[i], k)
    case Or => exists i :: 0 <= i < n && SourceBit(srcs[i], k)
    case Xor => |Setters(srcs, n, k)| % 2 == 1
    case Not => !SourceBit(srcs[0], k)
  }

  /** The result: as long as the longest source, with the bits that must be set. */
  ghost predicate Correct(op: Op, srcs: seq<Source>, res: seq<bv8>)
    requires |srcs| > 0
  {
    IsMax(srcs, |srcs|, |res|) && forall k :: 0 <= k < 8 * |res| ==> (Bit(res, k) <==> Wanted(op, srcs, |srcs|, k))
  }

  /** It is the only one. */
  lemma OneResult(op: Op, srcs: seq<Source>, r: seq<bv8>, r': seq<bv8>)
    requires |srcs| > 0 && Correct(op, srcs, r) && Correct(op, srcs, r')
    ensures r == r'
  {
    hide Wanted;
    hide Len;
    hide Has;
    assert |r| == |r'|;
    forall j | 0 <= j < |r| ensures r[j] == r'[j] {
      forall b | 0 <= b < 8 ensures Has(r[j], b) <==> Has(r'[j], b) {
        BitInByte(r, j, b);
        BitInByte(r', j, b);
      }
      SameBits(r[j], r'[j]);
    }
  }

  lemma BitInByte(s: seq<bv8>, j: nat, b: nat)
    requires j < |s| && b < 8
    ensures Bit(s, 8 * j + b) <==> Has(s[j], b)
  {
    hide Has;
    assert (8 * j + b) / 8 == j && (8 * j + b) % 8 == b;
  }

  lemma NoBits(b: nat)
    requires b < 8
    ensures !Has(0, b)
  {
  }

  lemma SourceByte(src: Source, j: nat, b: nat)
    requires b < 8
    ensures SourceBit(src, 8 * j + b) <==> Has(ByteAt(src, j), b)
  {
    hide Has;
    NoBits(b);
    if src.Some? && j < |src.value| {
      BitInByte(src.value, j, b);
    }
  }

  lemma ApplyBit(op: Op, x: bv8, y: bv8, b: nat)
    requires b < 8
    ensures op.And? ==> (Has(Apply(op, x, y), b) <==> Has(x, b) && Has(y, b))
    ensures op.Or? ==> (Has(Apply(op, x, y), b) <==> Has(x, b) || Has(y, b))
    ensures op.Xor? ==> (Has(Apply(op, x, y), b) <==> Has(x, b) != Has(y, b))
  {
    AndBit(x, y, b);
    OrBit(x, y, b);
    XorBit(x, y, b);
    hide Has;
  }

  lemma AndBit(x: bv8, y: bv8, b: nat)
    requires b < 8
    ensures Has(x & y, b) <==> Has(x, b) && Has(y, b)
  {
  }

  lemma OrBit(x: bv8, y: bv8, b: nat)
    requires b < 8
    ensures Has(x | y, b) <==> Has(x, b) || Has(y, b)
  {
  }

  lemma XorBit(x: bv8, y: bv8, b: nat)
    requires b < 8
    ensures Has(x ^ y, b) <==> Has(x, b) != Has(y, b)
  {
    var m := Mask(b);
    OneOrNone(x, b);
    OneOrNone(y, b);
    XorMasked(x, y, m);
    hide Mask;
  }

  lemma OneOrNone(x: bv8, b: nat)
    requires b < 8
    ensures x & Mask(b) == 0 || x & Mask(b) == Mask(b)
    ensures Mask(b) != 0
  {
  }

  lemma XorMasked(x: bv8, y: bv8, m: bv8)
    ensures (x ^ y) & m == (x & m) ^ (y & m)
  {
  }

  lemma InvertBit(x: bv8, b: nat)
    requires b < 8
    ensures Has(!x, b) <==> !Has(x, b)
  {
  }

  lemma OneMoreSetter(srcs: seq<Source>, n: nat, k: nat)
    requires n < |srcs|
    ensures |Setters(srcs, n + 1, k)| == |Setters(srcs, n, k)| + if SourceBit(srcs[n], k) then 1 else 0
  {
    hide SourceBit;
    var more: set<nat> := if SourceBit(srcs[n], k) then {n} else {};
    assert Setters(srcs, n + 1, k) == Setters(srcs, n, k) + more;
  }

  lemma WantedByOne(op: Op, srcs: seq<Source>, k: nat)
    requires |srcs| > 0
    ensures Wanted(op, srcs, 1, k) <==> SourceBit(srcs[0], k) != op.Not?
  {
    hide SourceBit;
    OneMoreSetter(srcs, 0, k);
    assert Setters(srcs, 0, k) == {};
  }

  lemma WantedByNext(op: Op, srcs: seq<Source>, n: nat, k: nat)
    requires 0 < n < |srcs|
    ensures op.And? ==> (Wanted(op, srcs, n + 1, k) <==> Wanted(op, srcs, n, k) && SourceBit(srcs[n], k))
    ensures op.Or? ==> (Wanted(op, srcs, n + 1, k) <==> Wanted(op, srcs, n, k) || SourceBit(srcs[n], k))
    ensures op.Xor? ==> (Wanted(op, srcs, n + 1, k) <==> Wanted(op, srcs, n, k) != SourceBit(srcs[n], k))
  {
    hide SourceBit;
    OneMoreSetter(srcs, n, k);
    hide Setters;
  }

  /** The bytes combined have the bits wanted. */
  lemma {:induction false} CombinedBits(op: Op, srcs: seq<Source>, n: nat, j: nat, b: nat)
    requires 0 < n <= |srcs| && b < 8 && (op.Not? ==> n == 1)
    ensures Has(Combined(op, srcs, n, j), b) <==> Wanted(op, srcs, n, 8 * j + b)
  {
    hide Has;
    hide Wanted;
    hide ByteAt;
    hide Apply;
    SourceByte(srcs[n - 1], j, b);
    if n == 1 {
      WantedByOne(op, srcs, 8 * j + b);
      InvertBit(ByteAt(srcs[0], j), b);
    } else {
      CombinedBits(op, srcs, n - 1, j, b);
      WantedByNext(op, srcs, n - 1, 8 * j + b);
      ApplyBit(op, Combined(op, srcs, n - 1, j), ByteAt(srcs[n - 1], j), b);
    }
  }

  lemma CombinedCorrect(op: Op, srcs: seq<Source>, res: seq<bv8>)
    requires |srcs| > 0 && (op.Not? ==> |srcs| == 1) && IsMax(srcs, |srcs|, |res|)
    requires forall j :: 0 <= j < |res| ==> res[j] == Combined(op, srcs, |srcs|, j)
    ensures Correct(op, srcs, res)
  {
    hide Has;
    hide Wanted;
    hide Combined;
    hide IsMax;
    forall k | 0 <= k < 8 * |res| ensures Bit(res, k) <==> Wanted(op, srcs, |srcs|, k) {
      CombinedBits(op, srcs, |srcs|, k / 8, k % 8);
    }
  }

  /** The lengths (bitops.c:324-351): a missing key makes the least length zero, whatever comes after. */
  method Lengths(srcs: seq<Source>) returns (maxlen: nat, minlen: nat)
    requires |srcs| > 0
    ensures IsMax(srcs, |srcs|, maxlen) && AtMostAll(srcs, |srcs|, minlen)
    ensures exists i :: 0 <= i < |srcs| && Len(srcs[i]) == minlen
  {
    maxlen, minlen := 0, 0;
    for j := 0 to |srcs|
      invariant IsMax(srcs, j, maxlen) && AtMostAll(srcs, j, minlen)
      invariant j > 0 ==> exists i :: 0 <= i < j && Len(srcs[i]) == minlen
    {
      if srcs[j].None? {
        minlen := 0;
      } else {
        var len := |srcs[j].value|;
        if len > maxlen {
          maxlen := len;
        }
        if j == 0 || len < minlen {
          minlen := len;
        }
      }
    }
  }

  // ---- Words ----

  function ApplyWord(op: Op, w: bv64, v: bv64): bv64 {
    match op
    case And => w & v
    case Or => w | v
    case Xor => w ^ v
    case Not => !w
  }

  /** What a word operation does to a byte. */
  function OnByte(op: Op, a: bv8, b: bv8): bv8 { if op.Not? then !a else Apply(op, a, b) }

  lemma WordApplies(op: Op, p: seq<bv8>, q: seq<bv8>, k: nat)
    requires |p| == 8 && |q| == 8 && k < 8
    ensures ByteOf(ApplyWord(op, Load(p), Load(q)), k) == OnByte(op, p[k], q[k])
  {
    var r := seq(8, i requires 0 <= i < 8 && |p| == 8 && |q| == 8 => OnByte(op, p[i], q[i]));
    WordsJoin(op, p, q, r);
    StoreLoad(r, k);
    hide ByteOf;
    hide Load;
    hide ApplyWord;
    hide OnByte;
  }

  lemma AndApplies(a: bv8, b: bv8, c: bv8, d: bv8, e: bv8, f: bv8, g: bv8, h: bv8,
                   a': bv8, b': bv8, c': bv8, d': bv8, e': bv8, f': bv8, g': bv8, h': bv8)
    ensures ApplyWord(And, Word(a, b, c, d, e, f, g, h), Word(a', b', c', d', e', f', g', h')) ==
            Word(OnByte(And, a, a'), OnByte(And, b, b'), OnByte(And, c, c'), OnByte(And, d, d'),
                 OnByte(And, e, e'), OnByte(And, f, f'), OnByte(And, g, g'), OnByte(And, h, h'))
  {
  }

  lemma OrApplies(a: bv8, b: bv8, c: bv8, d: bv8, e: bv8, f: bv8, g: bv8, h: bv8,
                   a': bv8, b': bv8, c': bv8, d': bv8, e': bv8, f': bv8, g': bv8, h': bv8)
    ensures ApplyWord(Or, Word(a, b, c, d, e, f, g, h), Word(a', b', c', d', e', f', g', h')) ==
            Word(OnByte(Or, a, a'), OnByte(Or, b, b'), OnByte(Or, c, c'), OnByte(Or, d, d'),
                 OnByte(Or, e, e'), OnByte(Or, f, f'), OnByte(Or, g, g'), OnByte(Or, h, h'))
  {
  }

  lemma XorApplies(a: bv8, b: bv8, c: bv8, d: bv8, e: bv8, f: bv8, g: bv8, h: bv8,
                   a': bv8, b': bv8, c': bv8, d': bv8, e': bv8, f': bv8, g': bv8, h': bv8)
    ensures ApplyWord(Xor, Word(a, b, c, d, e, f, g, h), Word(a', b', c', d', e', f', g', h')) ==
            Word(OnByte(Xor, a, a'), OnByte(Xor, b, b'), OnByte(Xor, c, c'), OnByte(Xor, d, d'),
                 OnByte(Xor, e, e'), OnByte(Xor, f, f'), OnByte(Xor, g, g'), OnByte(Xor, h, h'))
  {
  }

  lemma NotWord(a: bv8, b: bv8, c: bv8, d: bv8, e: bv8, f: bv8, g: bv8, h: bv8)
    ensures !Word(a, b, c, d, e, f, g, h) == Word(!a, !b, !c, !d, !e, !f, !g, !h)
  {
  }

  lemma NotApplies(a: bv8, b: bv8, c: bv8, d: bv8, e: bv8, f: bv8, g: bv8, h: bv8, v: bv64,
                   a': bv8, b': bv8, c': bv8, d': bv8, e': bv8, f': bv8, g': bv8, h': bv8)
    ensures ApplyWord(Not, Word(a, b, c, d, e, f, g, h), v) ==
            Word(OnByte(Not, a, a'), OnByte(Not, b, b'), OnByte(Not, c, c'), OnByte(Not, d, d'),
                 OnByte(Not, e, e'), OnByte(Not, f, f'), OnByte(Not, g, g'), OnByte(Not, h, h'))
  {
    hide Word;
    NotWord(a, b, c, d, e, f, g, h);
  }

  lemma WordsJoin(op: Op, p: seq<bv8>, q: seq<bv8>, r: seq<bv8>)
    requires |p| == 8 && |q| == 8 && |r| == 8 && forall i :: 0 <= i < 8 ==> r[i] == OnByte(op, p[i], q[i])
    ensures ApplyWord(op, Load(p), Load(q)) == Load(r)
  {
    LoadIs(p);
    LoadIs(q);
    LoadIs(r);
    hide *;
    match op {
      case And =>
        AndApplies(p[0], p[1], p[2], p[3], p[4], p[5], p[6], p[7], q[0], q[1], q[2], q[3], q[4], q[5], q[6], q[7]);
      case Or =>
        OrApplies(p[0], p[1], p[2], p[3], p[4], p[5], p[6], p[7], q[0], q[1], q[2], q[3], q[4], q[5], q[6], q[7]);
      case Xor =>
        XorApplies(p[0], p[1], p[2], p[3], p[4], p[5], p[6], p[7], q[0], q[1], q[2], q[3], q[4], q[5], q[6], q[7]);
      case Not =>
        NotApplies(p[0], p[1], p[2], p[3], p[4], p[5], p[6], p[7], Load(q), q[0], q[1], q[2], q[3], q[4], q[5], q[6], q[7]);
    }
  }

  lemma LoadIs(q: seq<bv8>)
    requires |q| == 8
    ensures Load(q) == Word(q[0], q[1], q[2], q[3], q[4], q[5], q[6], q[7])
  {
    hide Word;
  }

  /** `lres[i] op= lp[i]` for the word at byte `at`. */
  method WordOp(res: array<bv8>, at: nat, op: Op, src: seq<bv8>)
    requires at + 8 <= res.Length && at + 8 <= |src|
    modifies res
    ensures forall j :: 0 <= j < res.Length ==>
              res[j] == if at <= j < at + 8 then OnByte(op, old(res[j]), src[j]) else old(res[j])
  {
    ghost var p, q := res[at..at + 8], src[at..at + 8];
    var w := ApplyWord(op, Load(res[at..at + 8]), Load(src[at..at + 8]));
    forall k | 0 <= k < 8 ensures ByteOf(w, k) == OnByte(op, p[k], q[k]) {
      WordApplies(op, p, q, k);
    }
    hide ByteOf;
    hide OnByte;
    hide Load;
    hide ApplyWord;
    forall k | 0 <= k < 8 {
      res[at + k] := ByteOf(w, k);
    }
    assert forall j :: at <= j < at + 8 ==> res[j] == ByteOf(w, j - at);
  }

  // ---- The fast path ----

  /** Bytes `from` to `to` of the buffer hold the first `n` sources combined. */
  ghost predicate Holds(r: seq<bv8>, op: Op, srcs: seq<Source>, n: nat, from: nat, to: nat)
    requires 0 < n <= |srcs|
  {
    to <= |r| && forall j :: from <= j < to ==> r[j] == Combined(op, srcs, n, j)
  }

  /** Bytes `from` to `to` of the buffer are the first source's. */
  ghost predicate Copied(r: seq<bv8>, srcs: seq<Source>, from: nat, to: nat)
    requires |srcs| > 0
  {
    to <= |r| && forall j :: from <= j < to ==> r[j] == ByteAt(srcs[0], j)
  }

  /** The bytes outside are as they were. */
  ghost predicate Outside(r: seq<bv8>, s: seq<bv8>, from: nat, to: nat) {
    |r| == |s| && forall j :: 0 <= j < |r| && !(from <= j < to) ==> r[j] == s[j]
  }

  /** Four words, one after the other. */
  method FourWords(res: array<bv8>, j: nat, op: Op, src: seq<bv8>)
    requires j + 32 <= res.Length && j + 32 <= |src|
    modifies res
    ensures Outside(res[..], old(res[..]), j, j + 32)
    ensures forall x :: j <= x < j + 32 ==> res[x] == OnByte(op, old(res[x]), src[x])
  {
    hide OnByte;
    WordOp(res, j, op, src);
    WordOp(res, j + 8, op, src);
    WordOp(res, j + 16, op, src);
    WordOp(res, j + 24, op, src);
  }

  lemma CombineNext(op: Op, srcs: seq<Source>, n: nat, j: nat)
    requires 0 < n < |srcs| && !op.Not? && j < Len(srcs[n])
    ensures Combined(op, srcs, n + 1, j) == OnByte(op, Combined(op, srcs, n, j), srcs[n].value[j])
  {
    hide Apply;
  }

  lemma CombineOne(op: Op, srcs: seq<Source>, j: nat)
    requires |srcs| > 0
    ensures Combined(op, srcs, 1, j) == if op.Not? then !ByteAt(srcs[0], j) else ByteAt(srcs[0], j)
  {
  }

  /** One turn of the loop: 32 bytes of all the sources (bitops.c:374-382 and its like). */
  method Block(res: array<bv8>, j: nat, op: Op, srcs: seq<Source>)
    requires |srcs| > 0 && (op.Not? ==> |srcs| == 1) && j + 32 <= res.Length
    requires AtMostAll(srcs, |srcs|, j + 32) && Copied(res[..], srcs, j, j + 32)
    modifies res
    ensures Outside(res[..], old(res[..]), j, j + 32) && Holds(res[..], op, srcs, |srcs|, j, j + 32)
  {
    hide Apply;
    hide Combined;
    hide ByteAt;
    if op.Not? {
      FourWords(res, j, op, srcs[0].value);
      forall x | j <= x < j + 32 ensures res[x] == Combined(op, srcs, 1, x) {
        CombineOne(op, srcs, x);
      }
      return;
    }
    forall x | j <= x < j + 32 ensures res[x] == Combined(op, srcs, 1, x) {
      CombineOne(op, srcs, x);
    }
    for i := 1 to |srcs|
      invariant Outside(res[..], old(res[..]), j, j + 32) && Holds(res[..], op, srcs, i, j, j + 32)
    {
      FourWords(res, j, op, srcs[i].value);
      forall x | j <= x < j + 32 ensures res[x] == Combined(op, srcs, i + 1, x) {
        CombineNext(op, srcs, i, x);
      }
    }
  }

  /** The words of the part all sources have (bitops.c:362-422). */
  method FastPath(res: array<bv8>, op: Op, srcs: seq<Source>, minlen0: nat) returns (j: nat)
    requires |srcs| > 0 && (op.Not? ==> |srcs| == 1)
    requires AtMostAll(srcs, |srcs|, minlen0) && minlen0 <= res.Length
    modifies res
    ensures j <= res.Length && Holds(res[..], op, srcs, |srcs|, 0, j)
    ensures j == if |srcs| <= 16 then minlen0 / 32 * 32 else 0
  {
    j := 0;
    if minlen0 >= 32 && |srcs| <= 16 {
      var src := srcs[0].value;
      forall k | 0 <= k < minlen0 {
        res[k] := src[k];
      }
      assert Copied(res[..], srcs, 0, minlen0);
      hide Combined;
      hide ByteAt;
      var minlen := minlen0;
      while minlen >= 32
        invariant j + minlen == minlen0 && j % 32 == 0
        invariant Holds(res[..], op, srcs, |srcs|, 0, j) && Copied(res[..], srcs, j, minlen0)
      {
        Block(res, j, op, srcs);
        j := j + 32;
        minlen := minlen - 32;
      }
    }
  }

  /** One byte of the rest (bitops.c:426-436). */
  method OneByte(op: Op, srcs: seq<Source>, j: nat) returns (output: bv8)
    requires |srcs| > 0 && (op.Not? ==> |srcs| == 1)
    ensures output == Combined(op, srcs, |srcs|, j)
  {
    output := ByteAt(srcs[0], j);
    if op.Not? {
      output := !output;
    }
    for i := 1 to |srcs|
      invariant output == Combined(op, srcs, i, j)
    {
      output := Apply(op, output, ByteAt(srcs[i], j));
    }
  }

  /** The compute part of `bitopCommand` (bitops.c:313-438). NOT takes one source. Nothing is left to
      store when every source is empty. */
  method BitopCommand(op: Op, srcs: seq<Source>) returns (result: Option<seq<bv8>>)
    requires |srcs| > 0
    ensures result.None? <==> op.Not? && |srcs| != 1
    ensures result.Some? ==> Correct(op, srcs, result.value)
  {
    if op.Not? && |srcs| != 1 {
      return None;
    }
    var maxlen, minlen := Lengths(srcs);
    WithinMax(srcs, maxlen, minlen);
    var res := new bv8[maxlen](_ => 0);
    hide Combined;
    hide ByteAt;
    hide Len;
    hide Correct;
    if maxlen > 0 {
      var j := FastPath(res, op, srcs, minlen);
      while j < maxlen
        invariant j <= maxlen && Holds(res[..], op, srcs, |srcs|, 0, j)
      {
        res[j] := OneByte(op, srcs, j);
        j := j + 1;
      }
    }
    CombinedCorrect(op, srcs, res[..]);
    return Some(res[..]);
  }

  lemma WithinMax(srcs: seq<Source>, maxlen: nat, minlen: nat)
    requires |srcs| > 0 && IsMax(srcs, |srcs|, maxlen) && AtMostAll(srcs, |srcs|, minlen)
    ensures minlen <= maxlen
  {
    assert minlen <= Len(srcs[0]) <= maxlen;
  }
}
