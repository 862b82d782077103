/** Signed integers of 2, 4 or 8 bytes, little endian, in a string of bytes: the arrays of intset.c. */
module IntsetBytes {
  import opened SmallBytes

  type Byte = bv8

  function Pow(w: nat): (p: int)
    ensures p > 0
  {
    if w == 0 then 1 else 256 * Pow(w - 1)
  }

  function Low(u: nat, w: nat): (b: seq<Byte>)
    ensures |b| == w
  {
    if w == 0 then [] else [(u % 256) as bv8] + Low(u / 256, w - 1)
  }

  function Unsigned(b: seq<Byte>): (u: nat)
    ensures u < Pow(|b|)
  {
    if b == [] then 0 else b[0] as nat + 256 * Unsigned(b[1..])
  }

  lemma {:induction false} LowOK(u: nat, w: nat)
    requires u < Pow(w)
    ensures Unsigned(Low(u, w)) == u
    decreases w
  {
    if w > 0 {
      LowOK(u / 256, w - 1);
      SmallNat(u % 256);
      assert Low(u, w)[1..] == Low(u / 256, w - 1);
    }
  }

  /** The widths. */
  predicate Width(w: nat) { w == 2 || w == 4 || w == 8 }

  lemma Powers()
    ensures Pow(2) == 0x1_0000 && Pow(4) == 0x1_0000_0000 && Pow(8) == 0x1_0000_0000_0000_0000
  {
    assert Pow(2) == 0x1_0000;
    assert Pow(4) == 0x1_0000_0000;
    assert Pow(6) == 0x1_0000_0000_0000;
  }

  /** A signed integer of `w` bytes. */
  predicate Fits(v: int, w: nat) { -Pow(w) <= 2 * v < Pow(w) }

  function Encode(v: int, w: nat): (b: seq<Byte>)
    requires Fits(v, w)
    ensures |b| == w
  {
    Low(if v < 0 then v + Pow(w) else v, w)
  }

  function Decode(b: seq<Byte>): (v: int)
    ensures |b| > 0 ==> Fits(v, |b|)
  {
    var u := Unsigned(b);
    if 2 * u >= Pow(|b|) then u - Pow(|b|) else u
  }

  lemma DecodeEncode(v: int, w: nat)
    requires Fits(v, w)
    ensures Decode(Encode(v, w)) == v
  {
    LowOK(if v < 0 then v + Pow(w) else v, w);
  }

  lemma {:induction false} PowGrows(w: nat, x: nat)
    requires w <= x
    ensures Pow(w) <= Pow(x)
    decreases x
  {
    if w < x {
      PowGrows(w, x - 1);
    }
  }

  lemma FitsWider(v: int, w: nat, x: nat)
    requires Fits(v, w) && w <= x
    ensures Fits(v, x)
  {
    PowGrows(w, x);
  }

  // ---- Elements of an array ----

  /** Where element `i` starts: the pointers of the source step by whole elements. */
  function At(i: nat, w: nat): nat
    requires Width(w)
  {
    if w == 2 then 2 * i else if w == 4 then 4 * i else 8 * i
  }

  lemma Distribute(i: nat, j: nat, w: nat)
    requires Width(w)
    ensures At(i + j, w) == At(i, w) + At(j, w)
  {
  }

  lemma Before(i: nat, j: nat, w: nat)
    requires i < j && Width(w)
    ensures At(i, w) + w <= At(j, w)
  {
  }

  lemma Scale(i: nat, c: nat, w: nat)
    requires c <= w && Width(c) && Width(w)
    ensures At(i, c) <= At(i, w)
  {
  }

  /** Element `i`, `w` bytes wide, is inside the string. */
  predicate Inside(s: seq<Byte>, i: nat, w: nat) { Width(w) && At(i, w) + w <= |s| }

  lemma Fit(s: seq<Byte>, i: nat, n: nat, w: nat)
    requires i < n && Width(w) && At(n, w) <= |s|
    ensures Inside(s, i, w)
  {
    Before(i, n, w);
  }

  /** `_intsetGetEncoded`. */
  function Get(s: seq<Byte>, i: nat, w: nat): (v: int)
    requires Inside(s, i, w)
    ensures Fits(v, w)
  {
    Decode(s[At(i, w)..At(i, w) + w])
  }

  /** `_intsetSet`. */
  function Put(s: seq<Byte>, i: nat, w: nat, v: int): (r: seq<Byte>)
    requires Inside(s, i, w) && Fits(v, w)
    ensures |r| == |s|
  {
    s[..At(i, w)] + Encode(v, w) + s[At(i, w) + w..]
  }

  /** What a write does not touch: bytes `at` to `at + n`. */
  lemma PutElsewhere(s: seq<Byte>, i: nat, w: nat, v: int, at: nat, n: nat)
    requires Inside(s, i, w) && Fits(v, w) && at + n <= |s|
    requires at + n <= At(i, w) || At(i, w) + w <= at
    ensures Put(s, i, w, v)[at..at + n] == s[at..at + n]
  {
    var p := Put(s, i, w, v);
    var l, r := p[at..at + n], s[at..at + n];
    forall k | 0 <= k < n ensures l[k] == r[k] {
      assert l[k] == p[at + k] == s[at + k];
    }
  }

  lemma PutGet(s: seq<Byte>, i: nat, w: nat, v: int)
    requires Inside(s, i, w) && Fits(v, w)
    ensures Get(Put(s, i, w, v), i, w) == v
  {
    DecodeEncode(v, w);
    assert Put(s, i, w, v)[At(i, w)..At(i, w) + w] == Encode(v, w);
    hide Encode;
    hide Decode;
  }

  lemma PutGetOther(s: seq<Byte>, i: nat, w: nat, v: int, j: nat)
    requires Inside(s, i, w) && Fits(v, w) && Inside(s, j, w) && i != j
    ensures Get(Put(s, i, w, v), j, w) == Get(s, j, w)
  {
    if i < j {
      Before(i, j, w);
    } else {
      Before(j, i, w);
    }
    PutElsewhere(s, i, w, v, At(j, w), w);
    hide Put;
    hide Decode;
  }

  /** An element at the old width lies wholly before every later one at the new width: writing the
      later one does not touch it. */
  lemma PutWide(s: seq<Byte>, i: nat, w: nat, v: int, j: nat, c: nat)
    requires Inside(s, i, w) && Fits(v, w) && Inside(s, j, c) && j < i && c <= w
    ensures Get(Put(s, i, w, v), j, c) == Get(s, j, c)
  {
    Before(j, i, c);
    Scale(i, c, w);
    PutElsewhere(s, i, w, v, At(j, c), c);
    hide Put;
    hide Decode;
  }

  /** The first `n` elements. */
  function Elements(s: seq<Byte>, n: nat, w: nat): (r: seq<int>)
    requires Width(w) && At(n, w) <= |s|
    ensures |r| == n
  {
    seq(n, i requires 0 <= i < n && Width(w) && At(n, w) <= |s| => (Before(i, n, w); Get(s, i, w)))
  }

  lemma ElementAt(s: seq<Byte>, n: nat, w: nat, i: nat)
    requires Width(w) && At(n, w) <= |s| && i < n
    ensures Inside(s, i, w) && Elements(s, n, w)[i] == Get(s, i, w)
  {
    Before(i, n, w);
  }
}
