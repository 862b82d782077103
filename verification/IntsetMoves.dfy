/** The sorted integer arrays of intset.c: a set of 64-bit integers in elements of one width, widened in
    place when a value does not fit. */
module IntsetMoves {
  import opened IntsetBytes

  // ---- Sorted sequences ----

  ghost predicate Sorted(c: seq<int>) { forall i, j :: 0 <= i < j < |c| ==> c[i] < c[j] }

  ghost function SetOf(c: seq<int>): set<int> { set v | v in c }

  /** `pos` is where `value` belongs. */
  ghost predicate Place(c: seq<int>, value: int, pos: nat) {
    && pos <= |c|
    && (forall i :: 0 <= i < pos ==> c[i] < value)
    && (forall i :: pos <= i < |c| ==> value < c[i])
  }

  lemma Inserted(c: seq<int>, value: int, pos: nat)
    requires Sorted(c) && Place(c, value, pos)
    ensures Sorted(c[..pos] + [value] + c[pos..])
    ensures SetOf(c[..pos] + [value] + c[pos..]) == SetOf(c) + {value} && value !in SetOf(c)
  {
    var t := c[..pos] + [value] + c[pos..];
    forall v | v in SetOf(c) + {value} ensures v in t {
      if v != value {
        var i :| 0 <= i < |c| && c[i] == v;
        assert t[if i < pos then i else i + 1] == v;
      } else {
        assert t[pos] == v;
      }
    }
  }

  lemma Removed(c: seq<int>, pos: nat)
    requires Sorted(c) && pos < |c|
    ensures Sorted(c[..pos] + c[pos + 1..])
    ensures SetOf(c[..pos] + c[pos + 1..]) == SetOf(c) - {c[pos]}
  {
    var t := c[..pos] + c[pos + 1..];
    forall v | v in SetOf(c) - {c[pos]} ensures v in t {
      var i :| 0 <= i < |c| && c[i] == v;
      assert t[if i < pos then i else i - 1] == v;
    }
  }

  lemma SameFirst(a: seq<int>, b: seq<int>)
    requires Sorted(a) && Sorted(b) && SetOf(a) == SetOf(b) && a != []
    ensures b != [] && a[0] == b[0]
  {
    assert a[0] in SetOf(b);
    assert b[0] in SetOf(a);
    var i :| 0 <= i < |b| && b[i] == a[0];
    var j :| 0 <= j < |a| && a[j] == b[0];
  }

  lemma Rest(a: seq<int>)
    requires Sorted(a) && a != []
    ensures Sorted(a[1..]) && SetOf(a[1..]) == SetOf(a) - {a[0]}
  {
    Removed(a, 0);
    assert a[..0] + a[1..] == a[1..];
    hide Sorted;
    hide SetOf;
  }

  lemma NoneOf(a: seq<int>)
    ensures SetOf(a) == {} <==> a == []
  {
    if a != [] {
      assert a[0] in SetOf(a);
    }
  }

  /** Two sorted arrays of the same set are the same array. */
  lemma {:induction false} SortedUnique(a: seq<int>, b: seq<int>)
    requires Sorted(a) && Sorted(b) && SetOf(a) == SetOf(b)
    ensures a == b
    decreases |a|
  {
    hide *;
    NoneOf(a);
    NoneOf(b);
    if a != [] {
      SameFirst(a, b);
      Rest(a);
      Rest(b);
      SortedUnique(a[1..], b[1..]);
      assert a == [a[0]] + a[1..] && b == [b[0]] + b[1..];
    }
  }

  // ---- Widths ----

  predicate Int64(v: int) { -0x8000_0000_0000_0000 <= v < 0x8000_0000_0000_0000 }

  /** `_intsetValueEncoding`. */
  function ValueEncoding(v: int): (w: nat)
    requires Int64(v)
    ensures Width(w)
  {
    if v < -0x8000_0000 || v > 0x7FFF_FFFF then 8
    else if v < -0x8000 || v > 0x7FFF then 4
    else 2
  }

  /** It is the least width the value fits. */
  lemma ValueEncodingIs(v: int, w: nat)
    requires Int64(v) && Width(w)
    ensures ValueEncoding(v) <= w <==> Fits(v, w)
  {
    Powers();
  }

  /** A value that needs a wider encoding is below or above everything that fits the narrower one. */
  lemma Outside(v: int, w: nat, u: int)
    requires Int64(v) && Width(w) && ValueEncoding(v) > w && Fits(u, w)
    ensures if v < 0 then v < u else u < v
  {
    Powers();
  }

  // ---- Moving elements ----

  /** The bytes with `n` of them copied from `src` to `dst`, as `memmove` does. */
  function Moved(s: seq<Byte>, dst: nat, src: nat, n: nat): (r: seq<Byte>)
    requires dst + n <= |s| && src + n <= |s|
    ensures |r| == |s|
  {
    s[..dst] + s[src..src + n] + s[dst + n..]
  }

  lemma SliceOfSlice(s: seq<Byte>, a: nat, b: nat, c: nat, d: nat)
    requires a <= b <= |s| && c <= d <= b - a
    ensures s[a..b][c..d] == s[a + c..a + d]
  {
    var l, r := s[a..b][c..d], s[a + c..a + d];
    forall x | 0 <= x < |l| ensures l[x] == r[x] {
      assert l[x] == s[a..b][c + x] == s[a + (c + x)];
    }
  }

  lemma MovedAt(s: seq<Byte>, dst: nat, src: nat, n: nat, k: nat, w: nat)
    requires dst + n <= |s| && src + n <= |s| && k + w <= n
    ensures Moved(s, dst, src, n)[dst + k..dst + k + w] == s[src + k..src + k + w]
  {
    var m := Moved(s, dst, src, n);
    assert m[dst..dst + n] == s[src..src + n];
    SliceOfSlice(m, dst, dst + n, k, k + w);
    SliceOfSlice(s, src, src + n, k, k + w);
  }

  lemma MovedBefore(s: seq<Byte>, dst: nat, src: nat, n: nat, k: nat, w: nat)
    requires dst + n <= |s| && src + n <= |s| && k + w <= dst
    ensures Moved(s, dst, src, n)[k..k + w] == s[k..k + w]
  {
  }

  /** `intsetMoveTail`: `count` elements are moved from `from` to `to`. */
  function Tail(s: seq<Byte>, w: nat, from: nat, to: nat, count: nat): (r: seq<Byte>)
    requires Width(w) && At(from + count, w) <= |s| && At(to + count, w) <= |s|
    ensures |r| == |s|
  {
    Distribute(from, count, w);
    Distribute(to, count, w);
    Moved(s, At(to, w), At(from, w), At(count, w))
  }

  lemma TailMoved(s: seq<Byte>, w: nat, from: nat, to: nat, count: nat, i: nat, j: nat)
    requires Width(w) && At(from + count, w) <= |s| && At(to + count, w) <= |s|
    requires from <= i < from + count && j + from == i + to
    ensures Inside(s, i, w) && Inside(s, j, w)
    ensures Get(Tail(s, w, from, to, count), j, w) == Get(s, i, w)
  {
    Fit(s, i, from + count, w);
    Fit(s, j, to + count, w);
    TailSlice(s, w, from, to, count, i, j);
    hide At;
    hide Decode;
    hide Tail;
  }

  lemma TailSlice(s: seq<Byte>, w: nat, from: nat, to: nat, count: nat, i: nat, j: nat)
    requires Width(w) && At(from + count, w) <= |s| && At(to + count, w) <= |s|
    requires from <= i < from + count && j + from == i + to
    ensures At(i, w) + w <= |s| && At(j, w) + w <= |s|
    ensures Tail(s, w, from, to, count)[At(j, w)..At(j, w) + w] == s[At(i, w)..At(i, w) + w]
  {
    var k := i - from;
    assert At(from, w) + At(k, w) == At(i, w) && At(to, w) + At(k, w) == At(j, w) && At(k, w) + w <= At(count, w);
    assert At(from, w) + At(count, w) <= |s| && At(to, w) + At(count, w) <= |s|;
    assert Tail(s, w, from, to, count) == Moved(s, At(to, w), At(from, w), At(count, w));
    hide *;
    MovedAt(s, At(to, w), At(from, w), At(count, w), At(k, w), w);
  }

  lemma TailKept(s: seq<Byte>, w: nat, from: nat, to: nat, count: nat, i: nat)
    requires Width(w) && At(from + count, w) <= |s| && At(to + count, w) <= |s| && i < to
    ensures Inside(s, i, w) && Get(Tail(s, w, from, to, count), i, w) == Get(s, i, w)
  {
    Distribute(from, count, w);
    Distribute(to, count, w);
    Before(i, to, w);
    MovedBefore(s, At(to, w), At(from, w), At(count, w), At(i, w), w);
    hide Decode;
    hide Moved;
    hide At;
  }

  // ---- Inserting and deleting ----

  /** The buffer grew and kept what it had. */
  ghost predicate Grown(s: seq<Byte>, t: seq<Byte>) { |s| <= |t| && t[..|s|] == s }

  lemma PrefixSlice(s: seq<Byte>, t: seq<Byte>, a: nat, b: nat)
    requires Grown(s, t) && a <= b <= |s|
    ensures t[a..b] == s[a..b]
  {
    forall x | 0 <= x < b - a ensures t[a..b][x] == s[a..b][x] {
      assert t[a..b][x] == t[a + x] == t[..|s|][a + x];
    }
  }

  lemma GrownGet(s: seq<Byte>, t: seq<Byte>, i: nat, w: nat)
    requires Grown(s, t) && Inside(s, i, w)
    ensures Inside(t, i, w) && Get(t, i, w) == Get(s, i, w)
  {
    PrefixSlice(s, t, At(i, w), At(i, w) + w);
    hide Decode;
  }

  /** The bytes `intsetAdd` leaves when the width does not change. */
  function AddedBytes(t: seq<Byte>, n: nat, w: nat, pos: nat, v: int): (r: seq<Byte>)
    requires Width(w) && |t| == At(n + 1, w) && pos <= n && Fits(v, w)
    ensures |r| == |t|
  {
    Put(Opened(t, n, w, pos), pos, w, v)
  }

  /** The bytes with place `pos` made free. */
  function Opened(t: seq<Byte>, n: nat, w: nat, pos: nat): (r: seq<Byte>)
    requires Width(w) && |t| == At(n + 1, w) && pos <= n
    ensures |r| == |t| && Inside(r, pos, w)
  {
    if pos < n then Tail(t, w, pos, pos + 1, n - pos) else t
  }

  lemma OpenedHead(t: seq<Byte>, n: nat, w: nat, pos: nat, i: nat)
    requires Width(w) && |t| == At(n + 1, w) && i < pos <= n
    ensures Inside(t, i, w) && Inside(Opened(t, n, w, pos), i, w)
    ensures Get(Opened(t, n, w, pos), i, w) == Get(t, i, w)
  {
    if pos < n {
      TailKept(t, w, pos, pos + 1, n - pos, i);
    }
    hide Get;
    hide Tail;
  }

  lemma OpenedTail(t: seq<Byte>, n: nat, w: nat, pos: nat, i: nat)
    requires Width(w) && |t| == At(n + 1, w) && pos <= i < n
    ensures Inside(t, i, w) && Inside(Opened(t, n, w, pos), i + 1, w)
    ensures Get(Opened(t, n, w, pos), i + 1, w) == Get(t, i, w)
  {
    hide Get;
    hide Tail;
    TailMoved(t, w, pos, pos + 1, n - pos, i, i + 1);
  }

  lemma AddedHere(t: seq<Byte>, n: nat, w: nat, pos: nat, v: int)
    requires Width(w) && |t| == At(n + 1, w) && pos <= n && Fits(v, w)
    ensures Elements(AddedBytes(t, n, w, pos, v), n + 1, w)[pos] == v
  {
    PutGet(Opened(t, n, w, pos), pos, w, v);
    ElementAt(AddedBytes(t, n, w, pos, v), n + 1, w, pos);
    hide Get;
    hide Put;
    hide Opened;
    hide Elements;
  }

  lemma AddedBefore(s: seq<Byte>, t: seq<Byte>, n: nat, w: nat, pos: nat, v: int, i: nat)
    requires Width(w) && |s| == At(n, w) && |t| == At(n + 1, w) && Grown(s, t) && i < pos <= n && Fits(v, w)
    ensures Elements(AddedBytes(t, n, w, pos, v), n + 1, w)[i] == Elements(s, n, w)[i]
  {
    AddedIs(t, n, w, pos, v);
    hide *;
    ElementAt(AddedBytes(t, n, w, pos, v), n + 1, w, i);
    ElementAt(s, n, w, i);
    GrownGet(s, t, i, w);
    OpenedHead(t, n, w, pos, i);
    PutGetOther(Opened(t, n, w, pos), pos, w, v, i);
  }

  lemma AddedTail(t: seq<Byte>, n: nat, w: nat, pos: nat, v: int, i: nat)
    requires Width(w) && |t| == At(n + 1, w) && pos <= i < n && Fits(v, w)
    ensures Inside(t, i, w) && Inside(AddedBytes(t, n, w, pos, v), i + 1, w)
    ensures Get(AddedBytes(t, n, w, pos, v), i + 1, w) == Get(t, i, w)
  {
    AddedIs(t, n, w, pos, v);
    hide *;
    OpenedTail(t, n, w, pos, i);
    PutGetOther(Opened(t, n, w, pos), pos, w, v, i + 1);
    SameLength(Opened(t, n, w, pos), AddedBytes(t, n, w, pos, v), i + 1, w);
  }

  lemma AddedAfter(s: seq<Byte>, t: seq<Byte>, n: nat, w: nat, pos: nat, v: int, i: nat)
    requires Width(w) && |s| == At(n, w) && |t| == At(n + 1, w) && Grown(s, t) && pos <= i < n && Fits(v, w)
    ensures Elements(AddedBytes(t, n, w, pos, v), n + 1, w)[i + 1] == Elements(s, n, w)[i]
  {
    hide *;
    ElementAt(AddedBytes(t, n, w, pos, v), n + 1, w, i + 1);
    ElementAt(s, n, w, i);
    GrownGet(s, t, i, w);
    AddedTail(t, n, w, pos, v, i);
  }

  lemma AddedIs(t: seq<Byte>, n: nat, w: nat, pos: nat, v: int)
    requires Width(w) && |t| == At(n + 1, w) && pos <= n && Fits(v, w)
    ensures AddedBytes(t, n, w, pos, v) == Put(Opened(t, n, w, pos), pos, w, v)
  {
    hide Opened;
    hide Put;
  }

  lemma AddedElements(s: seq<Byte>, t: seq<Byte>, n: nat, w: nat, pos: nat, v: int)
    requires Width(w) && |s| == At(n, w) && |t| == At(n + 1, w) && Grown(s, t) && pos <= n && Fits(v, w)
    ensures var c := Elements(s, n, w); Elements(AddedBytes(t, n, w, pos, v), n + 1, w) == c[..pos] + [v] + c[pos..]
  {
    hide *;
    var c, a := Elements(s, n, w), Elements(AddedBytes(t, n, w, pos, v), n + 1, w);
    AddedHere(t, n, w, pos, v);
    forall i | 0 <= i < pos ensures a[i] == c[i] {
      AddedBefore(s, t, n, w, pos, v, i);
    }
    forall i | pos <= i < n ensures a[i + 1] == c[i] {
      AddedAfter(s, t, n, w, pos, v, i);
    }
    Glue(c, a, pos, v);
  }

  lemma Glue(c: seq<int>, a: seq<int>, pos: nat, v: int)
    requires pos <= |c| && |a| == |c| + 1 && a[pos] == v
    requires forall i :: 0 <= i < pos ==> a[i] == c[i]
    requires forall i :: pos <= i < |c| ==> a[i + 1] == c[i]
    ensures a == c[..pos] + [v] + c[pos..]
  {
    var e := c[..pos] + [v] + c[pos..];
    forall i | 0 <= i < |a| ensures a[i] == e[i] {
      if i > pos {
        assert a[(i - 1) + 1] == c[i - 1];
      }
    }
  }

  /** The bytes `intsetRemove` leaves, before the buffer is cut. */
  function RemovedBytes(s: seq<Byte>, n: nat, w: nat, pos: nat): (r: seq<Byte>)
    requires Width(w) && |s| == At(n, w) && pos < n
    ensures |r| == |s|
  {
    if pos < n - 1 then Tail(s, w, pos + 1, pos, n - 1 - pos) else s
  }

  lemma RemovedBefore(s: seq<Byte>, n: nat, w: nat, pos: nat, i: nat)
    requires Width(w) && |s| == At(n, w) && i < pos < n
    ensures Elements(RemovedBytes(s, n, w, pos), n, w)[i] == Elements(s, n, w)[i]
  {
    ElementAt(s, n, w, i);
    ElementAt(RemovedBytes(s, n, w, pos), n, w, i);
    if pos < n - 1 {
      TailKept(s, w, pos + 1, pos, n - 1 - pos, i);
    }
    hide Get;
    hide Tail;
    hide Elements;
  }

  lemma RemovedTail(s: seq<Byte>, n: nat, w: nat, pos: nat, i: nat)
    requires Width(w) && |s| == At(n, w) && pos <= i < n - 1
    ensures Inside(s, i + 1, w) && Inside(RemovedBytes(s, n, w, pos), i, w)
    ensures Get(RemovedBytes(s, n, w, pos), i, w) == Get(s, i + 1, w)
  {
    hide Get;
    hide Tail;
    TailMoved(s, w, pos + 1, pos, n - 1 - pos, i + 1, i);
  }

  lemma RemovedAfter(s: seq<Byte>, n: nat, w: nat, pos: nat, i: nat)
    requires Width(w) && |s| == At(n, w) && pos <= i < n - 1
    ensures Elements(RemovedBytes(s, n, w, pos), n, w)[i] == Elements(s, n, w)[i + 1]
  {
    hide *;
    ElementAt(s, n, w, i + 1);
    ElementAt(RemovedBytes(s, n, w, pos), n, w, i);
    RemovedTail(s, n, w, pos, i);
  }

  lemma CutElement(t: seq<Byte>, r: seq<Byte>, n: nat, w: nat, i: nat)
    requires Width(w) && |r| == At(n, w) && i < n - 1 && |t| == At(n - 1, w) && Grown(t, r)
    ensures Elements(t, n - 1, w)[i] == Elements(r, n, w)[i]
  {
    hide *;
    ElementAt(t, n - 1, w, i);
    ElementAt(r, n, w, i);
    GrownGet(t, r, i, w);
  }

  lemma RemovedElements(s: seq<Byte>, n: nat, w: nat, pos: nat, t: seq<Byte>)
    requires Width(w) && |s| == At(n, w) && pos < n && |t| == At(n - 1, w) && Grown(t, RemovedBytes(s, n, w, pos))
    ensures var c := Elements(s, n, w); Elements(t, n - 1, w) == c[..pos] + c[pos + 1..]
  {
    hide *;
    var c, r, a := Elements(s, n, w), RemovedBytes(s, n, w, pos), Elements(t, n - 1, w);
    forall i | 0 <= i < pos ensures a[i] == c[i] {
      CutElement(t, r, n, w, i);
      RemovedBefore(s, n, w, pos, i);
    }
    forall i | pos <= i < n - 1 ensures a[i] == c[i + 1] {
      CutElement(t, r, n, w, i);
      RemovedAfter(s, n, w, pos, i);
    }
    Unglue(c, a, pos);
  }

  lemma Unglue(c: seq<int>, a: seq<int>, pos: nat)
    requires pos < |c| && |a| == |c| - 1
    requires forall i :: 0 <= i < pos ==> a[i] == c[i]
    requires forall i :: pos <= i < |a| ==> a[i] == c[i + 1]
    ensures a == c[..pos] + c[pos + 1..]
  {
  }

  // ---- Widening ----

  /** Place `k` of width `w` holds `v`. */
  ghost predicate Holds(s: seq<Byte>, k: nat, w: nat, v: int) { Inside(s, k, w) && Get(s, k, w) == v }

  /** Elements before `i` are at the old width where they were. */
  ghost predicate OldOnes(c: seq<int>, s: seq<Byte>, i: nat, old_: nat) {
    i <= |c| && forall j :: 0 <= j < i ==> Holds(s, j, old_, c[j])
  }

  /** Those from `i` on are at the new width, `prepend` places up. */
  ghost predicate NewOnes(c: seq<int>, s: seq<Byte>, i: nat, w: nat, prepend: nat) {
    forall j :: i <= j < |c| ==> Holds(s, j + prepend, w, c[j])
  }

  ghost predicate Widening(c: seq<int>, s: seq<Byte>, i: nat, old_: nat, w: nat, prepend: nat) {
    && prepend <= 1 && Width(old_) && Width(w) && old_ <= w && |s| == At(|c| + 1, w)
    && OldOnes(c, s, i, old_) && NewOnes(c, s, i, w, prepend)
  }

  lemma HoldsIs(s: seq<Byte>, k: nat, w: nat, v: int)
    requires Holds(s, k, w, v)
    ensures Inside(s, k, w) && Get(s, k, w) == v && Fits(v, w) && Width(w)
  {
    hide At;
  }

  lemma HoldsBy(s: seq<Byte>, k: nat, w: nat, v: int)
    requires Inside(s, k, w) && Get(s, k, w) == v
    ensures Holds(s, k, w, v)
  {
    hide Inside;
  }

  lemma SameLength(s: seq<Byte>, r: seq<Byte>, i: nat, w: nat)
    requires |s| == |r| && Inside(s, i, w)
    ensures Inside(r, i, w)
  {
  }

  lemma WideningStarts(s: seq<Byte>, t: seq<Byte>, n: nat, old_: nat, w: nat, prepend: nat)
    requires prepend <= 1 && Width(old_) && Width(w) && old_ <= w
    requires |s| == At(n, old_) && |t| == At(n + 1, w) && Grown(s, t)
    ensures Widening(Elements(s, n, old_), t, n, old_, w, prepend)
  {
    hide At;
    hide Holds;
    forall j | 0 <= j < n ensures Holds(t, j, old_, Elements(s, n, old_)[j]) {
      hide *;
      ElementAt(s, n, old_, j);
      GrownGet(s, t, j, old_);
      HoldsBy(t, j, old_, Elements(s, n, old_)[j]);
    }
    hide Elements;
    hide Grown;
  }

  /** What a step of the loop reads and where it writes. */
  lemma StepFits(c: seq<int>, s: seq<Byte>, i: nat, old_: nat, w: nat, prepend: nat)
    requires Widening(c, s, i, old_, w, prepend) && i > 0
    ensures i <= |c| && Inside(s, i - 1, old_) && Inside(s, i - 1 + prepend, w)
    ensures Get(s, i - 1, old_) == c[i - 1] && Fits(c[i - 1], w)
  {
    hide Get;
    hide At;
    hide Inside;
    hide Fits;
    hide Holds;
    hide Width;
    Fit(s, i - 1 + prepend, |c| + 1, w);
    assert Holds(s, i - 1, old_, c[i - 1]);
    HoldsIs(s, i - 1, old_, c[i - 1]);
    FitsWider(c[i - 1], old_, w);
  }

  /** Going from the back, a write never overwrites an element that is still to be read. */
  lemma UnreadKept(s: seq<Byte>, k: nat, w: nat, v: int, j: nat, old_: nat, u: int)
    requires Inside(s, k, w) && Fits(v, w) && old_ <= w && j < k && Holds(s, j, old_, u)
    ensures Holds(Put(s, k, w, v), j, old_, u)
  {
    hide *;
    HoldsIs(s, j, old_, u);
    PutWide(s, k, w, v, j, old_);
    SameLength(s, Put(s, k, w, v), j, old_);
    HoldsBy(Put(s, k, w, v), j, old_, u);
  }

  /** Nor one that is already moved. */
  lemma MovedKept(s: seq<Byte>, k: nat, w: nat, v: int, j: nat, u: int)
    requires Inside(s, k, w) && Fits(v, w) && j != k && Holds(s, j, w, u)
    ensures Holds(Put(s, k, w, v), j, w, u)
  {
    hide *;
    HoldsIs(s, j, w, u);
    PutGetOther(s, k, w, v, j);
    SameLength(s, Put(s, k, w, v), j, w);
    HoldsBy(Put(s, k, w, v), j, w, u);
  }

  lemma Written(s: seq<Byte>, k: nat, w: nat, v: int)
    requires Inside(s, k, w) && Fits(v, w)
    ensures Holds(Put(s, k, w, v), k, w, v)
  {
    hide *;
    PutGet(s, k, w, v);
    SameLength(s, Put(s, k, w, v), k, w);
    HoldsBy(Put(s, k, w, v), k, w, v);
  }

  lemma OldOnesKept(c: seq<int>, s: seq<Byte>, i: nat, old_: nat, k: nat, w: nat, v: int)
    requires 0 < i && i - 1 <= k && Inside(s, k, w) && Fits(v, w) && old_ <= w && OldOnes(c, s, i, old_)
    ensures OldOnes(c, Put(s, k, w, v), i - 1, old_)
  {
    forall j | 0 <= j < i - 1 ensures Holds(Put(s, k, w, v), j, old_, c[j]) {
      UnreadKept(s, k, w, v, j, old_, c[j]);
    }
    hide Holds;
    hide Inside;
    hide Fits;
    hide Put;
  }

  lemma NewOnesKept(c: seq<int>, s: seq<Byte>, i: nat, w: nat, prepend: nat)
    requires 0 < i <= |c| && Inside(s, i - 1 + prepend, w) && Fits(c[i - 1], w) && NewOnes(c, s, i, w, prepend)
    ensures NewOnes(c, Put(s, i - 1 + prepend, w, c[i - 1]), i - 1, w, prepend)
  {
    var k, v := i - 1 + prepend, c[i - 1];
    Written(s, k, w, v);
    forall j | i <= j < |c| ensures Holds(Put(s, k, w, v), j + prepend, w, c[j]) {
      MovedKept(s, k, w, v, j + prepend, c[j]);
    }
    hide Holds;
    hide Inside;
    hide Fits;
    hide Put;
  }

  lemma WideningStep(c: seq<int>, s: seq<Byte>, i: nat, old_: nat, w: nat, prepend: nat)
    requires Widening(c, s, i, old_, w, prepend) && i > 0
    ensures i <= |c| && Inside(s, i - 1, old_) && Inside(s, i - 1 + prepend, w)
    ensures Get(s, i - 1, old_) == c[i - 1] && Fits(c[i - 1], w)
    ensures Widening(c, Put(s, i - 1 + prepend, w, c[i - 1]), i - 1, old_, w, prepend)
  {
    StepFits(c, s, i, old_, w, prepend);
    hide Get;
    hide Put;
    hide Fits;
    hide At;
    hide Inside;
    hide Width;
    hide OldOnes;
    hide NewOnes;
    OldOnesKept(c, s, i, old_, i - 1 + prepend, w, c[i - 1]);
    NewOnesKept(c, s, i, w, prepend);
  }

  lemma WideningEnds(c: seq<int>, s: seq<Byte>, old_: nat, w: nat, prepend: nat, v: int)
    requires Widening(c, s, 0, old_, w, prepend) && Fits(v, w)
    ensures var at := if prepend == 1 then 0 else |c|;
      && Inside(s, at, w)
      && Elements(Put(s, at, w, v), |c| + 1, w) == if prepend == 1 then [v] + c else c + [v]
  {
    LastWrite(c, s, w, prepend, if prepend == 1 then 0 else |c|, v);
    hide OldOnes;
    hide NewOnes;
    hide Put;
    hide Elements;
    hide At;
    hide Inside;
    hide Fits;
  }

  lemma LastWrite(c: seq<int>, s: seq<Byte>, w: nat, prepend: nat, at: nat, v: int)
    requires NewOnes(c, s, 0, w, prepend) && prepend <= 1 && at == (if prepend == 1 then 0 else |c|)
    requires Fits(v, w) && Width(w) && |s| == At(|c| + 1, w)
    ensures Inside(s, at, w)
    ensures Elements(Put(s, at, w, v), |c| + 1, w) == if prepend == 1 then [v] + c else c + [v]
  {
    hide *;
    Fit(s, at, |c| + 1, w);
    Written(s, at, w, v);
    HeldElement(Put(s, at, w, v), |c| + 1, w, at, v);
    forall j | 0 <= j < |c| ensures Elements(Put(s, at, w, v), |c| + 1, w)[j + prepend] == c[j] {
      NewOnesAt(c, s, w, prepend, j);
      MovedKept(s, at, w, v, j + prepend, c[j]);
      HeldElement(Put(s, at, w, v), |c| + 1, w, j + prepend, c[j]);
    }
    Shifted(Elements(Put(s, at, w, v), |c| + 1, w), c, prepend, v);
  }

  lemma NewOnesAt(c: seq<int>, s: seq<Byte>, w: nat, prepend: nat, j: nat)
    requires NewOnes(c, s, 0, w, prepend) && j < |c|
    ensures Holds(s, j + prepend, w, c[j])
  {
  }

  lemma Shifted(a: seq<int>, c: seq<int>, prepend: nat, v: int)
    requires |a| == |c| + 1 && prepend <= 1 && a[if prepend == 1 then 0 else |c|] == v
    requires forall j :: 0 <= j < |c| ==> a[j + prepend] == c[j]
    ensures a == if prepend == 1 then [v] + c else c + [v]
  {
    var e := if prepend == 1 then [v] + c else c + [v];
    forall i | 0 <= i < |a| ensures a[i] == e[i] {
      if prepend == 0 {
        if i < |c| {
          assert a[i + prepend] == c[i];
        }
      } else if i > 0 {
        assert a[(i - 1) + prepend] == c[i - 1];
      }
    }
  }

  lemma HeldElement(s: seq<Byte>, n: nat, w: nat, i: nat, v: int)
    requires Width(w) && At(n, w) <= |s| && i < n && Holds(s, i, w, v)
    ensures Elements(s, n, w)[i] == v
  {
    ElementAt(s, n, w, i);
    HoldsIs(s, i, w, v);
    hide *;
  }
}
