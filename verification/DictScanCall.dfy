/** `dictScan` on the imperative dictionary. */
module DictScanCall {
  import opened Words
  import opened ScanOrder
  import ScanExpand
  import opened Options
  import opened DictModel
  import DictTable
  import DictScan

  /** What was emitted, and what is still to be, make up all there is. */
  ghost predicate Expanding<K, V>(t: Table<K, V>, m0: bv64, v0: bv64, out: seq<Entry<K, V>>, v: bv64, more: bool)
    requires ScanExpand.Masks(m0, t.mask) && |t.buckets| == Index(t.mask) + 1
  {
    var all := DictScan.ExpandEmit(t, v0, m0);
    if more then (out + DictScan.ExpandEmit(t, v, m0).0, DictScan.ExpandEmit(t, v, m0).1) == all else (out, v) == all
  }

  lemma ExpandingStart<K, V>(t: Table<K, V>, m0: bv64, v0: bv64)
    requires ScanExpand.Masks(m0, t.mask) && |t.buckets| == Index(t.mask) + 1
    ensures Expanding(t, m0, v0, [], v0, true)
  {
    assert [] + DictScan.ExpandEmit(t, v0, m0).0 == DictScan.ExpandEmit(t, v0, m0).0;
    hide ScanExpand.Masks;
    hide DictScan.ExpandEmit;
  }

  lemma ExpandingStep<K, V>(t: Table<K, V>, m0: bv64, v0: bv64, out: seq<Entry<K, V>>, v: bv64)
    requires ScanExpand.Masks(m0, t.mask) && |t.buckets| == Index(t.mask) + 1 && Expanding(t, m0, v0, out, v, true)
    ensures Bucket(v, t.mask) < |t.buckets|
    ensures var w := ScanExpand.ExpandNext(v, m0);
            var more := !ScanExpand.Stops(w, m0, t.mask);
      && Expanding(t, m0, v0, out + t.buckets[Bucket(v, t.mask)], w, more)
      && (more ==> Bucket(v, t.mask) < Bucket(w, t.mask))
      && Bucket(w, t.mask) <= Index(t.mask)
  {
    DictScan.ExpandUnfold(t, v, m0);
    BucketBound(v, t.mask);
    BucketBound(ScanExpand.ExpandNext(v, m0), t.mask);
    hide ScanExpand.Masks;
    hide ScanExpand.Stops;
    hide ScanExpand.ExpandNext;
    hide DictScan.ExpandEmit;
    hide Bucket;
    hide Index;
    var here, rest := t.buckets[Bucket(v, t.mask)], DictScan.ExpandEmit(t, ScanExpand.ExpandNext(v, m0), m0).0;
    assert (out + here) + rest == out + (here + rest);
  }

  /** The inner loop of `dictScan` (dict.c:908-922): buckets of the larger table that share the
      smaller table's bits of the cursor. */
  method ScanExpansions<K(!new), V>(large: array<seq<Entry<K, V>>>, m0: bv64, m1: bv64, v0: bv64)
    returns (out: seq<Entry<K, V>>, v: bv64)
    requires ScanExpand.Masks(m0, m1) && large.Length == Index(m1) + 1
    ensures (out, v) == DictScan.ExpandEmit(Table(large[..], m1, 0), v0, m0)
  {
    ghost var t := Table(large[..], m1, 0);
    out, v := [], v0;
    var more := true;
    ExpandingStart(t, m0, v0);
    BucketBound(v0, m1);
    hide ScanExpand.Masks;
    hide ScanExpand.Stops;
    hide ScanExpand.ExpandNext;
    hide DictScan.ExpandEmit;
    hide Bucket;
    hide Index;
    while more
      invariant Bucket(v, m1) <= Index(m1) && Expanding(t, m0, v0, out, v, more)
      decreases if more then 1 + Index(m1) - Bucket(v, m1) else 0
    {
      ExpandingStep(t, m0, v0, out, v);
      hide Expanding;
      out := out + large[Bucket(v, m1)];
      v := ScanExpand.ExpandNext(v, m0);
      more := !ScanExpand.Stops(v, m0, m1);
    }
  }

  /** The end of `dictScan` (dict.c:925-932): the bits above the mask are set, and the reversed cursor is
      incremented. */
  method AdvanceCursor(v0: bv64, m0: bv64) returns (v: bv64)
    ensures v == NextCursor(v0, m0)
  {
    hide Rev;
    v := v0 | !m0;
    v := ReverseBits(v);
    v := v + 1;
    v := ReverseBits(v);
  }

  /** `dictScan` (dict.c:866-935); the callback is called on `out`, in order. */
  method Scan<K(==, !new), V>(d: DictTable.Dict<K, V>, v0: bv64) returns (out: seq<Entry<K, V>>, v: bv64)
    requires d.Valid()
    ensures (out, v) == DictScan.Scan(d.State(), v0, d.hashFunction)
  {
    if d.used0 + d.used1 == 0 {
      return [], 0;
    }
    if d.rehashidx == -1 {
      out := ScanOne(d, v0);
      v := AdvanceCursor(v0, d.mask0);
      return;
    }
    out, v := ScanBoth(d, v0);
  }

  lemma ScanUnfold<K(!new), V>(d: Dict<K, V>, v: bv64, h: K -> bv64)
    requires DictOK(d, h) && IsRehashing(d) && d.ht0.used + d.ht1.used > 0
    ensures var (t, u) := if |d.ht0.buckets| > |d.ht1.buckets| then (d.ht1, d.ht0) else (d.ht0, d.ht1);
      && ScanExpand.Masks(t.mask, u.mask)
      && |t.buckets| == Index(t.mask) + 1 && |u.buckets| == Index(u.mask) + 1
      && Bucket(v, t.mask) < |t.buckets|
      && var w := Table(u.buckets, u.mask, 0);
         var r := DictScan.ExpandEmit(w, v, t.mask);
         DictScan.Scan(d, v, h) == (t.buckets[Bucket(v, t.mask)] + r.0, NextCursor(r.1, t.mask))
  {
    DictScan.TableMasks(d, h);
    var u := DictScan.Larger(d);
    ExpandIgnoresUsed(u, Table(u.buckets, u.mask, 0), v, DictScan.Smaller(d).mask);
    BucketBound(v, DictScan.Smaller(d).mask);
    hide DictOK;
    hide Bucket;
    hide Index;
    hide ScanExpand.Masks;
    hide DictScan.ExpandEmit;
    hide NextCursor;
  }

  /** One bucket of the smaller table, then its expansions in the larger (dict.c:902-922). */
  method ScanTables<K(!new), V>(small: array<seq<Entry<K, V>>>, m0: bv64, large: array<seq<Entry<K, V>>>, m1: bv64,
                                v0: bv64, ghost b0: seq<seq<Entry<K, V>>>, ghost b1: seq<seq<Entry<K, V>>>)
    returns (out: seq<Entry<K, V>>, v: bv64)
    requires b0 == small[..] && b1 == large[..]
    requires ScanExpand.Masks(m0, m1) && |b0| == Index(m0) + 1 && |b1| == Index(m1) + 1
    ensures Bucket(v0, m0) < |b0|
    ensures var r := DictScan.ExpandEmit(Table(b1, m1, 0), v0, m0);
            out == b0[Bucket(v0, m0)] + r.0 && v == NextCursor(r.1, m0)
  {
    hide *;
    BucketBound(v0, m0);
    out := small[Bucket(v0, m0)];
    var more, w := ScanExpansions(large, m0, m1, v0);
    out := out + more;
    v := AdvanceCursor(w, m0);
  }

  method ScanBoth<K(==, !new), V>(d: DictTable.Dict<K, V>, v0: bv64) returns (out: seq<Entry<K, V>>, v: bv64)
    requires d.Valid() && d.rehashidx != -1 && d.used0 + d.used1 > 0
    ensures (out, v) == DictScan.Scan(d.State(), v0, d.hashFunction)
  {
    hide DictScan.Scan;
    ghost var state := d.State();
    ScanUnfold(state, v0, d.hashFunction);
    assert d.table0[..] == state.ht0.buckets && d.table1[..] == state.ht1.buckets;
    hide *;
    if d.table0.Length > d.table1.Length {
      out, v := ScanTables(d.table1, d.mask1, d.table0, d.mask0, v0, state.ht1.buckets, state.ht0.buckets);
    } else {
      out, v := ScanTables(d.table0, d.mask0, d.table1, d.mask1, v0, state.ht0.buckets, state.ht1.buckets);
    }
  }

  method ScanOne<K(==, !new), V>(d: DictTable.Dict<K, V>, v: bv64) returns (out: seq<Entry<K, V>>)
    requires d.Valid() && d.rehashidx == -1 && d.used0 + d.used1 > 0
    ensures d.table0.Length > 0 && Bucket(v, d.mask0) < d.table0.Length
    ensures out == d.table0[Bucket(v, d.mask0)]
  {
    hide Bucket;
    hide Low;
    hide Placed;
    out := d.table0[Bucket(v, d.mask0)];
  }

  lemma {:induction false} ExpandIgnoresUsed<K, V>(t: Table<K, V>, u: Table<K, V>, v: bv64, m0: bv64)
    requires t.buckets == u.buckets && t.mask == u.mask
    requires ScanExpand.Masks(m0, t.mask) && |t.buckets| == Index(t.mask) + 1
    ensures DictScan.ExpandEmit(t, v, m0) == DictScan.ExpandEmit(u, v, m0)
    decreases Index(t.mask) - Bucket(v, t.mask)
  {
    hide *;
    DictScan.ExpandUnfold(t, v, m0);
    DictScan.ExpandUnfold(u, v, m0);
    if !ScanExpand.Stops(ScanExpand.ExpandNext(v, m0), m0, t.mask) {
      ExpandIgnoresUsed(t, u, ScanExpand.ExpandNext(v, m0), m0);
    }
  }
}
