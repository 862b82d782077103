/** `dictScan` over a whole run: the cursor is the only state carried from call to call, and between
    calls the dictionary may change in any way that leaves it well-formed. */
module DictScan {
  import opened Words
  import opened ScanOrder
  import opened ScanExpand
  import opened ScanCondition
  import opened Options
  import opened DictModel

  // ---- One call ----

  /** The smaller and the larger table while rehashing (dict.c:889-896). */
  ghost function Smaller<K, V>(d: Dict<K, V>): Table<K, V> {
    if |d.ht0.buckets| > |d.ht1.buckets| then d.ht1 else d.ht0
  }

  ghost function Larger<K, V>(d: Dict<K, V>): Table<K, V> {
    if |d.ht0.buckets| > |d.ht1.buckets| then d.ht0 else d.ht1
  }

  lemma NestedHalves(a: bv64, b: bv64)
    requires Low(a) && Low(b) && a != 0 && b != 0 && (a >> 1) & (b >> 1) == a >> 1
    ensures a & b == a
  {
  }

  lemma LowHalf(a: bv64)
    requires Low(a) && a != 0
    ensures Low(a >> 1) && a & 1 != 0
  {
  }

  /** Low masks are nested by size. */
  lemma {:induction false} MasksBySize(a: bv64, b: bv64)
    requires Low(a) && Low(b) && Index(a) <= Index(b)
    ensures a & b == a
    decreases Index(a)
  {
    hide Low;
    if a == 0 {
    } else {
      IndexPositive(a);
      IndexUnfold(a);
      IndexUnfold(b);
      LowHalf(a);
      if b != 0 {
        LowHalf(b);
        MasksBySize(a >> 1, b >> 1);
        NestedHalves(a, b);
      }
    }
  }

  lemma TableMasks<K(!new), V>(d: Dict<K, V>, h: K -> bv64)
    requires DictOK(d, h) && IsRehashing(d)
    ensures Masks(Smaller(d).mask, Larger(d).mask)
    ensures |Smaller(d).buckets| == Index(Smaller(d).mask) + 1 && |Larger(d).buckets| == Index(Larger(d).mask) + 1
    ensures TableOK(Smaller(d), h) && TableOK(Larger(d), h)
  {
    hide Low;
    hide Index;
    hide Placed;
    MasksBySize(Smaller(d).mask, Larger(d).mask);
    MasksFrom(Smaller(d).mask, Larger(d).mask);
  }

  lemma MasksFrom(m0: bv64, m1: bv64)
    requires Low(m0) && Low(m1) && m0 & m1 == m0
    ensures Masks(m0, m1)
  {
  }

  /** Entries the inner loop emits from the larger table, and the word it leaves (dict.c:908-922). */
  ghost function ExpandEmit<K, V>(t: Table<K, V>, v: bv64, m0: bv64): (seq<Entry<K, V>>, bv64)
    requires Masks(m0, t.mask) && |t.buckets| == Index(t.mask) + 1
    decreases Index(t.mask) - Bucket(v, t.mask)
  {
    TurnRises(v, m0, t.mask);
    hide *;
    var c := t.buckets[Bucket(v, t.mask)];
    var w := ExpandNext(v, m0);
    if Stops(w, m0, t.mask) then (c, w)
    else
      var r := ExpandEmit(t, w, m0);
      (c + r.0, r.1)
  }

  /** `dictScan`: the entries passed to the callback, in order, and the cursor returned. */
  ghost function Scan<K(!new), V>(d: Dict<K, V>, v: bv64, h: K -> bv64): (seq<Entry<K, V>>, bv64)
    requires DictOK(d, h)
  {
    if d.ht0.used + d.ht1.used == 0 then ([], 0)
    else if !IsRehashing(d) then
      (if d.ht0.buckets == [] then [] else d.ht0.buckets[Bucket(v, d.ht0.mask)], NextCursor(v, d.ht0.mask))
    else
      TableMasks(d, h);
      var r := ExpandEmit(Larger(d), v, Smaller(d).mask);
      (Smaller(d).buckets[Bucket(v, Smaller(d).mask)] + r.0, NextCursor(r.1, Smaller(d).mask))
  }

  /** The mask the cursor is advanced with. */
  ghost function ScanMask<K, V>(d: Dict<K, V>): bv64 {
    if IsRehashing(d) then Smaller(d).mask else d.ht0.mask
  }

  /** What a caller can check before a call for it to cover all its cursor claims. */
  ghost predicate CallCovers<K, V>(d: Dict<K, V>, v: bv64) {
    IsRehashing(d) ==> GapFree(v, Smaller(d).mask, Larger(d).mask)
  }

  ghost predicate Emitted<K, V>(es: seq<Entry<K, V>>, k: K) {
    exists i :: 0 <= i < |es| && es[i].key == k
  }

  // ---- The inner loop ----

  lemma KeepsLowBits(v: bv64, m0: bv64)
    ensures SameBucket(ExpandNext(v, m0), v, m0)
  {
  }

  lemma SameBucketTransitive(a: bv64, b: bv64, c: bv64, m: bv64)
    requires SameBucket(a, b, m) && SameBucket(b, c, m)
    ensures SameBucket(a, c, m)
  {
  }

  lemma OpenedByBucket(v: bv64, w: bv64, m: bv64)
    requires v & m == w & m
    ensures v | !m == w | !m
  {
  }

  lemma NextCursorByBucket(v: bv64, w: bv64, m: bv64)
    requires SameBucket(v, w, m)
    ensures NextCursor(v, m) == NextCursor(w, m)
  {
    hide Rev;
    OpenedByBucket(v, w, m);
  }

  lemma ExpandUnfold<K, V>(t: Table<K, V>, v: bv64, m0: bv64)
    requires Masks(m0, t.mask) && |t.buckets| == Index(t.mask) + 1
    ensures var w := ExpandNext(v, m0);
            var c := t.buckets[Bucket(v, t.mask)];
            ExpandEmit(t, v, m0) ==
            if Stops(w, m0, t.mask) then (c, w) else (c + ExpandEmit(t, w, m0).0, ExpandEmit(t, w, m0).1)
    ensures !Stops(ExpandNext(v, m0), m0, t.mask) ==> Bucket(v, t.mask) < Bucket(ExpandNext(v, m0), t.mask) <= Index(t.mask)
  {
    TurnRises(v, m0, t.mask);
    hide Masks;
    hide Index;
    hide Bucket;
    hide Stops;
    hide ExpandNext;
  }

  /** The word the loop leaves still selects the same bucket of the smaller table. */
  lemma {:induction false} ExpandKeepsBucket<K, V>(t: Table<K, V>, v: bv64, m0: bv64)
    requires Masks(m0, t.mask) && |t.buckets| == Index(t.mask) + 1
    ensures SameBucket(ExpandEmit(t, v, m0).1, v, m0)
    decreases Index(t.mask) - Bucket(v, t.mask)
  {
    hide *;
    ExpandUnfold(t, v, m0);
    KeepsLowBits(v, m0);
    if !Stops(ExpandNext(v, m0), m0, t.mask) {
      ExpandKeepsBucket(t, ExpandNext(v, m0), m0);
      SameBucketTransitive(ExpandEmit(t, ExpandNext(v, m0), m0).1, ExpandNext(v, m0), v, m0);
    }
  }

  lemma VisitsUnfold(b: nat, v: bv64, m0: bv64, m1: bv64)
    requires Masks(m0, m1)
    ensures Visits(b, v, m0, m1) <==>
            b == Bucket(v, m1) || (!Stops(ExpandNext(v, m0), m0, m1) && Visits(b, ExpandNext(v, m0), m0, m1))
  {
    hide Masks;
    hide Index;
    hide Bucket;
    hide Stops;
    hide ExpandNext;
  }

  /** The loop emits the buckets it visits, all of each. */
  lemma {:induction false} VisitedIsEmitted<K, V>(t: Table<K, V>, v: bv64, m0: bv64, b: nat, k: K)
    requires Masks(m0, t.mask) && |t.buckets| == Index(t.mask) + 1 && b < |t.buckets|
    requires Visits(b, v, m0, t.mask) && Emitted(t.buckets[b], k)
    ensures Emitted(ExpandEmit(t, v, m0).0, k)
    decreases Index(t.mask) - Bucket(v, t.mask)
  {
    hide *;
    ExpandUnfold(t, v, m0);
    VisitsUnfold(b, v, m0, t.mask);
    var w := ExpandNext(v, m0);
    if b == Bucket(v, t.mask) {
      if !Stops(w, m0, t.mask) {
        EmittedInSum(t.buckets[b], ExpandEmit(t, w, m0).0, k);
      }
    } else {
      VisitedIsEmitted(t, w, m0, b, k);
      EmittedInSum(t.buckets[Bucket(v, t.mask)], ExpandEmit(t, w, m0).0, k);
    }
  }

  lemma EmittedInSum<K, V>(a: seq<Entry<K, V>>, b: seq<Entry<K, V>>, k: K)
    ensures Emitted(a + b, k) <==> Emitted(a, k) || Emitted(b, k)
  {
    if i :| 0 <= i < |a| && a[i].key == k {
      assert (a + b)[i].key == k;
    }
    if i :| 0 <= i < |b| && b[i].key == k {
      assert (a + b)[|a| + i].key == k;
    }
    if i :| 0 <= i < |a + b| && (a + b)[i].key == k {
      assert i < |a| ==> a[i].key == k;
      assert i >= |a| ==> b[i - |a|].key == k;
    }
  }

  /** And nothing else: an emitted key is in the table, in a visited bucket. */
  lemma {:induction false} EmittedIsVisited<K(!new), V>(t: Table<K, V>, v: bv64, m0: bv64, k: K, h: K -> bv64)
    requires Masks(m0, t.mask) && TableOK(t, h) && |t.buckets| == Index(t.mask) + 1 && Sized(t)
    requires Emitted(ExpandEmit(t, v, m0).0, k)
    ensures Visits(Bucket(h(k), t.mask), v, m0, t.mask) && FindIn(t, k, h).Some?
    decreases Index(t.mask) - Bucket(v, t.mask)
  {
    hide *;
    ExpandUnfold(t, v, m0);
    VisitsUnfold(Bucket(h(k), t.mask), v, m0, t.mask);
    BucketBound(v, t.mask);
    var w := ExpandNext(v, m0);
    var c := t.buckets[Bucket(v, t.mask)];
    if !Stops(w, m0, t.mask) {
      EmittedInSum(c, ExpandEmit(t, w, m0).0, k);
    }
    EmittedInBucket(t, Bucket(v, t.mask), k, h);
    if !Emitted(c, k) {
      EmittedIsVisited(t, w, m0, k, h);
    }
  }

  /** A bucket holds the present keys that belong to it. */
  lemma EmittedInBucket<K(!new), V>(t: Table<K, V>, b: nat, k: K, h: K -> bv64)
    requires TableOK(t, h) && Sized(t) && b < |t.buckets|
    ensures Emitted(t.buckets[b], k) <==> Bucket(h(k), t.mask) == b && FindIn(t, k, h).Some?
  {
    hide Bucket;
    if Emitted(t.buckets[b], k) {
      var i :| 0 <= i < |t.buckets[b]| && t.buckets[b][i].key == k;
    }
    if Bucket(h(k), t.mask) == b && FindIn(t, k, h).Some? {
      FoundIsEmitted(t, k, h);
    }
  }

  lemma FoundIsEmitted<K(!new), V>(t: Table<K, V>, k: K, h: K -> bv64)
    requires Sized(t) && FindIn(t, k, h).Some?
    ensures t.buckets != [] && Emitted(t.buckets[Bucket(h(k), t.mask)], k)
  {
    hide Bucket;
    var c := ChainOf(t, k, h);
    assert exists i :: 0 <= i < |c| && c[i].key == k;
  }

  // ---- One call covers what its cursor claims ----

  lemma CoveredFirst<K(!new), V>(d: Dict<K, V>, v: bv64, k: K, h: K -> bv64)
    requires DictOK(d, h) && !IsRehashing(d) && Lookup(d, k, h).Some?
    requires SameBucket(h(k), v, d.ht0.mask)
    ensures Emitted(Scan(d, v, h).0, k)
  {
    assert FindIn(d.ht0, k, h).Some? by { ResetFindsNothing<K, V>(k, h); }
    hide Bucket;
    hide Index;
    hide Low;
    FoundIsEmitted(d.ht0, k, h);
    UsedIfFound(d.ht0, k, h);
    SameBucketNumber(h(k), v, d.ht0.mask);
  }

  lemma ResetFindsNothing<K(!new), V>(k: K, h: K -> bv64)
    ensures FindIn<K, V>(Reset(), k, h).None?
  {
  }

  lemma UsedIfFound<K(!new), V>(t: Table<K, V>, k: K, h: K -> bv64)
    requires TableOK(t, h) && FindIn(t, k, h).Some?
    ensures t.used > 0
  {
    hide Bucket;
    TotalAtLeast(t.buckets, Bucket(h(k), t.mask));
  }

  lemma ScanUnfold<K(!new), V>(d: Dict<K, V>, v: bv64, h: K -> bv64)
    requires DictOK(d, h) && IsRehashing(d) && d.ht0.used + d.ht1.used > 0
    ensures Masks(Smaller(d).mask, Larger(d).mask)
    ensures |Smaller(d).buckets| == Index(Smaller(d).mask) + 1 && |Larger(d).buckets| == Index(Larger(d).mask) + 1
    ensures TableOK(Smaller(d), h) && TableOK(Larger(d), h)
    ensures Scan(d, v, h).0 ==
            Smaller(d).buckets[Bucket(v, Smaller(d).mask)] + ExpandEmit(Larger(d), v, Smaller(d).mask).0
    ensures Scan(d, v, h).1 == NextCursor(v, Smaller(d).mask)
  {
    TableMasks(d, h);
    ExpandKeepsBucket(Larger(d), v, Smaller(d).mask);
    NextCursorByBucket(ExpandEmit(Larger(d), v, Smaller(d).mask).1, v, Smaller(d).mask);
    hide NextCursor;
    hide Masks;
    hide Bucket;
    hide Index;
    hide ExpandEmit;
  }

  lemma InOneTable<K(!new), V>(d: Dict<K, V>, k: K, h: K -> bv64)
    requires DictOK(d, h) && Lookup(d, k, h).Some?
    ensures Sized(Smaller(d)) && Sized(Larger(d))
    ensures FindIn(Smaller(d), k, h).Some? || FindIn(Larger(d), k, h).Some?
    ensures d.ht0.used + d.ht1.used > 0
  {
    if FindIn(d.ht0, k, h).Some? {
      UsedIfFound(d.ht0, k, h);
    } else {
      UsedIfFound(d.ht1, k, h);
    }
    hide FindIn;
  }

  lemma CoveredBoth<K(!new), V>(d: Dict<K, V>, v: bv64, k: K, h: K -> bv64)
    requires DictOK(d, h) && IsRehashing(d) && Lookup(d, k, h).Some? && CallCovers(d, v)
    requires SameBucket(h(k), v, Smaller(d).mask)
    ensures Emitted(Scan(d, v, h).0, k) || Before(h(k), v)
  {
    hide *;
    InOneTable(d, k, h);
    ScanUnfold(d, v, h);
    var s, l := Smaller(d), Larger(d);
    EmittedInSum(s.buckets[Bucket(v, s.mask)], ExpandEmit(l, v, s.mask).0, k);
    BucketBound(v, s.mask);
    BucketBound(h(k), l.mask);
    if FindIn(s, k, h).Some? {
      FoundIsEmitted(s, k, h);
      SameBucketNumber(h(k), v, s.mask);
    } else {
      FoundIsEmitted(l, k, h);
      CallCoversIs(d, v);
      CoversExactly(v, s.mask, l.mask);
      if Visits(Bucket(h(k), l.mask), v, s.mask, l.mask) {
        VisitedIsEmitted(l, v, s.mask, Bucket(h(k), l.mask), k);
      } else {
        CoversBucketIs(h(k), v, s.mask, l.mask);
      }
    }
  }

  /** The call reaches the key: it is in the bucket of the cursor, or, in the larger of two tables, in a
      bucket that the inner loop visits. */
  ghost predicate Reaches<K, V>(d: Dict<K, V>, v: bv64, k: K, h: K -> bv64)
    requires Sized(d.ht0) && Sized(d.ht1)
  {
    if !IsRehashing(d) then Bucket(h(k), d.ht0.mask) == Bucket(v, d.ht0.mask) && FindIn(d.ht0, k, h).Some?
    else
      var s, l := Smaller(d), Larger(d);
      || (Bucket(h(k), s.mask) == Bucket(v, s.mask) && FindIn(s, k, h).Some?)
      || (Masks(s.mask, l.mask) && Visits(Bucket(h(k), l.mask), v, s.mask, l.mask) && FindIn(l, k, h).Some?)
  }

  lemma EmitsFirst<K(!new), V>(d: Dict<K, V>, v: bv64, k: K, h: K -> bv64)
    requires DictOK(d, h) && Sized(d.ht0) && Sized(d.ht1) && !IsRehashing(d)
    ensures Emitted(Scan(d, v, h).0, k) <==> Reaches(d, v, k, h)
  {
    if d.ht0.used + d.ht1.used > 0 {
      NotReset(d, h);
      BucketBound(v, d.ht0.mask);
      EmittedInBucket(d.ht0, Bucket(v, d.ht0.mask), k, h);
    } else if FindIn(d.ht0, k, h).Some? {
      UsedIfFound(d.ht0, k, h);
    }
    hide Bucket;
    hide Index;
    hide TableOK;
    hide FindIn;
  }

  lemma NotReset<K(!new), V>(d: Dict<K, V>, h: K -> bv64)
    requires DictOK(d, h) && !IsRehashing(d) && d.ht0.used + d.ht1.used > 0
    ensures d.ht0.buckets != [] && |d.ht0.buckets| == Index(d.ht0.mask) + 1
  {
    hide Index;
    hide Bucket;
  }

  lemma EmitsBoth<K(!new), V>(d: Dict<K, V>, v: bv64, k: K, h: K -> bv64)
    requires DictOK(d, h) && Sized(d.ht0) && Sized(d.ht1) && IsRehashing(d) && d.ht0.used + d.ht1.used > 0
    ensures Emitted(Scan(d, v, h).0, k) <==> Reaches(d, v, k, h)
  {
    ReachesBoth(d, v, k, h);
    hide *;
    ScanUnfold(d, v, h);
    var s, l := Smaller(d), Larger(d);
    EmittedInSum(s.buckets[Bucket(v, s.mask)], ExpandEmit(l, v, s.mask).0, k);
    BucketBound(v, s.mask);
    BucketBound(h(k), l.mask);
    EmittedInBucket(s, Bucket(v, s.mask), k, h);
    if Emitted(ExpandEmit(l, v, s.mask).0, k) {
      EmittedIsVisited(l, v, s.mask, k, h);
    } else if Visits(Bucket(h(k), l.mask), v, s.mask, l.mask) && FindIn(l, k, h).Some? {
      EmittedInBucket(l, Bucket(h(k), l.mask), k, h);
      VisitedIsEmitted(l, v, s.mask, Bucket(h(k), l.mask), k);
    }
  }

  lemma ReachesBoth<K(!new), V>(d: Dict<K, V>, v: bv64, k: K, h: K -> bv64)
    requires Sized(d.ht0) && Sized(d.ht1) && IsRehashing(d)
    ensures var s, l := Smaller(d), Larger(d);
      && Sized(s) && Sized(l)
      && (Reaches(d, v, k, h) <==>
            || (Bucket(h(k), s.mask) == Bucket(v, s.mask) && FindIn(s, k, h).Some?)
            || (Masks(s.mask, l.mask) && Visits(Bucket(h(k), l.mask), v, s.mask, l.mask) && FindIn(l, k, h).Some?))
  {
    hide Bucket;
    hide FindIn;
    hide Masks;
    hide Visits;
    hide Sized;
  }

  /** A call emits exactly the present keys it reaches; so an emitted key is one the dictionary holds. */
  lemma EmitsExactly<K(!new), V>(d: Dict<K, V>, v: bv64, k: K, h: K -> bv64)
    requires DictOK(d, h)
    ensures Sized(d.ht0) && Sized(d.ht1)
    ensures Emitted(Scan(d, v, h).0, k) <==> Reaches(d, v, k, h)
    ensures Emitted(Scan(d, v, h).0, k) ==> Lookup(d, k, h).Some?
  {
    TableOKSized(d.ht0, h);
    TableOKSized(d.ht1, h);
    if !IsRehashing(d) {
      EmitsFirst(d, v, k, h);
    } else if d.ht0.used + d.ht1.used > 0 {
      EmitsBoth(d, v, k, h);
    } else {
      EmptyReachesNothing(d, v, k, h);
    }
    ReachedIsHeld(d, v, k, h);
    hide DictOK;
    hide Reaches;
    hide Lookup;
  }

  // ---- No entry twice, each with its value ----

  lemma DistinctSum<K, V>(a: seq<Entry<K, V>>, b: seq<Entry<K, V>>)
    requires Distinct(a) && Distinct(b) && forall i :: 0 <= i < |b| ==> !Emitted(a, b[i].key)
    ensures Distinct(a + b)
  {
    forall i, j | 0 <= i < j < |a + b| ensures (a + b)[i].key != (a + b)[j].key {
      if i < |a| <= j {
        assert (a + b)[j] == b[j - |a|] && !Emitted(a, b[j - |a|].key);
      }
    }
  }

  /** The entries are the table's own: each key has the value the table holds under it. */
  ghost predicate Own<K(!new), V>(es: seq<Entry<K, V>>, t: Table<K, V>, h: K -> bv64)
    requires Sized(t)
  {
    forall i :: 0 <= i < |es| ==> FindIn(t, es[i].key, h) == Some(es[i].val)
  }

  lemma BucketOwn<K(!new), V>(t: Table<K, V>, b: nat, h: K -> bv64)
    requires TableOK(t, h) && Sized(t) && b < |t.buckets|
    ensures Own(t.buckets[b], t, h) && Distinct(t.buckets[b])
  {
    hide Bucket;
    hide FindIn;
    forall i | 0 <= i < |t.buckets[b]| ensures FindIn(t, t.buckets[b][i].key, h) == Some(t.buckets[b][i].val) {
      ChainInTable(t, b, i, h);
    }
  }

  lemma OwnSum<K(!new), V>(a: seq<Entry<K, V>>, b: seq<Entry<K, V>>, t: Table<K, V>, h: K -> bv64)
    requires Sized(t) && Own(a, t, h) && Own(b, t, h)
    ensures Own(a + b, t, h)
  {
    hide FindIn;
  }

  lemma EmittedAt<K, V>(es: seq<Entry<K, V>>, i: nat)
    requires i < |es|
    ensures Emitted(es, es[i].key)
  {
  }

  /** The buckets after the first lie above it, so they share no key with it. */
  lemma RestIsAbove<K(!new), V>(t: Table<K, V>, v: bv64, m0: bv64, k: K, h: K -> bv64)
    requires Masks(m0, t.mask) && TableOK(t, h) && |t.buckets| == Index(t.mask) + 1 && Sized(t)
    requires var w := ExpandNext(v, m0); !Stops(w, m0, t.mask) && Emitted(ExpandEmit(t, w, m0).0, k)
    ensures Bucket(v, t.mask) < |t.buckets| && !Emitted(t.buckets[Bucket(v, t.mask)], k)
  {
    hide *;
    var w := ExpandNext(v, m0);
    TurnRises(v, m0, t.mask);
    BucketBound(v, t.mask);
    BucketBound(h(k), t.mask);
    EmittedIsVisited(t, w, m0, k, h);
    VisitsExactly(Bucket(h(k), t.mask), w, m0, t.mask);
    EmittedInBucket(t, Bucket(v, t.mask), k, h);
  }

  lemma {:induction false} ExpandOnce<K(!new), V>(t: Table<K, V>, v: bv64, m0: bv64, h: K -> bv64)
    requires Masks(m0, t.mask) && TableOK(t, h) && |t.buckets| == Index(t.mask) + 1 && Sized(t)
    ensures Distinct(ExpandEmit(t, v, m0).0) && Own(ExpandEmit(t, v, m0).0, t, h)
    decreases Index(t.mask) - Bucket(v, t.mask)
  {
    hide *;
    ExpandUnfold(t, v, m0);
    TurnRises(v, m0, t.mask);
    BucketBound(v, t.mask);
    BucketOwn(t, Bucket(v, t.mask), h);
    var w := ExpandNext(v, m0);
    var c := t.buckets[Bucket(v, t.mask)];
    if !Stops(w, m0, t.mask) {
      ExpandOnce(t, w, m0, h);
      var r := ExpandEmit(t, w, m0).0;
      forall i | 0 <= i < |r| ensures !Emitted(c, r[i].key) {
        EmittedAt(r, i);
        RestIsAbove(t, v, m0, r[i].key, h);
      }
      DistinctSum(c, r);
      OwnSum(c, r, t, h);
    }
  }

  /** A call emits no key twice, and every key with the value the dictionary holds under it. */
  lemma EmitsOnce<K(!new), V>(d: Dict<K, V>, v: bv64, h: K -> bv64)
    requires DictOK(d, h)
    ensures Sized(d.ht0) && Sized(d.ht1) && Distinct(Scan(d, v, h).0)
    ensures forall e :: e in Scan(d, v, h).0 ==> Lookup(d, e.key, h) == Some(e.val)
  {
    TableOKSized(d.ht0, h);
    TableOKSized(d.ht1, h);
    if d.ht0.used + d.ht1.used > 0 && !IsRehashing(d) {
      NotReset(d, h);
      BucketBound(v, d.ht0.mask);
      BucketOwn(d.ht0, Bucket(v, d.ht0.mask), h);
      hide Bucket;
      hide TableOK;
      hide FindIn;
    } else if d.ht0.used + d.ht1.used > 0 {
      OnceBoth(d, v, h);
      hide Scan;
      hide Lookup;
    }
  }

  lemma InTables<K(!new), V>(d: Dict<K, V>, k: K, x: V, h: K -> bv64)
    requires DictOK(d, h) && IsRehashing(d) && Sized(Smaller(d)) && Sized(Larger(d)) && Sized(d.ht0) && Sized(d.ht1)
    ensures FindIn(Smaller(d), k, h) == Some(x) ==> FindIn(Larger(d), k, h).None? && Lookup(d, k, h) == Some(x)
    ensures FindIn(Larger(d), k, h) == Some(x) ==> Lookup(d, k, h) == Some(x)
  {
    hide FindIn;
    hide TableOK;
  }

  lemma OnceBoth<K(!new), V>(d: Dict<K, V>, v: bv64, h: K -> bv64)
    requires DictOK(d, h) && Sized(d.ht0) && Sized(d.ht1) && IsRehashing(d) && d.ht0.used + d.ht1.used > 0
    ensures Distinct(Scan(d, v, h).0)
    ensures forall i :: 0 <= i < |Scan(d, v, h).0| ==>
              var e := Scan(d, v, h).0[i]; Lookup(d, e.key, h) == Some(e.val)
  {
    hide *;
    ScanUnfold(d, v, h);
    var s, l := Smaller(d), Larger(d);
    TableOKSized(s, h);
    TableOKSized(l, h);
    BucketBound(v, s.mask);
    var c, r := s.buckets[Bucket(v, s.mask)], ExpandEmit(l, v, s.mask).0;
    BucketOwn(s, Bucket(v, s.mask), h);
    ExpandOnce(l, v, s.mask, h);
    forall i | 0 <= i < |r| ensures !Emitted(c, r[i].key) && Lookup(d, r[i].key, h) == Some(r[i].val) {
      OwnAt(r, l, h, i);
      InTables(d, r[i].key, r[i].val, h);
      EmittedInBucket(s, Bucket(v, s.mask), r[i].key, h);
      NoneTwice(d, r[i].key, h);
    }
    forall i | 0 <= i < |c| ensures Lookup(d, c[i].key, h) == Some(c[i].val) {
      OwnAt(c, s, h, i);
      InTables(d, c[i].key, c[i].val, h);
    }
    DistinctSum(c, r);
  }

  // ---- The order of the callback ----

  /** The keys are in buckets of ever higher number. */
  ghost predicate Ascends<K(!new), V>(es: seq<Entry<K, V>>, mask: bv64, h: K -> bv64) {
    forall i, j :: 0 <= i < j < |es| ==> Bucket(h(es[i].key), mask) <= Bucket(h(es[j].key), mask)
  }

  lemma AscendSum<K(!new), V>(a: seq<Entry<K, V>>, b: seq<Entry<K, V>>, mask: bv64, n: nat, h: K -> bv64)
    requires Ascends(b, mask, h)
    requires forall i :: 0 <= i < |a| ==> Bucket(h(a[i].key), mask) == n
    requires forall i :: 0 <= i < |b| ==> Bucket(h(b[i].key), mask) >= n
    ensures Ascends(a + b, mask, h)
  {
    hide Bucket;
  }

  lemma BucketKeys<K(!new), V>(t: Table<K, V>, b: nat, h: K -> bv64)
    requires TableOK(t, h) && b < |t.buckets|
    ensures forall i :: 0 <= i < |t.buckets[b]| ==> Bucket(h(t.buckets[b][i].key), t.mask) == b
    ensures Ascends(t.buckets[b], t.mask, h)
  {
    hide Bucket;
  }

  lemma {:induction false} ExpandAscends<K(!new), V>(t: Table<K, V>, v: bv64, m0: bv64, h: K -> bv64)
    requires Masks(m0, t.mask) && TableOK(t, h) && |t.buckets| == Index(t.mask) + 1 && Sized(t)
    ensures Ascends(ExpandEmit(t, v, m0).0, t.mask, h)
    decreases Index(t.mask) - Bucket(v, t.mask)
  {
    hide *;
    ExpandUnfold(t, v, m0);
    TurnRises(v, m0, t.mask);
    BucketBound(v, t.mask);
    BucketKeys(t, Bucket(v, t.mask), h);
    var w := ExpandNext(v, m0);
    if !Stops(w, m0, t.mask) {
      ExpandAscends(t, w, m0, h);
      var r := ExpandEmit(t, w, m0).0;
      forall i | 0 <= i < |r| ensures Bucket(h(r[i].key), t.mask) >= Bucket(v, t.mask) {
        EmittedAt(r, i);
        EmittedIsVisited(t, w, m0, r[i].key, h);
        BucketBound(h(r[i].key), t.mask);
        VisitsExactly(Bucket(h(r[i].key), t.mask), w, m0, t.mask);
      }
      AscendSum(t.buckets[Bucket(v, t.mask)], r, t.mask, Bucket(v, t.mask), h);
    }
  }

  /** During a rehash the callback gets the entries of the smaller table first, then those of the larger
      one, bucket by bucket upwards: the first `n` are those of the smaller. */
  lemma SmallerFirst<K(!new), V>(d: Dict<K, V>, v: bv64, h: K -> bv64) returns (n: nat)
    requires DictOK(d, h) && IsRehashing(d)
    ensures Sized(Smaller(d)) && Sized(Larger(d)) && n <= |Scan(d, v, h).0|
    ensures forall i :: 0 <= i < n ==> FindIn(Smaller(d), Scan(d, v, h).0[i].key, h).Some?
    ensures forall i :: n <= i < |Scan(d, v, h).0| ==> FindIn(Larger(d), Scan(d, v, h).0[i].key, h).Some?
    ensures Ascends(Scan(d, v, h).0[n..], Larger(d).mask, h)
  {
    hide *;
    BothSized(d, h);
    if d.ht0.used + d.ht1.used == 0 {
      EmptyScans(d, v, h);
      return 0;
    }
    n := FirstBoth(d, v, h);
  }

  lemma EmptyScans<K(!new), V>(d: Dict<K, V>, v: bv64, h: K -> bv64)
    requires DictOK(d, h) && d.ht0.used + d.ht1.used == 0
    ensures Scan(d, v, h).0 == [] && Ascends(Scan(d, v, h).0[0..], Larger(d).mask, h)
  {
    hide DictOK;
    hide Bucket;
  }

  lemma FirstBoth<K(!new), V>(d: Dict<K, V>, v: bv64, h: K -> bv64) returns (n: nat)
    requires DictOK(d, h) && IsRehashing(d) && d.ht0.used + d.ht1.used > 0 && Sized(Smaller(d)) && Sized(Larger(d))
    ensures n <= |Scan(d, v, h).0|
    ensures forall i :: 0 <= i < n ==> FindIn(Smaller(d), Scan(d, v, h).0[i].key, h).Some?
    ensures forall i :: n <= i < |Scan(d, v, h).0| ==> FindIn(Larger(d), Scan(d, v, h).0[i].key, h).Some?
    ensures Ascends(Scan(d, v, h).0[n..], Larger(d).mask, h)
  {
    hide *;
    ScanUnfold(d, v, h);
    var s, l := Smaller(d), Larger(d);
    BucketBound(v, s.mask);
    var c, r := s.buckets[Bucket(v, s.mask)], ExpandEmit(l, v, s.mask).0;
    n := |c|;
    BucketOwn(s, Bucket(v, s.mask), h);
    ExpandOnce(l, v, s.mask, h);
    ExpandAscends(l, v, s.mask, h);
    forall i | 0 <= i < |c| ensures FindIn(s, c[i].key, h).Some? {
      OwnAt(c, s, h, i);
    }
    forall i | 0 <= i < |r| ensures FindIn(l, r[i].key, h).Some? {
      OwnAt(r, l, h, i);
    }
    assert (c + r)[n..] == r;
  }

  lemma BothSized<K(!new), V>(d: Dict<K, V>, h: K -> bv64)
    requires DictOK(d, h)
    ensures Sized(Smaller(d)) && Sized(Larger(d))
  {
    TableOKSized(d.ht0, h);
    TableOKSized(d.ht1, h);
    hide TableOK;
    hide Sized;
  }

  lemma OwnAt<K(!new), V>(es: seq<Entry<K, V>>, t: Table<K, V>, h: K -> bv64, i: nat)
    requires Sized(t) && Own(es, t, h) && i < |es|
    ensures FindIn(t, es[i].key, h) == Some(es[i].val)
  {
    hide FindIn;
  }

  lemma NoneTwice<K(!new), V>(d: Dict<K, V>, k: K, h: K -> bv64)
    requires DictOK(d, h) && IsRehashing(d) && Sized(Smaller(d)) && Sized(Larger(d))
    ensures FindIn(Smaller(d), k, h).None? || FindIn(Larger(d), k, h).None?
  {
    hide FindIn;
    hide TableOK;
  }

  lemma EmptyReachesNothing<K(!new), V>(d: Dict<K, V>, v: bv64, k: K, h: K -> bv64)
    requires DictOK(d, h) && Sized(d.ht0) && Sized(d.ht1) && IsRehashing(d) && d.ht0.used + d.ht1.used == 0
    ensures !Reaches(d, v, k, h) && !Emitted(Scan(d, v, h).0, k)
  {
    if FindIn(d.ht0, k, h).Some? {
      UsedIfFound(d.ht0, k, h);
    }
    if FindIn(d.ht1, k, h).Some? {
      UsedIfFound(d.ht1, k, h);
    }
    hide FindIn;
    hide Bucket;
    hide Masks;
    hide Visits;
    hide TableOK;
  }

  lemma ReachedIsHeld<K, V>(d: Dict<K, V>, v: bv64, k: K, h: K -> bv64)
    requires Sized(d.ht0) && Sized(d.ht1)
    ensures Reaches(d, v, k, h) ==> Lookup(d, k, h).Some?
  {
    hide FindIn;
    hide Bucket;
    hide Masks;
    hide Visits;
    hide Sized;
  }

  lemma CallCoversIs<K(!new), V>(d: Dict<K, V>, v: bv64)
    requires CallCovers(d, v) && IsRehashing(d)
    ensures GapFree(v, Smaller(d).mask, Larger(d).mask)
  {
  }

  lemma CoversBucketIs(h: bv64, v: bv64, m0: bv64, m1: bv64)
    requires Masks(m0, m1) && CoversBucket(v, m0, m1) && SameBucket(h, v, m0)
    ensures Before(h, v) || Visits(Bucket(h, m1), v, m0, m1)
  {
    hide Masks;
    hide Before;
    hide Visits;
    hide SameBucket;
    hide Bucket;
  }

  /** A present key that the new cursor counts as done was done before, or is emitted by this call. */
  lemma CallCoversKey<K(!new), V>(d: Dict<K, V>, v: bv64, k: K, h: K -> bv64)
    requires DictOK(d, h) && Lookup(d, k, h).Some? && CallCovers(d, v)
    requires Scan(d, v, h).1 == 0 || Before(h(k), Scan(d, v, h).1)
    ensures Before(h(k), v) || Emitted(Scan(d, v, h).0, k)
  {
    hide *;
    InOneTable(d, k, h);
    ScanAdvances(d, v, h);
    NextCursorCovers(h(k), v, ScanMask(d));
    if SameBucket(h(k), v, ScanMask(d)) {
      ScanMaskIs(d);
      if IsRehashing(d) {
        CoveredBoth(d, v, k, h);
      } else {
        CoveredFirst(d, v, k, h);
      }
    }
  }

  lemma ScanMaskIs<K(!new), V>(d: Dict<K, V>)
    ensures ScanMask(d) == if IsRehashing(d) then Smaller(d).mask else d.ht0.mask
  {
  }

  /** The cursor returned by a call on a non-empty dictionary. */
  lemma ScanAdvances<K(!new), V>(d: Dict<K, V>, v: bv64, h: K -> bv64)
    requires DictOK(d, h) && d.ht0.used + d.ht1.used > 0
    ensures Low(ScanMask(d)) && Scan(d, v, h).1 == NextCursor(v, ScanMask(d))
  {
    if IsRehashing(d) {
      ScanUnfold(d, v, h);
    }
    hide Index;
    hide NextCursor;
    hide Bucket;
    hide ExpandEmit;
  }

  // ---- A whole scan ----

  /** A scan from cursor 0: call `i` is made on dictionary `ds[i]` with cursor `vs[i]`, and the
      caller stops at the first cursor 0 returned. Between calls the dictionary is arbitrary. */
  ghost predicate Run<K(!new), V>(ds: seq<Dict<K, V>>, vs: seq<bv64>, h: K -> bv64) {
    && |ds| > 0 && |vs| == |ds| + 1
    && vs[0] == 0
    && (forall i :: 0 <= i < |ds| ==> DictOK(ds[i], h) && vs[i + 1] == Scan(ds[i], vs[i], h).1)
    && (forall i :: 0 < i < |ds| ==> vs[i] != 0)
  }

  ghost predicate Holds<K, V>(d: Dict<K, V>, k: K, h: K -> bv64) {
    Sized(d.ht0) && Sized(d.ht1) && Lookup(d, k, h).Some?
  }

  /** While a key has not been emitted, no cursor counts it as done. */
  lemma {:induction false} NotYetDone<K(!new), V>(ds: seq<Dict<K, V>>, vs: seq<bv64>, n: nat, k: K, h: K -> bv64)
    requires Run(ds, vs, h) && n <= |ds|
    requires forall i :: 0 <= i < n ==> Holds(ds[i], k, h)
    requires forall i :: 0 <= i < n ==> CallCovers(ds[i], vs[i])
    requires forall i :: 0 <= i < n ==> !Emitted(Scan(ds[i], vs[i], h).0, k)
    ensures !Before(h(k), vs[n]) && (n > 0 ==> vs[n] != 0)
  {
    hide DictOK;
    hide Scan;
    hide Before;
    hide CallCovers;
    hide Emitted;
    hide Lookup;
    if n == 0 {
      NothingBeforeZero(h(k));
    } else {
      NotYetDone(ds, vs, n - 1, k, h);
      if vs[n] == 0 || Before(h(k), vs[n]) {
        CallCoversKey(ds[n - 1], vs[n - 1], k, h);
      }
    }
  }

  /** Scan completeness: every key present throughout a complete scan is emitted at least once. */
  lemma ScanComplete<K(!new), V>(ds: seq<Dict<K, V>>, vs: seq<bv64>, k: K, h: K -> bv64)
    requires Run(ds, vs, h) && vs[|ds|] == 0
    requires forall i :: 0 <= i < |ds| ==> Holds(ds[i], k, h)
    requires forall i :: 0 <= i < |ds| ==> CallCovers(ds[i], vs[i])
    ensures exists i :: 0 <= i < |ds| && Emitted(Scan(ds[i], vs[i], h).0, k)
  {
    hide DictOK;
    hide Scan;
    hide CallCovers;
    hide Emitted;
    hide Lookup;
    if forall i :: 0 <= i < |ds| ==> !Emitted(Scan(ds[i], vs[i], h).0, k) {
      NotYetDone(ds, vs, |ds|, k, h);
    }
  }

  // ---- When the condition is automatic ----

  lemma CleanPrefix(v: bv64, m0: bv64, m1: bv64)
    requires v & !m0 == 0
    ensures Prefix(v, m0, m1) == m0
  {
  }

  /** A cursor within the smaller mask is gap-free. */
  lemma CleanIsGapFree(v: bv64, m0: bv64, m1: bv64)
    requires Low(m0) && Clean(v, m0)
    ensures GapFree(v, m0, m1)
  {
    hide Prefix;
    hide Low;
    CleanPrefix(v, m0, m1);
  }

  lemma OneExtraBit(v: bv64, m0: bv64)
    requires Low(m0)
    ensures v & (((m0 << 1) | 1) & !m0) == 0 || v & (((m0 << 1) | 1) & !m0) == ((m0 << 1) | 1) & !m0
  {
  }

  lemma OneExtraPrefix(v: bv64, m0: bv64)
    requires v & (((m0 << 1) | 1) & !m0) == ((m0 << 1) | 1) & !m0 && Low(m0)
    ensures Prefix(v, m0, (m0 << 1) | 1) == (m0 << 1) | 1
  {
  }

  lemma NoExtraPrefix(v: bv64, m0: bv64)
    requires v & (((m0 << 1) | 1) & !m0) == 0
    ensures Prefix(v, m0, (m0 << 1) | 1) == m0
  {
  }

  lemma DoubledLow(m0: bv64)
    requires Low(m0)
    ensures Low((m0 << 1) | 1)
  {
  }

  /** Tables that differ by exactly a factor of two always satisfy the condition. */
  lemma DoubleIsGapFree(v: bv64, m0: bv64)
    requires Low(m0)
    ensures GapFree(v, m0, (m0 << 1) | 1)
  {
    hide Low;
    hide Prefix;
    OneExtraBit(v, m0);
    DoubledLow(m0);
    if v & (((m0 << 1) | 1) & !m0) == 0 {
      NoExtraPrefix(v, m0);
    } else {
      OneExtraPrefix(v, m0);
    }
  }

  /** The table only grows: no call sees a smaller table than the call before. */
  ghost predicate OnlyGrows<K(!new), V>(ds: seq<Dict<K, V>>) {
    forall i :: 0 <= i < |ds| - 1 ==> Index(ScanMask(ds[i])) <= Index(ScanMask(ds[i + 1]))
  }

  /** The cursor has no bit above the mask. */
  predicate Clean(v: bv64, m: bv64) { v & !m == 0 }

  predicate Under(m: bv64, w: bv64) { m & w == m }

  lemma StaysClean(v: bv64, m: bv64, w: bv64)
    requires Clean(v, m) && Under(m, w)
    ensures Clean(v, w)
  {
  }

  lemma ZeroClean(m: bv64)
    ensures Clean(0, m)
  {
  }

  lemma AdvanceClean(v: bv64, m: bv64)
    requires Low(m)
    ensures Clean(NextCursor(v, m), m)
  {
    NextCursorWithin(v, m);
    hide NextCursor;
    hide Low;
  }

  lemma GrowsWithin(a: bv64, b: bv64)
    requires Low(a) && Low(b) && Index(a) <= Index(b)
    ensures Under(a, b)
  {
    MasksBySize(a, b);
    hide Low;
    hide Index;
  }

  lemma GrewTo<K(!new), V>(ds: seq<Dict<K, V>>, i: nat)
    requires OnlyGrows(ds) && 0 < i < |ds|
    ensures Index(ScanMask(ds[i - 1])) <= Index(ScanMask(ds[i]))
  {
    hide Index;
    hide ScanMask;
    assert ds[i - 1 + 1] == ds[i];
  }

  lemma RunOK<K(!new), V>(ds: seq<Dict<K, V>>, vs: seq<bv64>, i: nat, h: K -> bv64)
    requires Run(ds, vs, h) && i < |ds|
    ensures |vs| == |ds| + 1 && vs[0] == 0 && DictOK(ds[i], h)
  {
    hide DictOK;
    hide Scan;
  }

  /** Inside a run the dictionary was not empty at the call before, or the scan would have ended. */
  lemma RunStep<K(!new), V>(ds: seq<Dict<K, V>>, vs: seq<bv64>, i: nat, h: K -> bv64)
    requires Run(ds, vs, h) && 0 < i < |ds| && |vs| == |ds| + 1
    ensures vs[i] != 0 && DictOK(ds[i - 1], h) && vs[i] == Scan(ds[i - 1], vs[i - 1], h).1
    ensures ds[i - 1].ht0.used + ds[i - 1].ht1.used > 0
  {
    hide DictOK;
    hide Scan;
    assert vs[i - 1 + 1] == Scan(ds[i - 1], vs[i - 1], h).1;
    EmptyEnds(ds[i - 1], vs[i - 1], h);
  }

  lemma EmptyEnds<K(!new), V>(d: Dict<K, V>, v: bv64, h: K -> bv64)
    requires DictOK(d, h)
    ensures d.ht0.used + d.ht1.used == 0 ==> Scan(d, v, h).1 == 0
  {
    hide DictOK;
  }

  lemma CursorClean<K(!new), V>(ds: seq<Dict<K, V>>, vs: seq<bv64>, i: nat, h: K -> bv64)
    requires Run(ds, vs, h) && OnlyGrows(ds) && i < |ds| && |vs| == |ds| + 1
    requires ds[i].ht0.used + ds[i].ht1.used > 0
    ensures Low(ScanMask(ds[i])) && Clean(vs[i], ScanMask(ds[i]))
  {
    hide *;
    RunOK(ds, vs, i, h);
    ScanAdvances(ds[i], vs[i], h);
    if i == 0 {
      ZeroClean(ScanMask(ds[0]));
    } else {
      RunStep(ds, vs, i, h);
      ScanAdvances(ds[i - 1], vs[i - 1], h);
      AdvanceClean(vs[i - 1], ScanMask(ds[i - 1]));
      GrewTo(ds, i);
      GrowsWithin(ScanMask(ds[i - 1]), ScanMask(ds[i]));
      StaysClean(vs[i], ScanMask(ds[i - 1]), ScanMask(ds[i]));
    }
  }

  /** A table that only grows satisfies the condition at every call. */
  lemma GrowingCovers<K(!new), V>(ds: seq<Dict<K, V>>, vs: seq<bv64>, i: nat, h: K -> bv64)
    requires Run(ds, vs, h) && OnlyGrows(ds) && i < |ds|
    requires ds[i].ht0.used + ds[i].ht1.used > 0
    ensures CallCovers(ds[i], vs[i])
  {
    assert |vs| == |ds| + 1;
    hide *;
    CursorClean(ds, vs, i, h);
    ScanMaskIs(ds[i]);
    if IsRehashing(ds[i]) {
      CleanIsGapFree(vs[i], Smaller(ds[i]).mask, Larger(ds[i]).mask);
    }
    CallCoversFrom(ds[i], vs[i]);
  }

  lemma CallCoversFrom<K(!new), V>(d: Dict<K, V>, v: bv64)
    requires IsRehashing(d) ==> GapFree(v, Smaller(d).mask, Larger(d).mask)
    ensures CallCovers(d, v)
  {
  }

  /** So a scan of a table that only grows is complete without further conditions. */
  lemma GrowingScanComplete<K(!new), V>(ds: seq<Dict<K, V>>, vs: seq<bv64>, k: K, h: K -> bv64)
    requires Run(ds, vs, h) && vs[|ds|] == 0 && OnlyGrows(ds)
    requires forall i :: 0 <= i < |ds| ==> Holds(ds[i], k, h)
    ensures exists i :: 0 <= i < |ds| && Emitted(Scan(ds[i], vs[i], h).0, k)
  {
    hide Scan;
    hide CallCovers;
    hide Emitted;
    hide Lookup;
    hide DictOK;
    hide OnlyGrows;
    forall i | 0 <= i < |ds| ensures CallCovers(ds[i], vs[i]) {
      InOneTable(ds[i], k, h);
      GrowingCovers(ds, vs, i, h);
    }
    ScanComplete(ds, vs, k, h);
  }

  // ---- Termination ----

  lemma {:induction false} CursorClimbs<K(!new), V>(ds: seq<Dict<K, V>>, vs: seq<bv64>, i: nat, n: nat, h: K -> bv64)
    requires Run(ds, vs, h) && i < |ds|
    requires forall j :: 0 <= j < |ds| ==> Within(ScanMask(ds[j]), LowBits(n))
    ensures RevValue(vs[i], n) >= i
  {
    hide DictOK;
    hide Scan;
    hide ScanMask;
    hide Within;
    hide Low;
    hide RevValue;
    hide NextCursor;
    if i > 0 {
      CursorClimbs(ds, vs, i - 1, n, h);
      RunStep(ds, vs, i, h);
      ScanAdvances(ds[i - 1], vs[i - 1], h);
      NextCursorLarger(vs[i - 1], ScanMask(ds[i - 1]), n);
    }
  }

  /** Scan termination: over tables of at most 2^n buckets, no scan makes more than 2^n calls. */
  lemma ScanEnds<K(!new), V>(ds: seq<Dict<K, V>>, vs: seq<bv64>, n: nat, h: K -> bv64)
    requires Run(ds, vs, h)
    requires forall j :: 0 <= j < |ds| ==> Within(ScanMask(ds[j]), LowBits(n))
    ensures |ds| <= Pow2(n)
  {
    CursorClimbs(ds, vs, |ds| - 1, n, h);
    hide *;
    RevValueBound(vs[|ds| - 1], n);
  }

  lemma RevValueBound(v: bv64, n: nat)
    ensures RevValue(v, n) < Pow2(n)
  {
  }
}
