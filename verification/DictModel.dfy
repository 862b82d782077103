/** The chained hash table of dict.c as a value: two tables, the rehash index and the number of
    safe iterators, with the operations as functions on it. `h` is the dictionary type's hash
    function; keys are compared with equality, which every hash function here respects. */
module DictModel {
  import opened Options
  import opened Words

  datatype Entry<K, V> = Entry(key: K, val: V)

  /** `dictht`: buckets of chained entries, newest first. A table that was reset has no buckets. */
  datatype Table<K, V> = Table(buckets: seq<seq<Entry<K, V>>>, mask: bv64, used: nat)

  /** `dict`: rehashing is on unless `rehashidx` is -1. */
  datatype Dict<K, V> = Dict(ht0: Table<K, V>, ht1: Table<K, V>, rehashidx: int, iterators: nat)

  function Reset<K, V>(): Table<K, V> { Table([], 0, 0) }

  function Empty<K, V>(): Dict<K, V> { Dict(Reset(), Reset(), -1, 0) }

  predicate IsRehashing<K, V>(d: Dict<K, V>) { d.rehashidx != -1 }

  // ---- Well-formed tables ----

  ghost predicate Distinct<K, V>(c: seq<Entry<K, V>>) {
    forall i, j :: 0 <= i < j < |c| ==> c[i].key != c[j].key
  }

  ghost predicate Placed<K, V>(b: seq<seq<Entry<K, V>>>, mask: bv64, h: K -> bv64) {
    forall i, j :: 0 <= i < |b| && 0 <= j < |b[i]| ==> Bucket(h(b[i][j].key), mask) == i
  }

  ghost function Total<K, V>(b: seq<seq<Entry<K, V>>>): nat {
    if b == [] then 0 else |b[0]| + Total(b[1..])
  }

  ghost predicate Sized<K, V>(t: Table<K, V>) {
    t.buckets == [] || |t.buckets| == Index(t.mask) + 1
  }

  /** Power-of-two size, every entry in the bucket of its hash, keys unique, `used` exact. */
  ghost predicate TableOK<K, V>(t: Table<K, V>, h: K -> bv64) {
    if t.buckets == [] then t == Reset()
    else
      && Low(t.mask)
      && Sized(t)
      && Placed(t.buckets, t.mask, h)
      && (forall i :: 0 <= i < |t.buckets| ==> Distinct(t.buckets[i]))
      && t.used == Total(t.buckets)
  }

  // ---- Lookup ----

  /** The chain walk of `dictFind`: the first entry with the key. */
  ghost function FindKey<K, V>(c: seq<Entry<K, V>>, k: K): (r: Option<V>)
    ensures r.None? <==> forall i :: 0 <= i < |c| ==> c[i].key != k
  {
    if c == [] then None
    else if c[0].key == k then Some(c[0].val)
    else
      var r := FindKey(c[1..], k);
      assert forall i :: 1 <= i < |c| ==> c[i] == c[1..][i - 1];
      assert r.Some? ==> exists i :: 0 <= i < |c[1..]| && c[1..][i].key == k;
      r
  }

  ghost function ChainOf<K, V>(t: Table<K, V>, k: K, h: K -> bv64): seq<Entry<K, V>>
    requires Sized(t)
  {
    if t.buckets == [] then [] else t.buckets[Bucket(h(k), t.mask)]
  }

  ghost function FindIn<K, V>(t: Table<K, V>, k: K, h: K -> bv64): Option<V>
    requires Sized(t)
  {
    FindKey(ChainOf(t, k, h), k)
  }

  /** What the dictionary holds under a key: the first table is searched first. */
  ghost function Lookup<K, V>(d: Dict<K, V>, k: K, h: K -> bv64): Option<V>
    requires Sized(d.ht0) && Sized(d.ht1)
  {
    var r := FindIn(d.ht0, k, h);
    if r.Some? then r else FindIn(d.ht1, k, h)
  }

  /** Well-formed dictionary: the second table exists only while rehashing, buckets of the first
      below the rehash index are empty, and no key is in both tables. */
  ghost predicate DictOK<K(!new), V>(d: Dict<K, V>, h: K -> bv64) {
    && TableOK(d.ht0, h)
    && TableOK(d.ht1, h)
    && (d.rehashidx == -1 ==> d.ht1 == Reset())
    && (d.rehashidx != -1 ==>
          && d.ht0.buckets != []
          && d.ht1.buckets != []
          && 0 <= d.rehashidx <= |d.ht0.buckets|
          && forall i :: 0 <= i < d.rehashidx ==> d.ht0.buckets[i] == [])
    && (forall k: K :: FindIn(d.ht0, k, h).None? || FindIn(d.ht1, k, h).None?)
  }

  // ---- Chains and totals ----

  lemma {:induction false} TotalUpdate<K, V>(b: seq<seq<Entry<K, V>>>, i: nat, c: seq<Entry<K, V>>)
    requires i < |b|
    ensures Total(b[i := c]) == Total(b) - |b[i]| + |c|
  {
    if i == 0 {
      assert b[0 := c][1..] == b[1..];
    } else {
      assert b[i := c][1..] == b[1..][i - 1 := c];
      TotalUpdate(b[1..], i - 1, c);
    }
  }

  lemma {:induction false} TotalAtLeast<K, V>(b: seq<seq<Entry<K, V>>>, i: nat)
    requires i < |b|
    ensures |b[i]| <= Total(b)
  {
    if i > 0 {
      TotalAtLeast(b[1..], i - 1);
    }
  }

  lemma {:induction false} TotalPositive<K, V>(b: seq<seq<Entry<K, V>>>) returns (i: nat)
    requires Total(b) > 0
    ensures i < |b| && b[i] != []
  {
    if b[0] != [] {
      i := 0;
    } else {
      i := TotalPositive(b[1..]);
      i := i + 1;
    }
  }

  lemma {:induction false} FindKeyAt<K, V>(c: seq<Entry<K, V>>, i: nat)
    requires i < |c| && Distinct(c)
    ensures FindKey(c, c[i].key) == Some(c[i].val)
  {
    if i > 0 {
      assert c[1..][i - 1] == c[i];
      assert Distinct(c[1..]);
      FindKeyAt(c[1..], i - 1);
    }
  }

  // ---- Insertion at the head of a bucket ----

  /** Link `e` at the head of its bucket (dict.c:376-385, and 277-284 when rehashing). */
  ghost function Push<K, V>(t: Table<K, V>, e: Entry<K, V>, h: K -> bv64): Table<K, V>
    requires Sized(t) && t.buckets != []
  {
    var i := Bucket(h(e.key), t.mask);
    Table(t.buckets[i := [e] + t.buckets[i]], t.mask, t.used + 1)
  }

  lemma PushOK<K(!new), V>(t: Table<K, V>, e: Entry<K, V>, h: K -> bv64)
    requires TableOK(t, h) && t.buckets != [] && FindIn(t, e.key, h).None?
    ensures TableOK(Push(t, e, h), h)
    ensures forall k: K :: FindIn(Push(t, e, h), k, h) == if k == e.key then Some(e.val) else FindIn(t, k, h)
  {
    hide Bucket;
    hide Low;
    hide Index;
    var i := Bucket(h(e.key), t.mask);
    var c := [e] + t.buckets[i];
    TotalUpdate(t.buckets, i, c);
    assert c[1..] == t.buckets[i];
    forall k: K ensures FindIn(Push(t, e, h), k, h) == if k == e.key then Some(e.val) else FindIn(t, k, h) {
      assert FindKey(c, k) == if k == e.key then Some(e.val) else FindKey(t.buckets[i], k);
    }
  }

  /** Move the entries of one chain, head first (dict.c:272-285). */
  ghost function MoveChain<K, V>(c: seq<Entry<K, V>>, t: Table<K, V>, h: K -> bv64): (r: Table<K, V>)
    requires Sized(t) && t.buckets != []
    ensures Sized(r) && r.buckets != [] && r.mask == t.mask
  {
    if c == [] then t else MoveChain(c[1..], Push(t, c[0], h), h)
  }

  lemma {:induction false} MoveChainOK<K(!new), V>(c: seq<Entry<K, V>>, t: Table<K, V>, h: K -> bv64)
    requires TableOK(t, h) && t.buckets != [] && Distinct(c)
    requires forall i :: 0 <= i < |c| ==> FindIn(t, c[i].key, h).None?
    ensures TableOK(MoveChain(c, t, h), h)
    ensures forall k: K :: FindIn(MoveChain(c, t, h), k, h) ==
              if FindKey(c, k).Some? then FindKey(c, k) else FindIn(t, k, h)
    decreases |c|
  {
    hide Bucket;
    hide Low;
    hide Index;
    hide Placed;
    if c != [] {
      PushOK(t, c[0], h);
      var u := Push(t, c[0], h);
      forall i | 0 <= i < |c[1..]| ensures FindIn(u, c[1..][i].key, h).None? {
        assert c[1..][i] == c[i + 1];
      }
      assert Distinct(c[1..]);
      MoveChainOK(c[1..], u, h);
    }
  }

  // ---- Incremental rehashing ----

  /** `e` holds the same under every key as `d`. */
  ghost predicate SameContents<K(!new), V>(d: Dict<K, V>, e: Dict<K, V>, h: K -> bv64)
    requires Sized(d.ht0) && Sized(d.ht1) && Sized(e.ht0) && Sized(e.ht1)
  {
    forall k: K :: Lookup(e, k, h) == Lookup(d, k, h)
  }

  ghost predicate CanMove<K, V>(d: Dict<K, V>) {
    0 <= d.rehashidx < |d.ht0.buckets| && Sized(d.ht1) && d.ht1.buckets != []
    && |d.ht0.buckets[d.rehashidx]| <= d.ht0.used
  }

  ghost function ClearBucket<K, V>(t: Table<K, V>, i: nat): Table<K, V>
    requires i < |t.buckets| && |t.buckets[i]| <= t.used
  {
    Table(t.buckets[i := []], t.mask, t.used - |t.buckets[i]|)
  }

  /** Move the bucket at the rehash index and step past it (dict.c:272-287). */
  ghost function MoveBucket<K, V>(d: Dict<K, V>, h: K -> bv64): (r: Dict<K, V>)
    requires CanMove(d)
  {
    Dict(ClearBucket(d.ht0, d.rehashidx), MoveChain(d.ht0.buckets[d.rehashidx], d.ht1, h),
         d.rehashidx + 1, d.iterators)
  }

  lemma ClearBucketOK<K(!new), V>(t: Table<K, V>, i: nat, h: K -> bv64)
    requires TableOK(t, h) && i < |t.buckets|
    ensures |t.buckets[i]| <= t.used
    ensures TableOK(ClearBucket(t, i), h)
    ensures forall k: K :: FindIn(ClearBucket(t, i), k, h) ==
              if FindKey(t.buckets[i], k).Some? then None else FindIn(t, k, h)
  {
    hide Bucket;
    hide Low;
    hide Index;
    TotalAtLeast(t.buckets, i);
    TotalUpdate(t.buckets, i, []);
    var r := ClearBucket(t, i);
    forall k: K ensures FindIn(r, k, h) == if FindKey(t.buckets[i], k).Some? then None else FindIn(t, k, h) {
      if Bucket(h(k), t.mask) == i {
        assert ChainOf(r, k, h) == [] && ChainOf(t, k, h) == t.buckets[i];
      } else {
        assert ChainOf(r, k, h) == ChainOf(t, k, h);
        NotInOtherChain(t, k, i, h);
      }
    }
  }

  lemma NotInOtherChain<K, V>(t: Table<K, V>, k: K, i: nat, h: K -> bv64)
    requires TableOK(t, h) && i < |t.buckets| && Bucket(h(k), t.mask) != i
    ensures FindKey(t.buckets[i], k).None?
  {
    hide Bucket;
  }

  lemma ChainInTable<K, V>(t: Table<K, V>, i: nat, j: nat, h: K -> bv64)
    requires TableOK(t, h) && i < |t.buckets| && j < |t.buckets[i]|
    ensures FindIn(t, t.buckets[i][j].key, h) == Some(t.buckets[i][j].val)
  {
    hide Bucket;
    FindKeyAt(t.buckets[i], j);
    assert Bucket(h(t.buckets[i][j].key), t.mask) == i;
  }

  lemma MoveBucketOK<K(!new), V>(d: Dict<K, V>, h: K -> bv64)
    requires DictOK(d, h) && IsRehashing(d) && d.rehashidx < |d.ht0.buckets|
    ensures CanMove(d)
    ensures DictOK(MoveBucket(d, h), h)
    ensures SameContents(d, MoveBucket(d, h), h)
  {
    var i := d.rehashidx;
    var c := d.ht0.buckets[i];
    assert Distinct(c);
    assert Sized(d.ht1);
    hide TableOK;
    hide FindIn;
    hide MoveChain;
    ClearBucketOK(d.ht0, i, h);
    forall j | 0 <= j < |c| ensures FindIn(d.ht1, c[j].key, h).None? {
      ChainInTable(d.ht0, i, j, h);
    }
    MoveChainOK(c, d.ht1, h);
    var r := MoveBucket(d, h);
    forall k: K
      ensures FindIn(r.ht0, k, h).None? || FindIn(r.ht1, k, h).None?
      ensures Lookup(r, k, h) == Lookup(d, k, h)
    {
      FoundInTable(d.ht0, i, k, h);
    }
  }

  lemma FoundInTable<K, V>(t: Table<K, V>, i: nat, k: K, h: K -> bv64)
    requires TableOK(t, h) && i < |t.buckets|
    ensures FindKey(t.buckets[i], k).Some? ==> FindIn(t, k, h) == FindKey(t.buckets[i], k)
  {
    if Bucket(h(k), t.mask) != i {
      NotInOtherChain(t, k, i, h);
    }
  }

  /** Skip empty buckets from `i`, at most `visits` of them (dict.c:268-271): where the walk stands
      and how many visits are left, none left meaning it gave up. */
  function SkipEmpty<K, V(==)>(b: seq<seq<Entry<K, V>>>, i: nat, visits: nat): (r: (nat, nat))
    requires i <= |b| && visits > 0
    ensures i <= r.0 <= |b| && (r.1 == 0 ==> r.0 > i)
    ensures forall j :: i <= j < r.0 ==> b[j] == []
    ensures r.1 > 0 && r.0 < |b| ==> b[r.0] != []
    decreases |b| - i
  {
    if i < |b| && |b[i]| == 0 then
      if visits == 1 then (i + 1, 0) else SkipEmpty(b, i + 1, visits - 1)
    else (i, visits)
  }

  lemma SkipOK<K(!new), V>(d: Dict<K, V>, i: nat, h: K -> bv64)
    requires DictOK(d, h) && IsRehashing(d) && d.rehashidx <= i <= |d.ht0.buckets|
    requires forall j :: d.rehashidx <= j < i ==> d.ht0.buckets[j] == []
    ensures DictOK(d.(rehashidx := i), h)
    ensures SameContents(d, d.(rehashidx := i), h)
  {
    hide TableOK;
    hide FindIn;
    assert Sized(d.ht0) && Sized(d.ht1) by { TableOKSized(d.ht0, h); TableOKSized(d.ht1, h); }
  }

  lemma TableOKSized<K, V>(t: Table<K, V>, h: K -> bv64)
    requires TableOK(t, h)
    ensures Sized(t)
  {
  }

  /** The loop of `dictRehash`: the dictionary, and whether it returned early with work left. */
  ghost function RehashLoop<K(!new), V>(d: Dict<K, V>, n: nat, visits: nat, h: K -> bv64): (r: (Dict<K, V>, bool))
    requires DictOK(d, h) && IsRehashing(d) && (n > 0 ==> visits > 0)
    decreases n
  {
    if n == 0 || d.ht0.used == 0 then (d, false)
    else
      var (i, left) := SkipEmpty(d.ht0.buckets, d.rehashidx, visits);
      LoopStep(d, visits, h);
      hide DictOK;
      if left == 0 then (d.(rehashidx := i), true)
      else RehashLoop(MoveBucket(d.(rehashidx := i), h), n - 1, left, h)
  }

  /** One turn of the loop keeps the dictionary well-formed and its contents. */
  lemma LoopStep<K(!new), V>(d: Dict<K, V>, visits: nat, h: K -> bv64)
    requires DictOK(d, h) && IsRehashing(d) && d.ht0.used > 0 && visits > 0
    ensures var (i, left) := SkipEmpty(d.ht0.buckets, d.rehashidx, visits);
            var e := d.(rehashidx := i);
      && DictOK(e, h) && SameContents(d, e, h)
      && IsRehashing(e)
      && (left > 0 ==> CanMove(e) && DictOK(MoveBucket(e, h), h) && SameContents(d, MoveBucket(e, h), h)
                         && IsRehashing(MoveBucket(e, h)) && MoveBucket(e, h).rehashidx > d.rehashidx)
  {
    var (i, left) := SkipEmpty(d.ht0.buckets, d.rehashidx, visits);
    var e := d.(rehashidx := i);
    SkipOK(d, i, h);
    BucketsLeft(e, h);
    MoveBucketOK(e, h);
  }

  lemma {:induction false} RehashLoopOK<K(!new), V>(d: Dict<K, V>, n: nat, visits: nat, h: K -> bv64)
    requires DictOK(d, h) && IsRehashing(d) && (n > 0 ==> visits > 0)
    ensures var r := RehashLoop(d, n, visits, h);
      && DictOK(r.0, h) && IsRehashing(r.0) && SameContents(d, r.0, h)
      && r.0.iterators == d.iterators
      && r.0.rehashidx >= d.rehashidx
      && (n > 0 && d.ht0.used > 0 ==> r.0.rehashidx > d.rehashidx)
      && (d.ht0.used == 0 ==> r == (d, false))
      && (r.1 ==> r.0.ht0.used > 0)
    decreases n
  {
    hide FindIn;
    hide TableOK;
    if n > 0 && d.ht0.used > 0 {
      var (i, left) := SkipEmpty(d.ht0.buckets, d.rehashidx, visits);
      LoopStep(d, visits, h);
      if left > 0 {
        RehashLoopOK(MoveBucket(d.(rehashidx := i), h), n - 1, left, h);
      }
    }
  }

  /** While the first table holds entries, the rehash index is inside it: the assertion at
      dict.c:267 holds. */
  lemma BucketsLeft<K(!new), V>(d: Dict<K, V>, h: K -> bv64)
    requires DictOK(d, h) && IsRehashing(d) && d.ht0.used > 0
    ensures d.rehashidx < |d.ht0.buckets|
  {
    hide Placed;
    var i := TotalPositive(d.ht0.buckets);
  }

  /** `dictRehash`: the dictionary and whether there is more to move. */
  ghost function Rehash<K(!new), V>(d: Dict<K, V>, n: nat, h: K -> bv64): (r: (Dict<K, V>, bool))
    requires DictOK(d, h)
  {
    if !IsRehashing(d) then (d, false)
    else
      var (e, early) := RehashLoop(d, n, 10 * n, h);
      if early then (e, true)
      else if e.ht0.used == 0 then (Dict(e.ht1, Reset(), -1, e.iterators), false)
      else (e, true)
  }

  /** Rehashing never changes what the dictionary holds, says "more" exactly while two tables are
      left, and unless it ends it moves the rehash index forward. */
  lemma RehashOK<K(!new), V>(d: Dict<K, V>, n: nat, h: K -> bv64)
    requires DictOK(d, h)
    ensures var r := Rehash(d, n, h);
      && DictOK(r.0, h)
      && SameContents(d, r.0, h)
      && r.0.iterators == d.iterators
      && (r.1 <==> IsRehashing(r.0))
      && (IsRehashing(r.0) && n > 0 ==> r.0.rehashidx > d.rehashidx)
      && (!IsRehashing(d) ==> r.0 == d)
  {
    if IsRehashing(d) {
      RehashLoopOK(d, n, 10 * n, h);
      var e := RehashLoop(d, n, 10 * n, h).0;
      hide Bucket;
      hide Placed;
      hide Rehash;
      RehashIs(d, n, h);
      if e.ht0.used == 0 {
        forall k: K ensures FindIn(e.ht0, k, h).None? {
          TotalAtLeast(e.ht0.buckets, Bucket(h(k), e.ht0.mask));
        }
      }
    }
  }

  lemma RehashIs<K(!new), V>(d: Dict<K, V>, n: nat, h: K -> bv64)
    requires DictOK(d, h) && IsRehashing(d)
    ensures var (e, early) := RehashLoop(d, n, 10 * n, h);
      Rehash(d, n, h) == if early then (e, true)
                         else if e.ht0.used == 0 then (Dict(e.ht1, Reset(), -1, e.iterators), false)
                         else (e, true)
  {
    hide DictOK;
    hide RehashLoop;
  }
}
