/** Safe iterators of dict.c. A safe iterator holds the rehash steps back, so entries stay in their
    chains while it is at work; new keys may still arrive, an expansion may begin, and any entry may
    be deleted except the one the iterator saved as its next. */
module DictIter {
  import opened Words
  import opened Options
  import opened DictModel
  import Ops = DictOps

  /** `dictIterator`. The two entry pointers are kept as the keys of the entries they point to;
      `entry` is the entry returned last and `next` the one saved before returning it. */
  datatype Iter<K> = Iter(table: nat, index: int, entry: Option<K>, next: Option<K>)

  function Fresh<K>(): Iter<K> { Iter(0, -1, None, None) }

  // ---- Chains from an entry on ----

  /** The chain from the entry of `k` on: what the pointer to that entry leads to. */
  function From<K(==), V>(c: seq<Entry<K, V>>, k: K): (r: seq<Entry<K, V>>)
    ensures r != [] ==> r[0].key == k
  {
    if c == [] then [] else if c[0].key == k then c else From(c[1..], k)
  }

  lemma {:induction false} FromOK<K(!new), V>(c: seq<Entry<K, V>>, k: K)
    requires Distinct(c)
    ensures Distinct(From(c, k))
    ensures From(c, k) != [] <==> FindKey(c, k).Some?
    ensures forall q: K :: FindKey(From(c, k), q).Some? ==> FindKey(From(c, k), q) == FindKey(c, q)
  {
    if c != [] && c[0].key != k {
      assert forall i :: 0 <= i < |c[1..]| ==> c[1..][i] == c[i + 1];
      assert Distinct(c[1..]);
      FromOK(c[1..], k);
      assert FindKey(c[1..], c[0].key).None?;
    }
  }

  lemma HeadAndTail<K(!new), V>(c: seq<Entry<K, V>>)
    requires Distinct(c) && c != []
    ensures FindKey(c, c[0].key) == Some(c[0].val)
    ensures forall q: K :: FindKey(c[1..], q).Some? <==> FindKey(c, q).Some? && q != c[0].key
  {
    assert forall i :: 0 <= i < |c[1..]| ==> c[1..][i] == c[i + 1];
    assert FindKey(c[1..], c[0].key).None?;
  }

  /** The pointer to the second entry of a chain leads to the tail of the chain. */
  lemma {:induction false} FromNext<K(!new), V>(c: seq<Entry<K, V>>, k: K)
    requires Distinct(c) && |From(c, k)| > 1
    ensures From(c, From(c, k)[1].key) == From(c, k)[1..]
  {
    if c[0].key != k {
      assert forall i :: 0 <= i < |c[1..]| ==> c[1..][i] == c[i + 1];
      assert Distinct(c[1..]);
      FromNext(c[1..], k);
      FromOK(c[1..], k);
      var n := From(c, k)[1];
      FindKeyAt(From(c[1..], k), 1);
      assert FindKey(c[1..], n.key).Some?;
      assert FindKey(c[1..], c[0].key).None?;
    } else {
      assert c[1..][0] == c[1];
    }
  }

  lemma {:induction false} FromSet<K, V>(c: seq<Entry<K, V>>, k: K, v: V, n: K, q: K)
    ensures FindKey(From(Ops.SetInChain(c, k, v), n), q).Some? <==> FindKey(From(c, n), q).Some?
    ensures FindKey(Ops.SetInChain(c, k, v), q).Some? <==> FindKey(c, q).Some?
  {
    Ops.SetInChainFinds(c, k, v, q);
    if c != [] {
      var r := Ops.SetInChain(c, k, v);
      if c[0].key == k {
        assert r[1..] == c[1..];
      } else {
        assert r[1..] == Ops.SetInChain(c[1..], k, v);
        FromSet(c[1..], k, v, n, q);
      }
    }
  }

  lemma {:induction false} FromUnlink<K(!new), V>(c: seq<Entry<K, V>>, k: K, n: K, q: K)
    requires Distinct(c) && k != n
    ensures FindKey(From(Ops.Unlink(c, k), n), q).Some? <==> FindKey(From(c, n), q).Some? && q != k
  {
    if c != [] {
      var t := c[1..];
      assert forall i :: 0 <= i < |t| ==> t[i] == c[i + 1];
      assert Distinct(t);
      Ops.UnlinkFinds(c, k);
      if c[0].key == k {
        FromOK(t, n);
        assert FindKey(t, k).None?;
      } else {
        assert Ops.Unlink(c, k)[1..] == Ops.Unlink(t, k);
        FromUnlink(t, k, n, q);
      }
    }
  }

  // ---- The iterator's position ----

  ghost function At<K, V>(d: Dict<K, V>, table: nat): Table<K, V> {
    if table == 0 then d.ht0 else d.ht1
  }

  /** The saved next entry, while the iterator stands on an entry. */
  function Saved<K>(it: Iter<K>): Option<K> {
    if it.entry.Some? then it.next else None
  }

  /** The iterator stands inside the table it walks, and its saved entry is in the current chain:
      the pointer does not dangle. */
  ghost predicate IterOK<K, V>(d: Dict<K, V>, it: Iter<K>) {
    && it.table <= 1 && it.index >= -1
    && (it.table == 1 ==> IsRehashing(d))
    && (it.entry.Some? ==> 0 <= it.index < |At(d, it.table).buckets|)
    && (Saved(it).Some? ==> FindKey(At(d, it.table).buckets[it.index], it.next.value).Some?)
  }

  /** The walk of table `t`, past bucket `index` up to the entry `saved`, has the key in front of it. */
  ghost predicate AheadIn<K, V>(t: Table<K, V>, index: int, saved: Option<K>, k: K, h: K -> bv64)
    requires Sized(t) && (saved.Some? ==> 0 <= index < |t.buckets|)
  {
    && FindIn(t, k, h).Some?
    && (Bucket(h(k), t.mask) > index ||
        (Bucket(h(k), t.mask) == index && saved.Some? && FindKey(From(t.buckets[index], saved.value), k).Some?))
  }

  /** The key is still to be returned. */
  ghost predicate Ahead<K, V>(d: Dict<K, V>, it: Iter<K>, k: K, h: K -> bv64)
    requires Sized(d.ht0) && Sized(d.ht1) && IterOK(d, it)
  {
    if it.table == 0 then AheadIn(d.ht0, it.index, Saved(it), k, h) || FindIn(d.ht1, k, h).Some?
    else AheadIn(d.ht1, it.index, Saved(it), k, h)
  }

  // ---- dictNext ----

  /** Take the first entry of the chain `c` reached at `index`. */
  function Take<K, V>(table: nat, index: nat, c: seq<Entry<K, V>>): (Iter<K>, Option<Entry<K, V>>)
    requires c != []
  {
    (Iter(table, index, Some(c[0].key), if |c| > 1 then Some(c[1].key) else None), Some(c[0]))
  }

  /** The walk when there is no current entry (dict.c:595-613). */
  ghost function Walk<K, V>(d: Dict<K, V>, table: nat, index: nat, next: Option<K>): (Iter<K>, Option<Entry<K, V>>)
    requires table <= 1 && (IsRehashing(d) ==> d.ht1.buckets != [])
    decreases 1 - table, |At(d, table).buckets| - index
  {
    if index >= |At(d, table).buckets| then
      if IsRehashing(d) && table == 0 then
        if d.ht1.buckets[0] != [] then Take(1, 0, d.ht1.buckets[0]) else Walk(d, 1, 1, next)
      else (Iter(table, index, None, next), None)
    else if At(d, table).buckets[index] != [] then Take(table, index, At(d, table).buckets[index])
    else Walk(d, table, index + 1, next)
  }

  /** One call's movement: on to the saved entry, or a walk to the next non-empty bucket. */
  ghost function Advance<K, V>(d: Dict<K, V>, it: Iter<K>): (Iter<K>, Option<Entry<K, V>>)
    requires IterOK(d, it) && (IsRehashing(d) ==> d.ht1.buckets != [])
  {
    var c := if Saved(it).Some? then From(At(d, it.table).buckets[it.index], it.next.value) else [];
    if c != [] then Take(it.table, it.index, c) else Walk(d, it.table, it.index + 1, it.next)
  }

  /** `dictNext` of a safe iterator: the dictionary, the iterator and the entry returned. The first
      call registers the iterator. */
  ghost function Next<K(!new), V>(d: Dict<K, V>, it: Iter<K>, h: K -> bv64): (Dict<K, V>, Iter<K>, Option<Entry<K, V>>)
    requires DictOK(d, h) && IterOK(d, it)
  {
    var e := if it.entry.None? && it.index == -1 && it.table == 0 then d.(iterators := d.iterators + 1) else d;
    (e, Advance(d, it).0, Advance(d, it).1)
  }

  lemma ChainFacts<K(!new), V>(t: Table<K, V>, index: nat, k: K, h: K -> bv64)
    requires TableOK(t, h) && index < |t.buckets|
    ensures Distinct(t.buckets[index]) && Sized(t)
    ensures FindKey(t.buckets[index], k).Some? <==> FindIn(t, k, h).Some? && Bucket(h(k), t.mask) == index
    ensures FindKey(t.buckets[index], k).Some? ==> FindKey(t.buckets[index], k) == FindIn(t, k, h)
  {
    hide Bucket;
    if FindKey(t.buckets[index], k).Some? {
      var j := Ops.FoundAt(t.buckets[index], k);
    }
  }

  lemma BucketInside<K(!new), V>(t: Table<K, V>, k: K, h: K -> bv64)
    requires TableOK(t, h)
    ensures Sized(t)
    ensures FindIn(t, k, h).Some? ==> 0 <= Bucket(h(k), t.mask) < |t.buckets|
  {
    hide Bucket;
    hide Low;
    hide Placed;
    BucketBound(h(k), t.mask);
  }

  /** Taking the head of what is left of a chain leaves exactly the rest of it ahead. */
  lemma TakeOK<K(!new), V>(t: Table<K, V>, table: nat, index: nat, saved: Option<K>, h: K -> bv64)
    requires TableOK(t, h) && index < |t.buckets|
    requires saved.Some? ==> FindKey(t.buckets[index], saved.value).Some?
    requires var c := if saved.Some? then From(t.buckets[index], saved.value) else t.buckets[index]; c != []
    ensures Sized(t)
    ensures var c := if saved.Some? then From(t.buckets[index], saved.value) else t.buckets[index];
            var n := Take(table, index, c).0.next;
      && FindIn(t, c[0].key, h) == Some(c[0].val)
      && AheadIn(t, if saved.Some? then index else index - 1, saved, c[0].key, h)
      && (n.Some? ==> FindKey(t.buckets[index], n.value).Some?)
      && forall q: K :: AheadIn(t, index, n, q, h) <==>
           AheadIn(t, if saved.Some? then index else index - 1, saved, q, h) && q != c[0].key
  {
    var b := t.buckets[index];
    var c := if saved.Some? then From(b, saved.value) else b;
    ChainFacts(t, index, c[0].key, h);
    hide TableOK;
    hide Bucket;
    hide FindKey;
    hide FindIn;
    hide From;
    if saved.Some? {
      FromOK(b, saved.value);
    }
    HeadAndTail(c);
    if |c| > 1 {
      NextLeadsToTail(b, saved);
    }
    forall q: K
      ensures AheadIn(t, index, Take(table, index, c).0.next, q, h) <==>
           AheadIn(t, if saved.Some? then index else index - 1, saved, q, h) && q != c[0].key
    {
      ChainFacts(t, index, q, h);
      ChainFacts(t, index, c[0].key, h);
      if |c| == 1 {
        NoTail(c, q);
      }
    }
  }

  lemma NoTail<K, V>(c: seq<Entry<K, V>>, q: K)
    requires |c| == 1
    ensures FindKey(c[1..], q).None?
  {
  }

  lemma NextLeadsToTail<K(!new), V>(b: seq<Entry<K, V>>, saved: Option<K>)
    requires Distinct(b)
    requires var c := if saved.Some? then From(b, saved.value) else b; |c| > 1
    ensures var c := if saved.Some? then From(b, saved.value) else b;
      From(b, c[1].key) == c[1..] && FindKey(b, c[1].key).Some?
  {
    if saved.Some? {
      FromNext(b, saved.value);
      FromOK(b, saved.value);
      FindKeyAt(From(b, saved.value), 1);
    } else {
      assert From(b, b[0].key) == b;
      FromNext(b, b[0].key);
      FindKeyAt(b, 1);
    }
  }

  /** What one call of `dictNext` does to the keys ahead: it returns one of them, with the value the
      dictionary holds, and leaves exactly the others ahead; or it ends, and none was ahead. */
  ghost predicate Returns<K(!new), V>(d: Dict<K, V>, before: Iter<K>, after: Iter<K>, r: Option<Entry<K, V>>, h: K -> bv64)
    requires Sized(d.ht0) && Sized(d.ht1) && IterOK(d, before) && IterOK(d, after)
  {
    match r
    case None =>
      after.entry.None? && forall q: K :: !Ahead(d, before, q, h) && !Ahead(d, after, q, h)
    case Some(e) =>
      && after.entry == Some(e.key)
      && Ahead(d, before, e.key, h)
      && Lookup(d, e.key, h) == Some(e.val)
      && forall q: K :: Ahead(d, after, q, h) <==> Ahead(d, before, q, h) && q != e.key
  }

  lemma TakeReturns<K(!new), V>(d: Dict<K, V>, table: nat, index: nat, saved: Option<K>, h: K -> bv64)
    requires DictOK(d, h) && table <= 1 && (table == 1 ==> IsRehashing(d)) && index < |At(d, table).buckets|
    requires saved.Some? ==> FindKey(At(d, table).buckets[index], saved.value).Some?
    requires var c := if saved.Some? then From(At(d, table).buckets[index], saved.value)
                      else At(d, table).buckets[index];
      c != []
    ensures var c := if saved.Some? then From(At(d, table).buckets[index], saved.value)
                     else At(d, table).buckets[index];
            var before := if saved.Some? then Iter(table, index, saved, saved) else Iter(table, index - 1, None, None);
            var (it, r) := Take(table, index, c);
      Sized(d.ht0) && Sized(d.ht1) && IterOK(d, before) && IterOK(d, it) && Returns(d, before, it, r, h)
  {
    TakeOK(At(d, table), table, index, saved, h);
    TableOKSized(d.ht0, h);
    TableOKSized(d.ht1, h);
    hide TableOK;
    hide Bucket;
    hide FindKey;
    hide FindIn;
    hide From;
    hide AheadIn;
    var c := if saved.Some? then From(At(d, table).buckets[index], saved.value) else At(d, table).buckets[index];
    assert FindIn(d.ht0, c[0].key, h).None? || FindIn(d.ht1, c[0].key, h).None?;
    AheadIsFound(d, c[0].key, table, if saved.Some? then index else index - 1, saved, h);
  }

  lemma AheadIsFound<K(!new), V>(d: Dict<K, V>, k: K, table: nat, index: int, saved: Option<K>, h: K -> bv64)
    requires DictOK(d, h) && table <= 1 && (saved.Some? ==> 0 <= index < |At(d, table).buckets|)
    ensures Sized(At(d, table))
    ensures AheadIn(At(d, table), index, saved, k, h) ==> FindIn(At(d, table), k, h).Some?
  {
    hide Bucket;
  }

  lemma SkipEmptyBucket<K(!new), V>(t: Table<K, V>, last: int, index: nat, h: K -> bv64)
    requires TableOK(t, h) && last == index - 1 && (index < |t.buckets| ==> t.buckets[index] == [])
    ensures Sized(t)
    ensures forall q: K :: AheadIn(t, index, None, q, h) <==> AheadIn(t, last, None, q, h)
    ensures index >= |t.buckets| ==> forall q: K :: !AheadIn(t, last, None, q, h)
  {
    hide Bucket;
    hide Low;
    hide Placed;
    forall q: K
      ensures AheadIn(t, index, None, q, h) <==> AheadIn(t, last, None, q, h)
      ensures index >= |t.buckets| ==> !AheadIn(t, last, None, q, h)
    {
      BucketInside(t, q, h);
    }
  }

  lemma StartOfTable<K(!new), V>(t: Table<K, V>, h: K -> bv64)
    requires TableOK(t, h)
    ensures Sized(t)
    ensures forall q: K :: AheadIn(t, -1, None, q, h) <==> FindIn(t, q, h).Some?
  {
    hide Bucket;
    forall q: K ensures AheadIn(t, -1, None, q, h) <==> FindIn(t, q, h).Some? {
      BucketInside(t, q, h);
    }
  }

  /** No key counts as ahead or not because of the key saved when there is no current entry. */
  lemma SavedIgnored<K(!new), V>(d: Dict<K, V>, before: Iter<K>, again: Iter<K>, after: Iter<K>,
                                 r: Option<Entry<K, V>>, h: K -> bv64)
    requires Sized(d.ht0) && Sized(d.ht1) && IterOK(d, before) && IterOK(d, again) && IterOK(d, after)
    requires forall q: K :: Ahead(d, before, q, h) <==> Ahead(d, again, q, h)
    requires Returns(d, again, after, r, h)
    ensures Returns(d, before, after, r, h)
  {
    hide Ahead;
    hide Lookup;
  }

  /** The walk from bucket `index` of `table` returns what `dictNext` must. */
  ghost predicate WalkReturns<K(!new), V>(d: Dict<K, V>, table: nat, index: nat, next: Option<K>, h: K -> bv64)
    requires DictOK(d, h) && table <= 1 && (table == 1 ==> IsRehashing(d))
    requires Sized(d.ht0) && Sized(d.ht1)
  {
    var (it, r) := Walk(d, table, index, next);
    IterOK(d, it) && Returns(d, Iter(table, index - 1, None, next), it, r, h)
  }

  lemma {:induction false} WalkOK<K(!new), V>(d: Dict<K, V>, table: nat, index: nat, next: Option<K>, h: K -> bv64)
    requires DictOK(d, h) && table <= 1 && (table == 1 ==> IsRehashing(d))
    ensures Sized(d.ht0) && Sized(d.ht1)
    ensures WalkReturns(d, table, index, next, h)
    decreases 1 - table, |At(d, table).buckets| - index
  {
    TableOKSized(d.ht0, h);
    TableOKSized(d.ht1, h);
    assert table == 0 ==> IsRehashing(d) ==> At(d, 1) == d.ht1;
    hide *;
    if index < |At(d, table).buckets| {
      if At(d, table).buckets[index] != [] {
        TakesHere(d, table, index, next, h);
      } else {
        WalkOK(d, table, index + 1, next, h);
        SkipsEmpty(d, table, index, next, h);
      }
    } else if IsRehashing(d) && table == 0 {
      WalkSecond(d, next, h);
      EntersSecond(d, index, next, h);
    } else {
      NoneAhead(d, table, index, next, h);
    }
  }

  lemma TakesHere<K(!new), V>(d: Dict<K, V>, table: nat, index: nat, next: Option<K>, h: K -> bv64)
    requires DictOK(d, h) && table <= 1 && (table == 1 ==> IsRehashing(d))
    requires index < |At(d, table).buckets| && At(d, table).buckets[index] != []
    requires Sized(d.ht0) && Sized(d.ht1)
    ensures WalkReturns(d, table, index, next, h)
  {
    hide TableOK;
    hide Bucket;
    hide AheadIn;
    hide FindIn;
    hide FindKey;
    TakeReturns(d, table, index, None, h);
    var (it, r) := Walk(d, table, index, next);
    SavedIgnored(d, Iter(table, index - 1, None, next), Iter(table, index - 1, None, None), it, r, h);
  }

  lemma SkipsEmpty<K(!new), V>(d: Dict<K, V>, table: nat, index: nat, next: Option<K>, h: K -> bv64)
    requires DictOK(d, h) && table <= 1 && (table == 1 ==> IsRehashing(d))
    requires index < |At(d, table).buckets| && At(d, table).buckets[index] == []
    requires Sized(d.ht0) && Sized(d.ht1)
    requires WalkReturns(d, table, index + 1, next, h)
    ensures WalkReturns(d, table, index, next, h)
  {
    hide TableOK;
    hide Bucket;
    hide AheadIn;
    hide FindIn;
    SkipEmptyBucket(At(d, table), index - 1, index, h);
    var (it, r) := Walk(d, table, index, next);
    SavedIgnored(d, Iter(table, index - 1, None, next), Iter(table, index, None, next), it, r, h);
  }

  lemma EntersSecond<K(!new), V>(d: Dict<K, V>, index: nat, next: Option<K>, h: K -> bv64)
    requires DictOK(d, h) && IsRehashing(d) && index >= |d.ht0.buckets|
    requires Sized(d.ht0) && Sized(d.ht1)
    requires var (it, r) := if d.ht1.buckets[0] != [] then Take(1, 0, d.ht1.buckets[0]) else Walk(d, 1, 1, next);
      IterOK(d, it) && Returns(d, Iter(1, -1, None, next), it, r, h)
    ensures WalkReturns(d, 0, index, next, h)
  {
    hide TableOK;
    hide Bucket;
    hide AheadIn;
    hide FindIn;
    SkipEmptyBucket(d.ht0, index - 1, index, h);
    StartOfTable(d.ht1, h);
    var (it, r) := Walk(d, 0, index, next);
    SavedIgnored(d, Iter(0, index - 1, None, next), Iter(1, -1, None, next), it, r, h);
  }

  lemma NoneAhead<K(!new), V>(d: Dict<K, V>, table: nat, index: nat, next: Option<K>, h: K -> bv64)
    requires DictOK(d, h) && table <= 1 && (table == 1 ==> IsRehashing(d))
    requires index >= |At(d, table).buckets| && (IsRehashing(d) ==> table == 1)
    requires Sized(d.ht0) && Sized(d.ht1)
    ensures WalkReturns(d, table, index, next, h)
  {
    assert forall k: K :: FindIn<K, V>(Reset(), k, h).None?;
    hide TableOK;
    hide Bucket;
    hide AheadIn;
    hide FindIn;
    var last := index - 1;
    SkipEmptyBucket(At(d, table), last, index, h);
    forall q: K
      ensures !Ahead(d, Iter(table, last, None, next), q, h) && !Ahead(d, Iter(table, index, None, next), q, h)
    {
    }
  }

  lemma WalkSecond<K(!new), V>(d: Dict<K, V>, next: Option<K>, h: K -> bv64)
    requires DictOK(d, h) && IsRehashing(d)
    ensures Sized(d.ht0) && Sized(d.ht1)
    ensures var (it, r) := if d.ht1.buckets[0] != [] then Take(1, 0, d.ht1.buckets[0]) else Walk(d, 1, 1, next);
      IterOK(d, it) && Returns(d, Iter(1, -1, None, next), it, r, h)
    decreases 0, |d.ht1.buckets|
  {
    TableOKSized(d.ht0, h);
    TableOKSized(d.ht1, h);
    hide TableOK;
    hide Bucket;
    hide FindKey;
    hide FindIn;
    hide AheadIn;
    if d.ht1.buckets[0] != [] {
      TakeReturns(d, 1, 0, None, h);
    } else {
      SkipEmptyBucket(d.ht1, -1, 0, h);
      WalkOK(d, 1, 1, next, h);
      var (it, r) := Walk(d, 1, 1, next);
      SavedIgnored(d, Iter(1, -1, None, next), Iter(1, 0, None, next), it, r, h);
    }
  }

  lemma AdvanceInChain<K(!new), V>(d: Dict<K, V>, it: Iter<K>, h: K -> bv64)
    requires DictOK(d, h) && IterOK(d, it) && Saved(it).Some?
    ensures Sized(d.ht0) && Sized(d.ht1)
    ensures IterOK(d, Advance(d, it).0) && Returns(d, it, Advance(d, it).0, Advance(d, it).1, h)
  {
    SavedChain(At(d, it.table), it.index, it.next.value, h);
    TakeReturns(d, it.table, it.index, it.next, h);
    var again := Iter(it.table, it.index, it.next, it.next);
    var (after, r) := Advance(d, it);
    hide *;
    SavedOnly(d, it, again, h);
    SavedIgnored(d, it, again, after, r, h);
  }

  lemma AdvanceByWalk<K(!new), V>(d: Dict<K, V>, it: Iter<K>, h: K -> bv64)
    requires DictOK(d, h) && IterOK(d, it) && Saved(it).None?
    ensures Sized(d.ht0) && Sized(d.ht1)
    ensures IterOK(d, Advance(d, it).0) && Returns(d, it, Advance(d, it).0, Advance(d, it).1, h)
  {
    WalkOK(d, it.table, it.index + 1, it.next, h);
    var again := Iter(it.table, it.index, None, it.next);
    var (after, r) := Advance(d, it);
    assert (after, r) == Walk(d, it.table, it.index + 1, it.next);
    assert IterOK(d, again) && Saved(again) == None;
    hide *;
    SavedOnly(d, it, again, h);
    SavedIgnored(d, it, again, after, r, h);
  }

  lemma SavedOnly<K(!new), V>(d: Dict<K, V>, it: Iter<K>, again: Iter<K>, h: K -> bv64)
    requires Sized(d.ht0) && Sized(d.ht1) && IterOK(d, it) && IterOK(d, again)
    requires it.table == again.table && it.index == again.index && Saved(it) == Saved(again)
    ensures forall q: K :: Ahead(d, it, q, h) <==> Ahead(d, again, q, h)
  {
  }

  /** `dictNext` is exact: it returns a key that was ahead, with its value, and exactly the others
      stay ahead; it ends if and only if none was. */
  lemma NextOK<K(!new), V>(d: Dict<K, V>, it: Iter<K>, h: K -> bv64)
    requires DictOK(d, h) && IterOK(d, it)
    ensures Sized(d.ht0) && Sized(d.ht1)
    ensures var (e, after, r) := Next(d, it, h);
      && e == d.(iterators := e.iterators) && DictOK(e, h)
      && IterOK(e, after)
      && Returns(d, it, after, r, h)
  {
    hide Returns;
    hide TableOK;
    hide Advance;
    hide FindIn;
    hide FindKey;
    if Saved(it).Some? {
      AdvanceInChain(d, it, h);
    } else {
      AdvanceByWalk(d, it, h);
    }
  }

  lemma SavedChain<K(!new), V>(t: Table<K, V>, index: nat, k: K, h: K -> bv64)
    requires TableOK(t, h) && index < |t.buckets| && FindKey(t.buckets[index], k).Some?
    ensures From(t.buckets[index], k) != []
  {
    ChainFacts(t, index, k, h);
    FromOK(t.buckets[index], k);
  }

  // ---- What the user may do between two calls ----

  /** Chain `d` has the keys of chain `c` from `saved` on, and `saved` itself, apart from the keys
      named by `except`. */
  ghost predicate SameReach<K(!new), V>(c: seq<Entry<K, V>>, d: seq<Entry<K, V>>, saved: K, except: Option<K>) {
    && FindKey(d, saved).Some?
    && forall q: K :: Some(q) != except ==> (FindKey(From(d, saved), q).Some? <==> FindKey(From(c, saved), q).Some?)
  }

  /** Tables `t` and `u` hold the same keys, apart from `except`, and so do their current chains from
      the saved entry on. */
  ghost predicate SameWay<K(!new), V>(t: Table<K, V>, u: Table<K, V>, index: int, saved: Option<K>, except: Option<K>,
                                      h: K -> bv64)
    requires Sized(t) && Sized(u)
  {
    && u.mask == t.mask && |u.buckets| == |t.buckets|
    && (forall q: K :: Some(q) != except ==> (FindIn(u, q, h).Some? <==> FindIn(t, q, h).Some?))
    && (saved.Some? ==> 0 <= index < |t.buckets| && SameReach(t.buckets[index], u.buckets[index], saved.value, except))
  }

  lemma SameWayAhead<K(!new), V>(t: Table<K, V>, u: Table<K, V>, index: int, saved: Option<K>, except: Option<K>,
                                 q: K, h: K -> bv64)
    requires Sized(t) && Sized(u) && SameWay(t, u, index, saved, except, h) && Some(q) != except
    ensures AheadIn(u, index, saved, q, h) <==> AheadIn(t, index, saved, q, h)
  {
    hide Bucket;
    hide FindIn;
    hide From;
    hide FindKey;
  }

  lemma SameReachRefl<K(!new), V>(c: seq<Entry<K, V>>, saved: K, except: Option<K>)
    requires FindKey(c, saved).Some?
    ensures SameReach(c, c, saved, except)
  {
  }

  lemma PushReach<K(!new), V>(c: seq<Entry<K, V>>, e: Entry<K, V>, saved: K)
    requires FindKey(c, saved).Some? && FindKey(c, e.key).None?
    ensures SameReach(c, [e] + c, saved, Some(e.key))
  {
    assert ([e] + c)[1..] == c;
  }

  lemma SetReach<K(!new), V>(c: seq<Entry<K, V>>, k: K, v: V, saved: K)
    requires FindKey(c, saved).Some?
    ensures SameReach(c, Ops.SetInChain(c, k, v), saved, None)
  {
    FromSet(c, k, v, saved, saved);
    forall q: K
      ensures FindKey(From(Ops.SetInChain(c, k, v), saved), q).Some? <==> FindKey(From(c, saved), q).Some?
    {
      FromSet(c, k, v, saved, q);
    }
  }

  lemma UnlinkReach<K(!new), V>(c: seq<Entry<K, V>>, k: K, saved: K)
    requires Distinct(c) && FindKey(c, saved).Some? && saved != k
    ensures SameReach(c, Ops.Unlink(c, k), saved, Some(k))
  {
    Ops.UnlinkFinds(c, k);
    forall q: K | q != k
      ensures FindKey(From(Ops.Unlink(c, k), saved), q).Some? <==> FindKey(From(c, saved), q).Some?
    {
      FromUnlink(c, k, saved, q);
    }
  }

  lemma PushWay<K(!new), V>(t: Table<K, V>, index: int, saved: Option<K>, e: Entry<K, V>, h: K -> bv64)
    requires TableOK(t, h) && t.buckets != [] && FindIn(t, e.key, h).None?
    requires saved.Some? ==> 0 <= index < |t.buckets| && FindKey(t.buckets[index], saved.value).Some?
    ensures Sized(t) && Sized(Push(t, e, h)) && SameWay(t, Push(t, e, h), index, saved, Some(e.key), h)
  {
    PushOK(t, e, h);
    TableOKSized(t, h);
    TableOKSized(Push(t, e, h), h);
    if saved.Some? {
      ChainFacts(t, index, saved.value, h);
      ChainFacts(t, index, e.key, h);
      PushReach(t.buckets[index], e, saved.value);
      SameReachRefl(t.buckets[index], saved.value, Some(e.key));
    }
    hide TableOK;
    hide FindIn;
    hide FindKey;
    hide Bucket;
    hide SameReach;
  }

  lemma SetWay<K(!new), V>(t: Table<K, V>, index: int, saved: Option<K>, k: K, v: V, h: K -> bv64)
    requires TableOK(t, h)
    requires saved.Some? ==> 0 <= index < |t.buckets| && FindKey(t.buckets[index], saved.value).Some?
    ensures Sized(t) && Sized(Ops.SetIn(t, k, v, h)) && SameWay(t, Ops.SetIn(t, k, v, h), index, saved, None, h)
  {
    Ops.SetInOK(t, k, v, h);
    Ops.SetKeepsBuckets(t, k, v, h);
    TableOKSized(t, h);
    TableOKSized(Ops.SetIn(t, k, v, h), h);
    if saved.Some? {
      SetReach(t.buckets[index], k, v, saved.value);
      SameReachRefl(t.buckets[index], saved.value, None);
    }
    hide TableOK;
    hide FindIn;
    hide FindKey;
    hide Bucket;
    hide SameReach;
  }

  lemma UnlinkWay<K(!new), V>(t: Table<K, V>, index: int, saved: Option<K>, k: K, h: K -> bv64)
    requires TableOK(t, h) && FindIn(t, k, h).Some? && saved != Some(k)
    requires saved.Some? ==> 0 <= index < |t.buckets| && FindKey(t.buckets[index], saved.value).Some?
    ensures t.used > 0
    ensures Sized(t) && Sized(Ops.UnlinkIn(t, k, h)) && SameWay(t, Ops.UnlinkIn(t, k, h), index, saved, Some(k), h)
    ensures FindIn(Ops.UnlinkIn(t, k, h), k, h).None?
  {
    Ops.UnlinkInOK(t, k, h);
    Ops.UnlinkKeepsEmpty(t, k, h);
    TableOKSized(t, h);
    TableOKSized(Ops.UnlinkIn(t, k, h), h);
    if saved.Some? {
      ChainFacts(t, index, saved.value, h);
      UnlinkReach(t.buckets[index], k, saved.value);
      SameReachRefl(t.buckets[index], saved.value, Some(k));
    }
    hide TableOK;
    hide FindIn;
    hide FindKey;
    hide Bucket;
    hide SameReach;
  }

  /** A change of the dictionary under the iterator: the iterator still stands on its feet, and
      apart from `except` the keys ahead are the same. */
  ghost predicate StillAhead<K(!new), V>(d: Dict<K, V>, e: Dict<K, V>, it: Iter<K>, except: Option<K>, h: K -> bv64)
    requires DictOK(d, h) && IterOK(d, it)
  {
    && DictOK(e, h) && IterOK(e, it)
    && Sized(d.ht0) && Sized(d.ht1) && Sized(e.ht0) && Sized(e.ht1)
    && e.iterators == d.iterators
    && forall q: K :: Some(q) != except ==> (Ahead(e, it, q, h) <==> Ahead(d, it, q, h))
  }

  lemma StillAheadTrans<K(!new), V>(d: Dict<K, V>, e: Dict<K, V>, f: Dict<K, V>, it: Iter<K>, except: Option<K>, h: K -> bv64)
    requires DictOK(d, h) && IterOK(d, it)
    requires StillAhead(d, e, it, None, h) && StillAhead(e, f, it, except, h)
    ensures StillAhead(d, f, it, except, h)
  {
    hide DictOK;
    hide IterOK;
    hide Ahead;
  }

  /** A new empty second table adds nothing to the walk. */
  lemma GrownAhead<K(!new), V>(d: Dict<K, V>, e: Dict<K, V>, it: Iter<K>, h: K -> bv64)
    requires DictOK(d, h) && IterOK(d, it) && it.entry.Some? && !IsRehashing(d)
    requires DictOK(e, h) && e == d.(ht1 := e.ht1, rehashidx := 0)
    requires Sized(e.ht1) && forall k: K :: FindIn(e.ht1, k, h).None?
    ensures StillAhead(d, e, it, None, h)
  {
    assert forall k: K :: FindIn<K, V>(Reset(), k, h).None?;
    TableOKSized(d.ht0, h);
    hide TableOK;
    hide AheadIn;
    hide FindIn;
    hide FindKey;
  }

  lemma ExpandAhead<K(!new), V>(d: Dict<K, V>, it: Iter<K>, canResize: bool, h: K -> bv64)
    requires DictOK(d, h) && IterOK(d, it) && it.entry.Some? && d.ht0.used * 2 < Ops.LONG_MAX
    ensures StillAhead(d, Ops.ExpandIfNeeded(d, canResize).0, it, None, h)
  {
    Ops.ExpandIfNeededOK(d, canResize, h);
    var e := Ops.ExpandIfNeeded(d, canResize).0;
    EnoughToInsert(d, h);
    if e != d {
      var n := Ops.NextExp(d.ht0.used * 2, Ops.INITIAL_EXP);
      Ops.NextExpBound(d.ht0.used * 2);
      Ops.NewTableOK<K, V>(n, h);
      assert e == d.(ht1 := Ops.NewTable(n), rehashidx := 0);
      hide *;
      EnoughToInsert(e, h);
      GrownAhead(d, e, it, h);
    }
  }

  /** Where the iterator is in one of the two tables: before the first bucket of the one it does
      not walk. */
  function Place<K>(it: Iter<K>, table: nat): (int, Option<K>) {
    if it.table == table then (it.index, Saved(it)) else (-1, None)
  }

  lemma {:induction false} SameWays<K(!new), V>(d: Dict<K, V>, e: Dict<K, V>, it: Iter<K>, except: Option<K>, h: K -> bv64)
    requires DictOK(d, h) && IterOK(d, it) && DictOK(e, h)
    requires it.entry.Some? && e.iterators == d.iterators && e.rehashidx == d.rehashidx
    requires Sized(d.ht0) && Sized(d.ht1) && Sized(e.ht0) && Sized(e.ht1)
    requires SameWay(d.ht0, e.ht0, Place(it, 0).0, Place(it, 0).1, except, h)
    requires SameWay(d.ht1, e.ht1, Place(it, 1).0, Place(it, 1).1, except, h)
    ensures StillAhead(d, e, it, except, h)
  {
    hide DictOK;
    hide AheadIn;
    hide FindIn;
    hide From;
    hide FindKey;
    forall q: K | Some(q) != except ensures Ahead(e, it, q, h) <==> Ahead(d, it, q, h) {
      SameWayAhead(At(d, it.table), At(e, it.table), it.index, Saved(it), except, q, h);
    }
  }

  lemma SameWayRefl<K(!new), V>(d: Dict<K, V>, it: Iter<K>, table: nat, except: Option<K>, h: K -> bv64)
    requires DictOK(d, h) && IterOK(d, it) && table <= 1
    ensures Sized(At(d, table))
    ensures SameWay(At(d, table), At(d, table), Place(it, table).0, Place(it, table).1, except, h)
  {
    TableOKSized(At(d, table), h);
    hide TableOK;
    hide FindKey;
    hide From;
    hide FindIn;
  }

  lemma InsertAhead<K(!new), V>(d: Dict<K, V>, it: Iter<K>, e: Entry<K, V>, h: K -> bv64)
    requires DictOK(d, h) && IterOK(d, it) && it.entry.Some? && d.ht0.buckets != []
    requires Sized(d.ht0) && Sized(d.ht1) && Lookup(d, e.key, h).None?
    ensures StillAhead(d, Ops.Insert(d, e, h), it, Some(e.key), h)
  {
    Ops.InsertOK(d, e, h);
    SameWayRefl(d, it, 0, Some(e.key), h);
    SameWayRefl(d, it, 1, Some(e.key), h);
    hide TableOK;
    hide FindIn;
    hide FindKey;
    hide SameWay;
    hide Push;
    if IsRehashing(d) {
      PushWay(d.ht1, Place(it, 1).0, Place(it, 1).1, e, h);
    } else {
      PushWay(d.ht0, Place(it, 0).0, Place(it, 0).1, e, h);
    }
    SameWays(d, Ops.Insert(d, e, h), it, Some(e.key), h);
  }

  lemma SetAhead<K(!new), V>(d: Dict<K, V>, it: Iter<K>, k: K, v: V, h: K -> bv64)
    requires DictOK(d, h) && IterOK(d, it) && it.entry.Some? && Sized(d.ht0) && Sized(d.ht1)
    ensures StillAhead(d, Ops.SetValue(d, k, v, h), it, None, h)
  {
    Ops.SetValueOK(d, k, v, h);
    SameWayRefl(d, it, 0, None, h);
    SameWayRefl(d, it, 1, None, h);
    hide TableOK;
    hide FindIn;
    hide FindKey;
    hide SameWay;
    hide Ops.SetIn;
    if FindIn(d.ht0, k, h).Some? {
      SetWay(d.ht0, Place(it, 0).0, Place(it, 0).1, k, v, h);
    } else {
      SetWay(d.ht1, Place(it, 1).0, Place(it, 1).1, k, v, h);
    }
    SameWays(d, Ops.SetValue(d, k, v, h), it, None, h);
  }

  lemma DeleteAhead<K(!new), V>(d: Dict<K, V>, it: Iter<K>, k: K, h: K -> bv64)
    requires DictOK(d, h) && IterOK(d, it) && it.entry.Some? && d.iterators > 0 && Saved(it) != Some(k)
    ensures StillAhead(d, Ops.Delete(d, k, h).0, it, Some(k), h)
  {
    Ops.DeleteOK(d, k, h);
    Ops.StepOK(d, h);
    SameWayRefl(d, it, 0, Some(k), h);
    SameWayRefl(d, it, 1, Some(k), h);
    hide TableOK;
    hide FindIn;
    hide FindKey;
    hide SameWay;
    hide Ops.UnlinkIn;
    hide Ops.Step;
    if FindIn(d.ht0, k, h).Some? {
      UnlinkWay(d.ht0, Place(it, 0).0, Place(it, 0).1, k, h);
    } else if FindIn(d.ht1, k, h).Some? {
      UnlinkWay(d.ht1, Place(it, 1).0, Place(it, 1).1, k, h);
    }
    SameWays(d, Ops.Delete(d, k, h).0, it, Some(k), h);
  }

  lemma AddAhead<K(!new), V>(d: Dict<K, V>, it: Iter<K>, k: K, v: V, canResize: bool, h: K -> bv64)
    requires DictOK(d, h) && IterOK(d, it) && it.entry.Some? && d.iterators > 0
    requires d.ht0.used * 2 < Ops.LONG_MAX
    ensures Ops.Step(d, h) == d
    ensures var r := Ops.Add(d, k, v, canResize, h);
      StillAhead(d, r.0, it, if r.1.Added? then Some(k) else None, h)
  {
    Ops.StepOK(d, h);
    Ops.ExpandIfNeededOK(d, canResize, h);
    ExpandAhead(d, it, canResize, h);
    var e := Ops.ExpandIfNeeded(d, canResize).0;
    EnoughToInsert(e, h);
    hide DictOK;
    hide IterOK;
    hide Lookup;
    hide Ops.ExpandIfNeeded;
    hide Ops.Step;
    hide Ops.Slot;
    hide Ahead;
    if Ops.Add(d, k, v, canResize, h).1.Added? {
      InsertAhead(e, it, Entry(k, v), h);
      StillAheadTrans(d, e, Ops.Insert(e, Entry(k, v), h), it, Some(k), h);
    }
  }

  lemma EnoughToInsert<K(!new), V>(d: Dict<K, V>, h: K -> bv64)
    requires DictOK(d, h)
    ensures Sized(d.ht0) && Sized(d.ht1)
  {
  }

  lemma OverwriteAhead<K(!new), V>(d: Dict<K, V>, it: Iter<K>, k: K, v: V, h: K -> bv64)
    requires DictOK(d, h) && IterOK(d, it) && it.entry.Some? && d.iterators > 0
    ensures StillAhead(d, Ops.Overwrite(d, k, v, h), it, None, h)
  {
    Ops.StepOK(d, h);
    EnoughToInsert(d, h);
    hide DictOK;
    hide Ops.Step;
    hide Ops.SetValue;
    hide Lookup;
    hide StillAhead;
    SetAhead(d, it, k, v, h);
    assert Ops.Find(d, k, h).0 == d;
  }

  lemma ReplaceAhead<K(!new), V>(d: Dict<K, V>, it: Iter<K>, k: K, v: V, canResize: bool, h: K -> bv64)
    requires DictOK(d, h) && IterOK(d, it) && it.entry.Some? && d.iterators > 0
    requires d.ht0.used * 2 < Ops.LONG_MAX
    ensures Ops.Step(d, h) == d
    ensures var r := Ops.Replace(d, k, v, canResize, h);
      !r.1.Broken? ==> StillAhead(d, r.0, it, if r.1.Inserted? then Some(k) else None, h)
  {
    AddAhead(d, it, k, v, canResize, h);
    var r := Ops.Add(d, k, v, canResize, h);
    hide DictOK;
    hide IterOK;
    hide Ops.Add;
    hide Ops.Overwrite;
    hide Ahead;
    if r.1.Refused? && Ops.Replace(d, k, v, canResize, h).1.Overwritten? {
      OverwriteAhead(r.0, it, k, v, h);
      StillAheadTrans(d, r.0, Ops.Overwrite(r.0, k, v, h), it, None, h);
    }
  }

  lemma AheadIsPresent<K(!new), V>(d: Dict<K, V>, it: Iter<K>, k: K, h: K -> bv64)
    requires DictOK(d, h) && IterOK(d, it)
    ensures Sized(d.ht0) && Sized(d.ht1)
    ensures Ahead(d, it, k, h) ==> Lookup(d, k, h).Some?
  {
    TableOKSized(d.ht0, h);
    TableOKSized(d.ht1, h);
    hide TableOK;
    hide FindIn;
    hide Bucket;
  }

  lemma AllAhead<K(!new), V>(d: Dict<K, V>, k: K, h: K -> bv64)
    requires DictOK(d, h)
    ensures Sized(d.ht0) && Sized(d.ht1)
    ensures Ahead(d, Fresh(), k, h) <==> Lookup(d, k, h).Some?
  {
    TableOKSized(d.ht1, h);
    StartOfTable(d.ht0, h);
    hide TableOK;
    hide FindIn;
    hide AheadIn;
  }
}
