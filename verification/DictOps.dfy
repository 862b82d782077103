/** The operations of dict.c that change which entries there are, as functions on the model, and
    what each does to the contents: add, find, delete and replace agree with a finite map at every
    point of incremental rehashing. */
module DictOps {
  import opened Words
  import opened Options
  import opened DictModel

  const INITIAL_EXP := 2 // DICT_HT_INITIAL_SIZE is 4
  const LONG_MAX := 0x7FFF_FFFF_FFFF_FFFF
  const FORCE_RESIZE_RATIO := 5

  // ---- Expanding ----

  /** The exponent `_dictNextPower` stops at, starting from `e`. */
  function NextExp(size: nat, e: nat): (r: nat)
    ensures r >= e && Pow2(r) >= size
    ensures r > e ==> Pow2(r - 1) < size
    decreases size - Pow2(e)
  {
    if Pow2(e) >= size then e else NextExp(size, e + 1)
  }

  lemma {:induction false} Pow2Grows(a: nat, b: nat)
    requires a <= b
    ensures Pow2(a) <= Pow2(b)
    decreases b - a
  {
    if a < b {
      Pow2Grows(a + 1, b);
    }
  }

  lemma Pow2At15()
    ensures Pow2(15) == 0x8000 && Pow2(16) == 0x1_0000
  {
    assert Pow2(8) == 0x100;
    assert Pow2(7) == 0x80;
    Pow2Adds(8, 7);
  }

  lemma Pow2At62()
    ensures Pow2(62) == 0x4000_0000_0000_0000
  {
    Pow2At15();
    Pow2Adds(16, 15);
    Pow2Adds(31, 31);
  }

  lemma {:induction false} Pow2Adds(a: nat, b: nat)
    ensures Pow2(a + b) == Pow2(a) * Pow2(b)
    decreases b
  {
    if b > 0 {
      Pow2Adds(a, b - 1);
      assert Pow2(a + b) == 2 * Pow2(a + (b - 1));
      assert Pow2(a) * (2 * Pow2(b - 1)) == 2 * (Pow2(a) * Pow2(b - 1));
    }
  }

  lemma NextExpBound(size: nat)
    requires size < LONG_MAX
    ensures NextExp(size, INITIAL_EXP) <= 63
  {
    var e := NextExp(size, INITIAL_EXP);
    if e > 63 {
      Pow2At62();
      assert Pow2(63) == 2 * Pow2(62);
      Pow2Grows(63, e - 1);
    }
  }

  ghost function NewTable<K, V>(e: nat): Table<K, V> {
    Table(seq(Pow2(e), _ => []), LowBits(e), 0)
  }

  lemma NewTableOK<K(!new), V>(e: nat, h: K -> bv64)
    requires e <= 63
    ensures TableOK<K, V>(NewTable(e), h) && NewTable<K, V>(e).buckets != []
    ensures forall k: K :: FindIn<K, V>(NewTable(e), k, h).None?
  {
    hide Bucket;
    hide Low;
    hide Index;
    LowBitsMask(e);
    var t: Table<K, V> := NewTable(e);
    assert |t.buckets| == Pow2(e) && t.buckets != [];
    EmptyBuckets(t.buckets);
    assert Total(t.buckets) == 0;
  }

  lemma {:induction false} EmptyBuckets<K, V>(b: seq<seq<Entry<K, V>>>)
    requires forall i :: 0 <= i < |b| ==> b[i] == []
    ensures Total(b) == 0
  {
    if b != [] {
      EmptyBuckets(b[1..]);
    }
  }

  /** `dictExpand`: the dictionary and whether it succeeded. */
  ghost function Expand<K, V>(d: Dict<K, V>, size: nat): (Dict<K, V>, bool) {
    var e := NextExp(size, INITIAL_EXP);
    if IsRehashing(d) || d.ht0.used > size || Pow2(e) == |d.ht0.buckets| then (d, false)
    else if d.ht0.buckets == [] then (d.(ht0 := NewTable(e)), true)
    else (d.(ht1 := NewTable(e), rehashidx := 0), true)
  }

  lemma ExpandOK<K(!new), V>(d: Dict<K, V>, size: nat, h: K -> bv64)
    requires DictOK(d, h) && size < LONG_MAX
    ensures DictOK(Expand(d, size).0, h) && SameContents(d, Expand(d, size).0, h)
    ensures Expand(d, size).0.iterators == d.iterators
  {
    NextExpBound(size);
    NewTableOK<K, V>(NextExp(size, INITIAL_EXP), h);
    hide NewTable;
    assert forall k: K :: FindIn<K, V>(Reset(), k, h).None?;
    hide Bucket;
    hide Placed;
  }

  /** `_dictExpandIfNeeded`. */
  ghost function ExpandIfNeeded<K, V>(d: Dict<K, V>, canResize: bool): (Dict<K, V>, bool) {
    if IsRehashing(d) then (d, true)
    else if d.ht0.buckets == [] then Expand(d, Pow2(INITIAL_EXP))
    else if d.ht0.used >= |d.ht0.buckets| &&
            (canResize || d.ht0.used / |d.ht0.buckets| > FORCE_RESIZE_RATIO) then Expand(d, d.ht0.used * 2)
    else (d, true)
  }

  /** Expansion on demand never fails, keeps the contents, and leaves a table to insert into. */
  lemma ExpandIfNeededOK<K(!new), V>(d: Dict<K, V>, canResize: bool, h: K -> bv64)
    requires DictOK(d, h) && d.ht0.used * 2 < LONG_MAX
    ensures var r := ExpandIfNeeded(d, canResize);
      && r.1
      && DictOK(r.0, h)
      && SameContents(d, r.0, h)
      && r.0.ht0.buckets != []
      && r.0.iterators == d.iterators
  {
    if !IsRehashing(d) {
      if d.ht0.buckets == [] {
        assert Pow2(INITIAL_EXP) == 4;
        ExpandOK(d, 4, h);
        NextExpBound(4);
        NewTableOK<K, V>(NextExp(4, INITIAL_EXP), h);
      } else {
        ExpandOK(d, d.ht0.used * 2, h);
        ExpandIfNeededSucceeds(d, canResize, h);
      }
    }
  }

  lemma ExpandIfNeededSucceeds<K(!new), V>(d: Dict<K, V>, canResize: bool, h: K -> bv64)
    requires DictOK(d, h) && !IsRehashing(d) && d.ht0.buckets != []
    ensures ExpandIfNeeded(d, canResize).1 && ExpandIfNeeded(d, canResize).0.ht0.buckets != []
  {
  }

  // ---- One step of rehashing before each operation ----

  /** `_dictRehashStep`, done by every operation while rehashing: nothing moves while a safe
      iterator is at work. */
  ghost function Step<K(!new), V>(d: Dict<K, V>, h: K -> bv64): Dict<K, V>
    requires DictOK(d, h)
  {
    if d.iterators == 0 then Rehash(d, 1, h).0 else d
  }

  lemma StepOK<K(!new), V>(d: Dict<K, V>, h: K -> bv64)
    requires DictOK(d, h)
    ensures DictOK(Step(d, h), h) && SameContents(d, Step(d, h), h)
    ensures Step(d, h).iterators == d.iterators
    ensures d.iterators > 0 || !IsRehashing(d) ==> Step(d, h) == d
    ensures d.iterators == 0 && IsRehashing(Step(d, h)) ==> Step(d, h).rehashidx > d.rehashidx
    ensures |Step(d, h).ht0.buckets| == 0 <==> |d.ht0.buckets| == 0
  {
    RehashOK(d, 1, h);
    hide FindIn;
  }

  // ---- Adding ----

  /** Insert into the table that takes new entries: the second one while rehashing. */
  ghost function Insert<K, V>(d: Dict<K, V>, e: Entry<K, V>, h: K -> bv64): Dict<K, V>
    requires Sized(d.ht0) && Sized(d.ht1)
    requires d.ht0.buckets != [] && (IsRehashing(d) ==> d.ht1.buckets != [])
  {
    if IsRehashing(d) then d.(ht1 := Push(d.ht1, e, h)) else d.(ht0 := Push(d.ht0, e, h))
  }

  lemma InsertOK<K(!new), V>(d: Dict<K, V>, e: Entry<K, V>, h: K -> bv64)
    requires DictOK(d, h) && d.ht0.buckets != [] && Lookup(d, e.key, h).None?
    ensures DictOK(Insert(d, e, h), h)
    ensures forall k: K :: Lookup(Insert(d, e, h), k, h) == if k == e.key then Some(e.val) else Lookup(d, k, h)
  {
    if IsRehashing(d) {
      PushOK(d.ht1, e, h);
    } else {
      PushOK(d.ht0, e, h);
      assert forall k: K :: FindIn<K, V>(Reset(), k, h).None?;
    }
    hide TableOK;
    hide FindIn;
  }

  /** Adding with a bucket index of any width: the dictionary and whether the key was added. */
  ghost function AddWide<K(!new), V>(d: Dict<K, V>, k: K, v: V, canResize: bool, h: K -> bv64): (Dict<K, V>, bool)
    requires DictOK(d, h) && Step(d, h).ht0.used * 2 < LONG_MAX
  {
    StepOK(d, h);
    ExpandIfNeededOK(Step(d, h), canResize, h);
    var r := ExpandIfNeeded(Step(d, h), canResize);
    if !r.1 || Lookup(r.0, k, h).Some? then (r.0, false)
    else (Insert(r.0, Entry(k, v), h), true)
  }

  /** That add succeeds if and only if the key was absent, and then adds exactly that binding. */
  lemma AddWideOK<K(!new), V>(d: Dict<K, V>, k: K, v: V, canResize: bool, h: K -> bv64)
    requires DictOK(d, h) && Step(d, h).ht0.used * 2 < LONG_MAX
    ensures var r := AddWide(d, k, v, canResize, h);
      && DictOK(r.0, h)
      && (r.1 <==> Lookup(d, k, h).None?)
      && (forall q: K :: Lookup(r.0, q, h) == if q == k && r.1 then Some(v) else Lookup(d, q, h))
      && r.0.iterators == d.iterators
  {
    StepOK(d, h);
    ExpandIfNeededOK(Step(d, h), canResize, h);
    var e := ExpandIfNeeded(Step(d, h), canResize).0;
    if Lookup(e, k, h).None? {
      InsertOK(e, Entry(k, v), h);
    }
    hide Insert;
    hide TableOK;
    hide FindIn;
    hide Step;
    hide ExpandIfNeeded;
  }

  // ---- The index is an int ----

  const INT_RANGE := 0x1_0000_0000
  const INT_MAX := 0x7FFF_FFFF

  /** A number stored in a 32-bit signed integer. */
  function AsInt(i: nat): (r: int)
    ensures r == i <==> i <= INT_MAX
    ensures r == -1 <==> i % INT_RANGE == INT_RANGE - 1
  {
    var low := i % INT_RANGE;
    if low <= INT_MAX then low else low - INT_RANGE
  }

  /** The table that takes new entries. */
  function Target<K, V>(d: Dict<K, V>): Table<K, V> {
    if IsRehashing(d) then d.ht1 else d.ht0
  }

  /** The bucket that `k` belongs to there. */
  ghost function Slot<K, V>(d: Dict<K, V>, k: K, h: K -> bv64): nat {
    Bucket(h(k), Target(d).mask)
  }

  /** What `_dictKeyIndex` returns after expanding (dict.c:989-1001): -1 for a present key. */
  ghost function KeyIndex<K, V>(d: Dict<K, V>, k: K, h: K -> bv64): int
    requires Sized(d.ht0) && Sized(d.ht1)
  {
    if Lookup(d, k, h).Some? then -1 else AsInt(Slot(d, k, h))
  }

  /** The entry is linked; the add is refused; or the entry is linked outside its bucket, at an index
      that is not that of the bucket and may be outside the table. */
  datatype Insertion = Added | Refused | Astray

  /** The dictionary after the rehash step and the expansion. */
  ghost function Prepared<K(!new), V>(d: Dict<K, V>, canResize: bool, h: K -> bv64): (e: Dict<K, V>)
    requires DictOK(d, h) && Step(d, h).ht0.used * 2 < LONG_MAX
    ensures DictOK(e, h) && e.ht0.buckets != []
  {
    StepOK(d, h);
    ExpandIfNeededOK(Step(d, h), canResize, h);
    ExpandIfNeeded(Step(d, h), canResize).0
  }

  /** The bucket of the key has a number that an `int` can hold. */
  ghost predicate Fits<K(!new), V>(d: Dict<K, V>, k: K, canResize: bool, h: K -> bv64)
    requires DictOK(d, h) && Step(d, h).ht0.used * 2 < LONG_MAX
  {
    Slot(Prepared(d, canResize, h), k, h) <= INT_MAX
  }

  lemma DictSized<K(!new), V>(d: Dict<K, V>, h: K -> bv64)
    requires DictOK(d, h)
    ensures Sized(d.ht0) && Sized(d.ht1) && (IsRehashing(d) ==> d.ht1.buckets != [])
  {
  }

  /** `dictAdd`: the dictionary, and what became of the entry. */
  ghost function Add<K(!new), V>(d: Dict<K, V>, k: K, v: V, canResize: bool, h: K -> bv64): (Dict<K, V>, Insertion)
    requires DictOK(d, h) && Step(d, h).ht0.used * 2 < LONG_MAX
  {
    var e := Prepared(d, canResize, h);
    DictSized(e, h);
    var index := KeyIndex(e, k, h);
    if index == -1 then (e, Refused)
    else if index != Slot(e, k, h) then (e, Astray)
    else (Insert(e, Entry(k, v), h), Added)
  }

  lemma PreparedSame<K(!new), V>(d: Dict<K, V>, k: K, v: V, canResize: bool, h: K -> bv64)
    requires DictOK(d, h) && Step(d, h).ht0.used * 2 < LONG_MAX
    ensures var e := Prepared(d, canResize, h);
      && Sized(d.ht0) && Sized(d.ht1) && Sized(e.ht0) && Sized(e.ht1)
      && SameContents(d, e, h) && e.iterators == d.iterators && Lookup(e, k, h) == Lookup(d, k, h)
      && (IsRehashing(e) ==> e.ht1.buckets != [])
      && AddWide(d, k, v, canResize, h) ==
         if Lookup(e, k, h).Some? then (e, false) else (Insert(e, Entry(k, v), h), true)
  {
    StepOK(d, h);
    ExpandIfNeededOK(Step(d, h), canResize, h);
    DictSized(d, h);
    DictSized(Prepared(d, canResize, h), h);
    hide Insert;
    hide TableOK;
    hide FindIn;
    hide Step;
    hide ExpandIfNeeded;
  }

  /** The add of the code is the wide one if and only if the key is present or its bucket number fits. */
  lemma AddIsWide<K(!new), V>(d: Dict<K, V>, k: K, v: V, canResize: bool, h: K -> bv64)
    requires DictOK(d, h) && Step(d, h).ht0.used * 2 < LONG_MAX
    ensures Sized(d.ht0) && Sized(d.ht1)
    ensures var r, w := Add(d, k, v, canResize, h), AddWide(d, k, v, canResize, h);
      && ((r.1 == if w.1 then Added else Refused) <==> Lookup(d, k, h).Some? || Fits(d, k, canResize, h))
      && (Lookup(d, k, h).Some? || Fits(d, k, canResize, h) ==> r.0 == w.0)
  {
    PreparedSame(d, k, v, canResize, h);
    hide *;
    AddIs(d, k, v, canResize, h);
    FitsIs(d, k, canResize, h);
  }

  lemma FitsIs<K(!new), V>(d: Dict<K, V>, k: K, canResize: bool, h: K -> bv64)
    requires DictOK(d, h) && Step(d, h).ht0.used * 2 < LONG_MAX
    ensures Fits(d, k, canResize, h) <==> Slot(Prepared(d, canResize, h), k, h) <= INT_MAX
  {
    hide DictOK;
    hide Prepared;
    hide Slot;
    hide Step;
  }

  lemma AddIs<K(!new), V>(d: Dict<K, V>, k: K, v: V, canResize: bool, h: K -> bv64)
    requires DictOK(d, h) && Step(d, h).ht0.used * 2 < LONG_MAX
    ensures var e := Prepared(d, canResize, h);
      && Sized(e.ht0) && Sized(e.ht1) && (IsRehashing(e) ==> e.ht1.buckets != [])
      && var i := Slot(e, k, h);
      && (Lookup(e, k, h).Some? ==> Add(d, k, v, canResize, h) == (e, Refused))
      && (Lookup(e, k, h).None? && i <= INT_MAX ==> Add(d, k, v, canResize, h) == (Insert(e, Entry(k, v), h), Added))
      && (Lookup(e, k, h).None? && i > INT_MAX ==>
            Add(d, k, v, canResize, h) == (e, if i % INT_RANGE == INT_RANGE - 1 then Refused else Astray))
  {
    DictSized(Prepared(d, canResize, h), h);
    hide DictOK;
    hide Prepared;
    hide Insert;
    hide Lookup;
    hide Slot;
    hide AsInt;
  }

  /** What add does, in every case. It succeeds if and only if the key was absent and its bucket number
      fits an `int`; an absent key is refused exactly when the low 32 bits of its bucket number are all
      ones. */
  lemma AddOK<K(!new), V>(d: Dict<K, V>, k: K, v: V, canResize: bool, h: K -> bv64)
    requires DictOK(d, h) && Step(d, h).ht0.used * 2 < LONG_MAX
    ensures var r, i := Add(d, k, v, canResize, h), Slot(Prepared(d, canResize, h), k, h);
      && DictOK(r.0, h) && Sized(d.ht0) && Sized(d.ht1) && Sized(r.0.ht0) && Sized(r.0.ht1)
      && (r.1.Added? <==> Lookup(d, k, h).None? && i <= INT_MAX)
      && (r.1.Refused? <==> Lookup(d, k, h).Some? || i % INT_RANGE == INT_RANGE - 1)
      && (forall q: K :: Lookup(r.0, q, h) == if q == k && r.1.Added? then Some(v) else Lookup(d, q, h))
      && r.0.iterators == d.iterators
  {
    PreparedSame(d, k, v, canResize, h);
    AddIs(d, k, v, canResize, h);
    AddWideOK(d, k, v, canResize, h);
    hide DictOK;
    hide AddWide;
    hide Add;
    hide Insert;
    hide Prepared;
    hide Slot;
    hide Lookup;
  }

  /** With at most 2^31 buckets in the table that takes new entries every bucket number fits, and add
      succeeds if and only if the key was absent. */
  lemma FewBucketsFit<K(!new), V>(d: Dict<K, V>, k: K, v: V, canResize: bool, h: K -> bv64)
    requires DictOK(d, h) && Step(d, h).ht0.used * 2 < LONG_MAX
    requires |Target(Prepared(d, canResize, h)).buckets| <= INT_MAX + 1
    ensures Sized(d.ht0) && Sized(d.ht1)
    ensures Fits(d, k, canResize, h)
    ensures Add(d, k, v, canResize, h).1 == if Lookup(d, k, h).None? then Added else Refused
  {
    var e := Prepared(d, canResize, h);
    DictSized(e, h);
    BucketBound(h(k), Target(e).mask);
    AddOK(d, k, v, canResize, h);
    hide DictOK;
    hide Prepared;
    hide Add;
    hide Lookup;
    hide Bucket;
  }

  lemma Pow2At32()
    ensures Pow2(32) == INT_RANGE
  {
    Pow2At15();
    Pow2Adds(16, 16);
  }

  lemma SelfMasked(m: bv64)
    ensures Bucket(m, m) == Index(m)
  {
    BucketIs(m, m);
    MaskedBySelf(m);
    hide Index;
  }

  lemma MaskedBySelf(m: bv64)
    ensures m & m == m
  {
  }

  lemma IdlePrepared<K(!new), V>(d: Dict<K, V>, canResize: bool, h: K -> bv64)
    requires DictOK(d, h) && !IsRehashing(d) && d.ht0.used == 0 && d.ht0.buckets != []
    ensures Step(d, h) == d && Prepared(d, canResize, h) == d
  {
    StepOK(d, h);
    hide DictOK;
    hide Step;
  }

  /** A dictionary with an empty table of 2^e buckets. */
  ghost function Unused<K, V>(e: nat): Dict<K, V> {
    Dict(NewTable(e), Reset(), -1, 0)
  }

  lemma UnusedOK<K(!new), V>(e: nat, h: K -> bv64)
    requires e <= 63
    ensures var d := Unused<K, V>(e);
      && DictOK(d, h) && !IsRehashing(d) && d.ht0.used == 0 && d.ht0.buckets != [] && |d.ht0.buckets| == Pow2(e)
      && d.ht0.mask == LowBits(e) && forall k: K :: Lookup(d, k, h).None?
  {
    NewTableOK<K, V>(e, h);
    hide LowBits;
    hide Bucket;
    hide Low;
    hide Index;
    hide Placed;
  }

  lemma LastSlot<K(!new), V>(e: nat, k: K, h: K -> bv64)
    requires e <= 63 && h(k) == LowBits(e)
    ensures DictOK(Unused<K, V>(e), h) && Step(Unused<K, V>(e), h).ht0.used * 2 < LONG_MAX
    ensures Slot(Prepared(Unused<K, V>(e), true, h), k, h) == Pow2(e) - 1
  {
    UnusedOK<K, V>(e, h);
    LowBitsMask(e);
    SelfMasked(LowBits(e));
    hide Unused;
    hide DictOK;
    hide LowBits;
    hide Low;
    hide Index;
    hide Bucket;
    hide Step;
    hide Prepared;
    IdlePrepared(Unused<K, V>(e), true, h);
  }

  lemma RefusedAt<K(!new), V>(e: nat, k: K, v: V, h: K -> bv64)
    requires e <= 63 && Pow2(e) == INT_RANGE && h(k) == LowBits(e)
    ensures var d := Unused<K, V>(e);
      && DictOK(d, h) && Sized(d.ht0) && Sized(d.ht1) && |d.ht0.buckets| == INT_RANGE
      && Step(d, h).ht0.used * 2 < LONG_MAX && Lookup(d, k, h).None?
      && Add(d, k, v, true, h).1 == Refused
  {
    hide LowBits;
    hide Pow2;
    hide Unused;
    hide DictOK;
    hide Step;
    hide Prepared;
    hide Slot;
    hide Add;
    hide Lookup;
    UnusedOK<K, V>(e, h);
    LastSlot<K, V>(e, k, h);
    AddOK(Unused<K, V>(e), k, v, true, h);
  }

  /** The bound is needed: an empty table of 2^32 buckets refuses a key whose hash is 2^32 - 1. */
  lemma AbsentKeyRefused<K(!new), V>(k: K, v: V, h: K -> bv64) returns (d: Dict<K, V>)
    requires h(k) == 0xFFFF_FFFF
    ensures DictOK(d, h) && Sized(d.ht0) && Sized(d.ht1) && |d.ht0.buckets| == INT_RANGE
    ensures Step(d, h).ht0.used * 2 < LONG_MAX && Lookup(d, k, h).None?
    ensures Add(d, k, v, true, h).1 == Refused
  {
    hide *;
    Pow2At32();
    LowBits32();
    RefusedAt(32, k, v, h);
    d := Unused(32);
  }

  // ---- Finding ----

  /** `dictFind`: the dictionary after the rehash step, and the value found. */
  ghost function Find<K(!new), V>(d: Dict<K, V>, k: K, h: K -> bv64): (Dict<K, V>, Option<V>)
    requires DictOK(d, h)
  {
    if d.ht0.buckets == [] then (d, None)
    else
      StepOK(d, h);
      (Step(d, h), Lookup(Step(d, h), k, h))
  }

  /** Finding returns what the dictionary holds and leaves the contents alone. */
  lemma FindOK<K(!new), V>(d: Dict<K, V>, k: K, h: K -> bv64)
    requires DictOK(d, h)
    ensures DictOK(Find(d, k, h).0, h) && SameContents(d, Find(d, k, h).0, h)
    ensures Find(d, k, h).1 == Lookup(d, k, h)
    ensures Find(d, k, h).0.iterators == d.iterators
  {
    StepOK(d, h);
    hide Step;
    hide DictOK;
    EmptyDictFindsNothing(d, k, h);
  }

  lemma EmptyDictFindsNothing<K(!new), V>(d: Dict<K, V>, k: K, h: K -> bv64)
    requires DictOK(d, h)
    ensures Sized(d.ht0) && Sized(d.ht1)
    ensures d.ht0.buckets == [] ==> Lookup(d, k, h).None?
  {
  }

  // ---- Changing the value of a present key ----

  /** The chain with the first entry of key `k` holding `v`. */
  ghost function SetInChain<K, V>(c: seq<Entry<K, V>>, k: K, v: V): (r: seq<Entry<K, V>>)
    ensures |r| == |c|
    ensures forall i :: 0 <= i < |c| ==> r[i].key == c[i].key
  {
    if c == [] then [] else if c[0].key == k then [Entry(k, v)] + c[1..] else [c[0]] + SetInChain(c[1..], k, v)
  }

  lemma {:induction false} SetInChainFinds<K, V>(c: seq<Entry<K, V>>, k: K, v: V, q: K)
    ensures FindKey(SetInChain(c, k, v), q) ==
            if q == k && FindKey(c, k).Some? then Some(v) else FindKey(c, q)
  {
    if c != [] {
      var r := SetInChain(c, k, v);
      if c[0].key == k {
        assert r[1..] == c[1..];
      } else {
        assert r[1..] == SetInChain(c[1..], k, v);
        SetInChainFinds(c[1..], k, v, q);
      }
    }
  }

  /** The table with the chain of `k` replaced by `c`, and `used` adjusted. */
  ghost function WithChain<K, V>(t: Table<K, V>, k: K, c: seq<Entry<K, V>>, h: K -> bv64): Table<K, V>
    requires Sized(t) && t.buckets != [] && t.used + |c| >= |ChainOf(t, k, h)|
  {
    Table(t.buckets[Bucket(h(k), t.mask) := c], t.mask, t.used + |c| - |ChainOf(t, k, h)|)
  }

  lemma SetBucketOK<K(!new), V>(t: Table<K, V>, b: nat, c: seq<Entry<K, V>>, h: K -> bv64)
    requires TableOK(t, h) && b < |t.buckets| && Distinct(c)
    requires forall i :: 0 <= i < |c| ==> Bucket(h(c[i].key), t.mask) == b
    ensures t.used + |c| >= |t.buckets[b]|
    ensures TableOK(Table(t.buckets[b := c], t.mask, t.used + |c| - |t.buckets[b]|), h)
  {
    hide Bucket;
    hide Low;
    hide Index;
    TotalAtLeast(t.buckets, b);
    TotalUpdate(t.buckets, b, c);
  }

  lemma KeysOfChain<K(!new), V>(t: Table<K, V>, k: K, key: K, h: K -> bv64)
    requires TableOK(t, h) && FindKey(ChainOf(t, k, h), key).Some?
    ensures Bucket(h(key), t.mask) == Bucket(h(k), t.mask)
  {
    hide Bucket;
    var j := FoundAt(ChainOf(t, k, h), key);
  }

  lemma FindAfterSet<K(!new), V>(t: Table<K, V>, k: K, c: seq<Entry<K, V>>, q: K, h: K -> bv64)
    requires Sized(t) && t.buckets != [] && t.used + |c| >= |ChainOf(t, k, h)|
    ensures Sized(WithChain(t, k, c, h))
    ensures FindIn(WithChain(t, k, c, h), q, h) ==
            if Bucket(h(q), t.mask) == Bucket(h(k), t.mask) then FindKey(c, q) else FindIn(t, q, h)
  {
    hide Bucket;
    hide FindKey;
  }

  /** Replacing a chain by one with keys from the same chain, each at most once, keeps the table
      well-formed. */
  lemma WithChainOK<K(!new), V>(t: Table<K, V>, k: K, c: seq<Entry<K, V>>, h: K -> bv64)
    requires TableOK(t, h) && t.buckets != [] && Distinct(c)
    requires forall i :: 0 <= i < |c| ==> FindKey(ChainOf(t, k, h), c[i].key).Some?
    ensures t.used + |c| >= |ChainOf(t, k, h)|
    ensures TableOK(WithChain(t, k, c, h), h) && WithChain(t, k, c, h).buckets != []
  {
    TableOKSized(t, h);
    hide TableOK;
    hide Bucket;
    hide FindKey;
    forall i | 0 <= i < |c| ensures Bucket(h(c[i].key), t.mask) == Bucket(h(k), t.mask) {
      KeysOfChain(t, k, c[i].key, h);
    }
    SetBucketOK(t, Bucket(h(k), t.mask), c, h);
  }

  lemma {:induction false} FoundAt<K, V>(c: seq<Entry<K, V>>, k: K) returns (j: nat)
    requires FindKey(c, k).Some?
    ensures j < |c| && c[j].key == k
  {
    if c[0].key == k {
      j := 0;
    } else {
      j := FoundAt(c[1..], k);
      j := j + 1;
    }
  }

  ghost function SetIn<K, V>(t: Table<K, V>, k: K, v: V, h: K -> bv64): Table<K, V>
    requires Sized(t)
  {
    if t.buckets == [] then t else WithChain(t, k, SetInChain(ChainOf(t, k, h), k, v), h)
  }

  lemma SetInOK<K(!new), V>(t: Table<K, V>, k: K, v: V, h: K -> bv64)
    requires TableOK(t, h)
    ensures TableOK(SetIn(t, k, v, h), h) && (SetIn(t, k, v, h).buckets == [] <==> t.buckets == [])
    ensures forall q: K :: FindIn(SetIn(t, k, v, h), q, h) ==
              if q == k && FindIn(t, k, h).Some? then Some(v) else FindIn(t, q, h)
  {
    if t.buckets != [] {
      var c := ChainOf(t, k, h);
      var r := SetInChain(c, k, v);
      assert Distinct(c);
      forall i | 0 <= i < |r| ensures FindKey(c, r[i].key).Some? {
        assert c[i].key == r[i].key;
      }
      WithChainOK(t, k, r, h);
      hide Bucket;
      hide Placed;
      forall q: K ensures FindIn(SetIn(t, k, v, h), q, h) ==
              if q == k && FindIn(t, k, h).Some? then Some(v) else FindIn(t, q, h) {
        SetInChainFinds(c, k, v, q);
        FindAfterSet(t, k, r, q, h);
        hide FindKey;
      }
    }
  }

  /** Store `v` in the entry of `k`, wherever it is. */
  ghost function SetValue<K, V>(d: Dict<K, V>, k: K, v: V, h: K -> bv64): Dict<K, V>
    requires Sized(d.ht0) && Sized(d.ht1)
  {
    if FindIn(d.ht0, k, h).Some? then d.(ht0 := SetIn(d.ht0, k, v, h)) else d.(ht1 := SetIn(d.ht1, k, v, h))
  }

  /** Look up a key again and store `v` in its entry (dict.c:401-408). */
  ghost function Overwrite<K(!new), V>(d: Dict<K, V>, k: K, v: V, h: K -> bv64): Dict<K, V>
    requires DictOK(d, h)
  {
    FindOK(d, k, h);
    SetValue(Find(d, k, h).0, k, v, h)
  }

  lemma OverwriteOK<K(!new), V>(d: Dict<K, V>, k: K, v: V, h: K -> bv64)
    requires DictOK(d, h)
    ensures DictOK(Overwrite(d, k, v, h), h)
    ensures forall q: K :: Lookup(Overwrite(d, k, v, h), q, h) ==
              if q == k && Lookup(d, k, h).Some? then Some(v) else Lookup(d, q, h)
  {
    FindOK(d, k, h);
    SetValueOK(Find(d, k, h).0, k, v, h);
    hide Find;
    hide SetValue;
    hide TableOK;
    hide FindIn;
  }

  lemma OverwriteSteps<K(!new), V>(d: Dict<K, V>, k: K, v: V, h: K -> bv64)
    requires DictOK(d, h) && d.ht0.buckets != []
    ensures DictOK(Step(d, h), h) && DictOK(Overwrite(d, k, v, h), h)
    ensures Overwrite(d, k, v, h) == SetValue(Step(d, h), k, v, h)
    ensures Lookup(Step(d, h), k, h) == Lookup(d, k, h) && Step(d, h).ht0.buckets != []
  {
    StepOK(d, h);
    OverwriteOK(d, k, v, h);
    hide SetValue;
    hide Step;
    hide Lookup;
    hide TableOK;
  }

  /** The key was new, its value was replaced, or the process ends: the entry is linked outside its
      bucket, or a refused absent key is looked up and the null entry found is followed (dict.c:402-407). */
  datatype Replacement = Inserted | Overwritten | Broken

  /** `dictReplace`. */
  ghost function Replace<K(!new), V>(d: Dict<K, V>, k: K, v: V, canResize: bool, h: K -> bv64): (Dict<K, V>, Replacement)
    requires DictOK(d, h) && Step(d, h).ht0.used * 2 < LONG_MAX
  {
    AddOK(d, k, v, canResize, h);
    var r := Add(d, k, v, canResize, h);
    if r.1.Added? then (r.0, Inserted)
    else if r.1.Astray? then (r.0, Broken)
    else if Lookup(r.0, k, h).None? then (Find(r.0, k, h).0, Broken)
    else (Overwrite(r.0, k, v, h), Overwritten)
  }

  lemma ReplaceIs<K(!new), V>(d: Dict<K, V>, k: K, v: V, canResize: bool, h: K -> bv64)
    requires DictOK(d, h) && Step(d, h).ht0.used * 2 < LONG_MAX
    ensures var r := Add(d, k, v, canResize, h);
      && DictOK(r.0, h) && Sized(r.0.ht0) && Sized(r.0.ht1) && r.0.ht0.buckets != []
      && Replace(d, k, v, canResize, h) ==
         if r.1.Added? then (r.0, Inserted)
         else if r.1.Astray? then (r.0, Broken)
         else if Lookup(r.0, k, h).None? then (Find(r.0, k, h).0, Broken)
         else (Overwrite(r.0, k, v, h), Overwritten)
  {
    AddOK(d, k, v, canResize, h);
    AddIs(d, k, v, canResize, h);
    InsertBuckets(Prepared(d, canResize, h), Entry(k, v), h);
    hide DictOK;
    hide Add;
    hide Prepared;
    hide Insert;
    hide Overwrite;
    hide Find;
    hide Lookup;
    hide Slot;
  }

  lemma InsertBuckets<K(!new), V>(d: Dict<K, V>, e: Entry<K, V>, h: K -> bv64)
    requires Sized(d.ht0) && Sized(d.ht1) && d.ht0.buckets != [] && (IsRehashing(d) ==> d.ht1.buckets != [])
    ensures Insert(d, e, h).ht0.buckets != []
  {
  }

  lemma SetInFirst<K(!new), V>(d: Dict<K, V>, k: K, v: V, h: K -> bv64)
    requires DictOK(d, h) && FindIn(d.ht0, k, h).Some?
    ensures var r := d.(ht0 := SetIn(d.ht0, k, v, h));
      DictOK(r, h) && forall q: K :: Lookup(r, q, h) == if q == k then Some(v) else Lookup(d, q, h)
  {
    SetInOK(d.ht0, k, v, h);
    SetKeepsBuckets(d.ht0, k, v, h);
    hide TableOK;
    hide FindIn;
    hide SetIn;
  }

  lemma SetInSecond<K(!new), V>(d: Dict<K, V>, k: K, v: V, h: K -> bv64)
    requires DictOK(d, h) && FindIn(d.ht0, k, h).None?
    ensures var r := d.(ht1 := SetIn(d.ht1, k, v, h));
      DictOK(r, h) &&
      forall q: K :: Lookup(r, q, h) == if q == k && Lookup(d, k, h).Some? then Some(v) else Lookup(d, q, h)
  {
    SetInOK(d.ht1, k, v, h);
    assert SetIn<K, V>(Reset(), k, v, h) == Reset();
    hide TableOK;
    hide FindIn;
    hide SetIn;
  }

  lemma SetValueOK<K(!new), V>(d: Dict<K, V>, k: K, v: V, h: K -> bv64)
    requires DictOK(d, h)
    ensures DictOK(SetValue(d, k, v, h), h)
    ensures forall q: K :: Lookup(SetValue(d, k, v, h), q, h) ==
              if q == k && Lookup(d, k, h).Some? then Some(v) else Lookup(d, q, h)
  {
    if FindIn(d.ht0, k, h).Some? {
      SetInFirst(d, k, v, h);
    } else {
      SetInSecond(d, k, v, h);
    }
    hide TableOK;
    hide FindIn;
    hide SetIn;
  }

  lemma SetKeepsBuckets<K, V>(t: Table<K, V>, k: K, v: V, h: K -> bv64)
    requires Sized(t)
    ensures |SetIn(t, k, v, h).buckets| == |t.buckets|
    ensures forall i :: 0 <= i < |t.buckets| && t.buckets[i] == [] ==> SetIn(t, k, v, h).buckets[i] == []
  {
    hide Bucket;
  }

  /** After a replace the key is bound to the value, and everything else is as it was; it ends the process
      if and only if the key was absent and its bucket number does not fit an `int`. */
  lemma ReplaceOK<K(!new), V>(d: Dict<K, V>, k: K, v: V, canResize: bool, h: K -> bv64)
    requires DictOK(d, h) && Step(d, h).ht0.used * 2 < LONG_MAX
    ensures Sized(d.ht0) && Sized(d.ht1)
    ensures var r := Replace(d, k, v, canResize, h);
      && DictOK(r.0, h) && Sized(r.0.ht0) && Sized(r.0.ht1)
      && (r.1.Overwritten? <==> Lookup(d, k, h).Some?)
      && (r.1.Broken? <==> Lookup(d, k, h).None? && !Fits(d, k, canResize, h))
      && (!r.1.Broken? ==> forall q: K :: Lookup(r.0, q, h) == if q == k then Some(v) else Lookup(d, q, h))
  {
    AddOK(d, k, v, canResize, h);
    FitsIs(d, k, canResize, h);
    OverwriteOK(Add(d, k, v, canResize, h).0, k, v, h);
    DictSized(Overwrite(Add(d, k, v, canResize, h).0, k, v, h), h);
    FindOK(Add(d, k, v, canResize, h).0, k, h);
    DictSized(Find(Add(d, k, v, canResize, h).0, k, h).0, h);
    ReplaceIs(d, k, v, canResize, h);
    hide Replace;
    hide Find;
    hide Add;
    hide Overwrite;
    hide DictOK;
    hide Prepared;
    hide Slot;
    hide Fits;
    hide Lookup;
  }

  // ---- Deleting ----

  /** The chain without its first entry of key `k` (dict.c:436-457). */
  ghost function Unlink<K, V>(c: seq<Entry<K, V>>, k: K): (r: seq<Entry<K, V>>)
    ensures |r| == if FindKey(c, k).Some? then |c| - 1 else |c|
  {
    if c == [] then [] else if c[0].key == k then c[1..] else [c[0]] + Unlink(c[1..], k)
  }

  lemma {:induction false} UnlinkFinds<K(!new), V>(c: seq<Entry<K, V>>, k: K)
    requires Distinct(c)
    ensures Distinct(Unlink(c, k))
    ensures forall q: K :: FindKey(Unlink(c, k), q) == if q == k then None else FindKey(c, q)
  {
    if c != [] {
      var t := c[1..];
      assert forall i :: 0 <= i < |t| ==> t[i] == c[i + 1];
      assert Distinct(t);
      UnlinkFinds(t, k);
      var r := Unlink(c, k);
      if c[0].key == k {
        assert FindKey(t, k).None?;
      } else {
        assert r[1..] == Unlink(t, k);
        assert FindKey(t, c[0].key).None?;
        forall i | 0 <= i < |r[1..]| ensures r[1..][i].key != c[0].key {
          UnlinkKeeps(t, k, i);
        }
        forall q: K ensures FindKey(r, q) == if q == k then None else FindKey(c, q) {
        }
      }
    }
  }

  lemma {:induction false} UnlinkKeeps<K, V>(c: seq<Entry<K, V>>, k: K, i: nat)
    requires i < |Unlink(c, k)|
    ensures FindKey(c, Unlink(c, k)[i].key).Some?
  {
    if c[0].key == k {
      assert c[1..][i] == c[i + 1];
    } else if i > 0 {
      UnlinkKeeps(c[1..], k, i - 1);
    }
  }

  ghost function UnlinkIn<K, V>(t: Table<K, V>, k: K, h: K -> bv64): Table<K, V>
    requires Sized(t) && FindIn(t, k, h).Some? && t.used > 0
  {
    WithChain(t, k, Unlink(ChainOf(t, k, h), k), h)
  }

  lemma FoundMeansUsed<K(!new), V>(t: Table<K, V>, k: K, h: K -> bv64)
    requires TableOK(t, h) && FindIn(t, k, h).Some?
    ensures t.used > 0 && t.buckets != []
  {
    hide Bucket;
    TotalAtLeast(t.buckets, Bucket(h(k), t.mask));
  }

  lemma UnlinkInOK<K(!new), V>(t: Table<K, V>, k: K, h: K -> bv64)
    requires TableOK(t, h) && FindIn(t, k, h).Some?
    ensures t.used > 0
    ensures TableOK(UnlinkIn(t, k, h), h) && UnlinkIn(t, k, h).buckets != []
    ensures forall q: K :: FindIn(UnlinkIn(t, k, h), q, h) == if q == k then None else FindIn(t, q, h)
  {
    FoundMeansUsed(t, k, h);
    var c := ChainOf(t, k, h);
    assert Distinct(c);
    UnlinkFinds(c, k);
    var r := Unlink(c, k);
    forall i | 0 <= i < |r| ensures FindKey(c, r[i].key).Some? {
      UnlinkKeeps(c, k, i);
    }
    WithChainOK(t, k, r, h);
    hide Bucket;
    hide TableOK;
    forall q: K ensures FindIn(UnlinkIn(t, k, h), q, h) == if q == k then None else FindIn(t, q, h) {
      FindAfterSet(t, k, r, q, h);
      hide FindKey;
    }
  }

  /** `dictDelete`: the dictionary and whether the key was there. */
  ghost function Delete<K(!new), V>(d: Dict<K, V>, k: K, h: K -> bv64): (Dict<K, V>, bool)
    requires DictOK(d, h)
  {
    if d.ht0.buckets == [] then (d, false)
    else
      StepOK(d, h);
      var s := Step(d, h);
      if FindIn(s.ht0, k, h).Some? then
        FoundMeansUsed(s.ht0, k, h);
        (s.(ht0 := UnlinkIn(s.ht0, k, h)), true)
      else if FindIn(s.ht1, k, h).Some? then
        FoundMeansUsed(s.ht1, k, h);
        (s.(ht1 := UnlinkIn(s.ht1, k, h)), true)
      else (s, false)
  }

  lemma UnlinkKeepsEmpty<K(!new), V>(t: Table<K, V>, k: K, h: K -> bv64)
    requires TableOK(t, h) && FindIn(t, k, h).Some? && t.used > 0
    ensures |UnlinkIn(t, k, h).buckets| == |t.buckets|
    ensures forall i :: 0 <= i < |t.buckets| && t.buckets[i] == [] ==> UnlinkIn(t, k, h).buckets[i] == []
  {
    hide Bucket;
  }

  lemma UnlinkFromFirst<K(!new), V>(s: Dict<K, V>, k: K, h: K -> bv64)
    requires DictOK(s, h) && FindIn(s.ht0, k, h).Some? && s.ht0.used > 0
    ensures var r := s.(ht0 := UnlinkIn(s.ht0, k, h));
      DictOK(r, h) && forall q: K :: Lookup(r, q, h) == if q == k then None else Lookup(s, q, h)
  {
    UnlinkInOK(s.ht0, k, h);
    UnlinkKeepsEmpty(s.ht0, k, h);
    hide TableOK;
    hide FindIn;
    hide UnlinkIn;
  }

  lemma UnlinkFromSecond<K(!new), V>(s: Dict<K, V>, k: K, h: K -> bv64)
    requires DictOK(s, h) && FindIn(s.ht0, k, h).None? && FindIn(s.ht1, k, h).Some? && s.ht1.used > 0
    ensures var r := s.(ht1 := UnlinkIn(s.ht1, k, h));
      DictOK(r, h) && forall q: K :: Lookup(r, q, h) == if q == k then None else Lookup(s, q, h)
  {
    UnlinkInOK(s.ht1, k, h);
    FoundMeansUsed(s.ht1, k, h);
    hide TableOK;
    hide FindIn;
    hide UnlinkIn;
  }

  /** Delete succeeds if and only if the key was present, and removes exactly that binding. */
  lemma DeleteOK<K(!new), V>(d: Dict<K, V>, k: K, h: K -> bv64)
    requires DictOK(d, h)
    ensures var r := Delete(d, k, h);
      && DictOK(r.0, h)
      && (r.1 <==> Lookup(d, k, h).Some?)
      && (forall q: K :: Lookup(r.0, q, h) == if q == k then None else Lookup(d, q, h))
  {
    EmptyDictFindsNothing(d, k, h);
    if d.ht0.buckets != [] {
      StepOK(d, h);
      var s := Step(d, h);
      if FindIn(s.ht0, k, h).Some? {
        FoundMeansUsed(s.ht0, k, h);
        UnlinkFromFirst(s, k, h);
      } else if FindIn(s.ht1, k, h).Some? {
        FoundMeansUsed(s.ht1, k, h);
        UnlinkFromSecond(s, k, h);
      }
    }
    hide TableOK;
    hide FindIn;
    hide UnlinkIn;
    hide Step;
  }
}
