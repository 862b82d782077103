/** When the table of dict.c grows and to what size, what one step of rehashing moves, and the load that
    follows: how many entries a bucket has on average, in every run of operations. */
module DictGrowth {
  import opened Words
  import opened Options
  import opened DictModel
  import opened DictOps

  function Entries<K, V>(d: Dict<K, V>): nat { d.ht0.used + d.ht1.used }

  // ---- One step of rehashing ----

  lemma {:induction false} MoveChainUsed<K, V>(c: seq<Entry<K, V>>, t: Table<K, V>, h: K -> bv64)
    requires Sized(t) && t.buckets != []
    ensures MoveChain(c, t, h).used == t.used + |c| && |MoveChain(c, t, h).buckets| == |t.buckets|
    decreases |c|
  {
    hide Bucket;
    if c != [] {
      MoveChainUsed(c[1..], Push(t, c[0], h), h);
    }
  }

  lemma {:induction false} SkipsTo<K, V>(b: seq<seq<Entry<K, V>>>, i: nat, visits: nat, j: nat)
    requires i <= j < |b| && visits > 0 && b[j] != [] && forall k :: i <= k < j ==> b[k] == []
    ensures SkipEmpty(b, i, visits) == if j < i + visits then (j, visits - (j - i)) else (i + visits, 0)
    decreases j - i
  {
    if i < j && visits > 1 {
      SkipsTo(b, i + 1, visits - 1, j);
    }
  }

  /** One step moves the next bucket that is not empty, if it is among the next ten, and otherwise passes
      ten; rehashing ends with the last entry. */
  lemma StepMoves<K(!new), V>(d: Dict<K, V>, j: nat, h: K -> bv64)
    requires DictOK(d, h) && IsRehashing(d) && d.iterators == 0
    requires d.rehashidx <= j < |d.ht0.buckets| && d.ht0.buckets[j] != []
    requires forall k :: d.rehashidx <= k < j ==> d.ht0.buckets[k] == []
    ensures Sized(d.ht1) && d.ht1.buckets != [] && |d.ht0.buckets[j]| <= d.ht0.used
    ensures var moved := MoveChain(d.ht0.buckets[j], d.ht1, h);
      Step(d, h) ==
      if j >= d.rehashidx + 10 then d.(rehashidx := d.rehashidx + 10)
      else if |d.ht0.buckets[j]| == d.ht0.used then Dict(moved, Reset(), -1, 0)
      else Dict(Table(d.ht0.buckets[j := []], d.ht0.mask, d.ht0.used - |d.ht0.buckets[j]|), moved, j + 1, 0)
  {
    ClearBucketOK(d.ht0, j, h);
    SkipsTo(d.ht0.buckets, d.rehashidx, 10, j);
    RehashIs(d, 1, h);
    LoopStep(d, 10, h);
    hide TableOK;
    hide FindIn;
    hide MoveChain;
    hide Rehash;
    hide SkipEmpty;
  }

  /** Rehashing moves entries and loses none, and does not change the sizes of the tables. */
  lemma {:induction false} LoopTotals<K(!new), V>(d: Dict<K, V>, n: nat, visits: nat, h: K -> bv64)
    requires DictOK(d, h) && IsRehashing(d) && (n > 0 ==> visits > 0)
    ensures var e := RehashLoop(d, n, visits, h).0;
      Entries(e) == Entries(d) && |e.ht0.buckets| == |d.ht0.buckets| && |e.ht1.buckets| == |d.ht1.buckets|
    decreases n
  {
    if n > 0 && d.ht0.used > 0 {
      var (i, left) := SkipEmpty(d.ht0.buckets, d.rehashidx, visits);
      LoopStep(d, visits, h);
      hide TableOK;
      hide FindIn;
      if left > 0 {
        var e := d.(rehashidx := i);
        MoveChainUsed(d.ht0.buckets[i], d.ht1, h);
        LoopTotals(MoveBucket(e, h), n - 1, left, h);
      }
    }
  }

  lemma StepTotals<K(!new), V>(d: Dict<K, V>, h: K -> bv64)
    requires DictOK(d, h) && d.iterators == 0
    ensures var s := Step(d, h);
      && Entries(s) == Entries(d) && s.iterators == 0 && DictOK(s, h)
      && (!IsRehashing(d) ==> s == d)
      && (IsRehashing(d) && IsRehashing(s) ==>
            && |s.ht0.buckets| == |d.ht0.buckets| && |s.ht1.buckets| == |d.ht1.buckets|
            && d.rehashidx < s.rehashidx < |s.ht0.buckets|)
      && (IsRehashing(d) && !IsRehashing(s) ==> |s.ht0.buckets| == |d.ht1.buckets|)
  {
    StepOK(d, h);
    if IsRehashing(d) {
      LoopTotals(d, 1, 10, h);
      RehashLoopOK(d, 1, 10, h);
      RehashIs(d, 1, h);
      hide Rehash;
      hide RehashLoop;
      hide TableOK;
      hide FindIn;
      if IsRehashing(Step(d, h)) {
        BucketsLeft(Step(d, h), h);
      }
    }
  }

  // ---- Growing ----

  /** The least power of two, four or more, that is not below the size. */
  ghost predicate IsLeastPower(n: nat, size: nat) {
    (exists e: nat :: n == Pow2(e)) && n >= 4 && n >= size && (n == 4 || n < 2 * size)
  }

  lemma LeastUnique(a: nat, b: nat, size: nat)
    requires IsLeastPower(a, size) && IsLeastPower(b, size)
    ensures a == b
  {
    var i: nat :| a == Pow2(i);
    var j: nat :| b == Pow2(j);
    if i < j {
      Pow2Grows(i + 1, j);
    } else if j < i {
      Pow2Grows(j + 1, i);
    }
  }

  /** `dictExpand` refuses during a rehash, a size below the number of entries, and the size the table
      has already; the table it makes has the least power of two, and takes over at once if it is the
      first. */
  lemma ExpandsExactly<K, V>(d: Dict<K, V>, size: nat)
    ensures var (e, ok) := Expand(d, size);
      && (ok <==> !IsRehashing(d) && d.ht0.used <= size && !IsLeastPower(|d.ht0.buckets|, size))
      && (!ok ==> e == d)
      && (ok && d.ht0.buckets == [] ==> e == d.(ht0 := e.ht0) && IsLeastPower(|e.ht0.buckets|, size) && e.ht0.used == 0)
      && (ok && d.ht0.buckets != [] ==>
            e == d.(ht1 := e.ht1, rehashidx := 0) && IsLeastPower(|e.ht1.buckets|, size) && e.ht1.used == 0)
  {
    LeastPower(size);
    if IsLeastPower(|d.ht0.buckets|, size) {
      LeastUnique(|d.ht0.buckets|, Pow2(NextExp(size, INITIAL_EXP)), size);
    }
    hide Pow2;
    hide NextExp;
    hide IsLeastPower;
  }

  /** When an add expands and to what size: an empty dictionary gets four buckets; a table at rest starts
      a rehash if and only if it has an entry for every bucket and may be resized, or has six for every
      bucket; the new size is the least power of two that is twice the entries, four at least; in every
      other case the tables are as they were. */
  lemma GrowsExactly<K(!new), V>(d: Dict<K, V>, canResize: bool, h: K -> bv64)
    requires DictOK(d, h) && Step(d, h).ht0.used * 2 < LONG_MAX
    ensures var s, e, n := Step(d, h), Prepared(d, canResize, h), |Step(d, h).ht0.buckets|;
      if IsRehashing(s) then e == s
      else if n == 0 then !IsRehashing(e) && |e.ht0.buckets| == 4 && Entries(e) == 0
      else
        && (IsRehashing(e) <==> s.ht0.used >= n && (canResize || s.ht0.used >= 6 * n))
        && (!IsRehashing(e) ==> e == s)
        && (IsRehashing(e) ==>
              && e.ht0 == s.ht0 && e.rehashidx == 0 && e.ht1.used == 0
              && IsLeastPower(|e.ht1.buckets|, 2 * s.ht0.used))
  {
    hide TableOK;
    hide Step;
    hide FindIn;
    hide Pow2;
    hide NextExp;
    StepOK(d, h);
    var s := Step(d, h);
    var n := |s.ht0.buckets|;
    InitialSize();
    if !IsRehashing(s) && n > 0 {
      QuotientAbove(s.ht0.used, n);
      LeastPower(s.ht0.used * 2);
    } else if !IsRehashing(s) {
      EmptyTable(s, h);
    }
  }

  lemma InitialSize()
    ensures Pow2(INITIAL_EXP) == 4 && NextExp(4, INITIAL_EXP) == INITIAL_EXP
  {
  }

  lemma LeastPower(size: nat)
    ensures IsLeastPower(Pow2(NextExp(size, INITIAL_EXP)), size)
  {
    var e := NextExp(size, INITIAL_EXP);
    Pow2Grows(INITIAL_EXP, e);
    assert e > INITIAL_EXP ==> Pow2(e) == 2 * Pow2(e - 1);
    InitialSize();
  }

  lemma EmptyTable<K(!new), V>(d: Dict<K, V>, h: K -> bv64)
    requires DictOK(d, h) && !IsRehashing(d) && d.ht0.buckets == []
    ensures Entries(d) == 0
  {
  }

  lemma QuotientAbove(used: nat, n: nat)
    requires n > 0
    ensures used / n > 5 <==> used >= 6 * n
  {
  }

  // ---- The load ----

  /** At most `l` entries for every bucket of a table at rest; during a rehash the buckets still to come
      count as entries of the new table, one of them excepted. */
  ghost predicate LoadInv<K, V>(d: Dict<K, V>, l: nat) {
    if IsRehashing(d) then
      d.rehashidx < |d.ht0.buckets| && Entries(d) + |d.ht0.buckets| - d.rehashidx <= |d.ht1.buckets| + 1
    else Entries(d) <= l * |d.ht0.buckets|
  }

  /** The table that takes new entries has at most `l` for every bucket, all tables together. */
  lemma LoadBound<K, V>(d: Dict<K, V>, l: nat)
    requires LoadInv(d, l) && l > 0
    ensures Entries(d) <= l * |Target(d).buckets|
  {
    AtLeastOnce(l, |d.ht1.buckets|);
  }

  lemma StepLoad<K(!new), V>(d: Dict<K, V>, l: nat, h: K -> bv64)
    requires DictOK(d, h) && d.iterators == 0 && LoadInv(d, l) && l > 0
    ensures LoadInv(Step(d, h), l)
    ensures IsRehashing(Step(d, h)) ==>
              Entries(d) + |Step(d, h).ht0.buckets| - Step(d, h).rehashidx <= |Step(d, h).ht1.buckets|
  {
    hide DictOK;
    hide Step;
    StepTotals(d, h);
    if IsRehashing(d) && !IsRehashing(Step(d, h)) {
      AtLeastOnce(l, |d.ht1.buckets|);
    }
  }

  lemma AtLeastOnce(l: nat, n: nat)
    requires l > 0
    ensures n <= l * n
  {
  }

  lemma InsertTotals<K(!new), V>(d: Dict<K, V>, e: Entry<K, V>, h: K -> bv64)
    requires Sized(d.ht0) && Sized(d.ht1) && d.ht0.buckets != [] && (IsRehashing(d) ==> d.ht1.buckets != [])
    ensures var r := Insert(d, e, h);
      && Entries(r) == Entries(d) + 1 && r.rehashidx == d.rehashidx && r.iterators == d.iterators
      && |r.ht0.buckets| == |d.ht0.buckets| && |r.ht1.buckets| == |d.ht1.buckets|
  {
  }

  /** What an add leaves: the prepared dictionary, with or without the entry. */
  lemma AddParts<K(!new), V>(d: Dict<K, V>, k: K, v: V, canResize: bool, h: K -> bv64)
    requires DictOK(d, h) && Step(d, h).ht0.used * 2 < LONG_MAX
    ensures var r, e := Add(d, k, v, canResize, h).0, Prepared(d, canResize, h);
      && r.iterators == d.iterators && DictOK(r, h)
      && (r == e || (Entries(r) == Entries(e) + 1 && r.rehashidx == e.rehashidx
                     && |r.ht0.buckets| == |e.ht0.buckets| && |r.ht1.buckets| == |e.ht1.buckets|))
  {
    AddOK(d, k, v, canResize, h);
    AddIs(d, k, v, canResize, h);
    InsertTotals(Prepared(d, canResize, h), Entry(k, v), h);
    hide *;
  }

  /** After the step and the expansion there is room for one more. */
  lemma PreparedLoad<K(!new), V>(d: Dict<K, V>, canResize: bool, l: nat, h: K -> bv64)
    requires DictOK(d, h) && Step(d, h).ht0.used * 2 < LONG_MAX && d.iterators == 0 && LoadInv(d, l)
    requires l > 0 && (canResize || l >= 6)
    ensures var e := Prepared(d, canResize, h);
      && LoadInv(e, l)
      && (IsRehashing(e) ==> Entries(e) + |e.ht0.buckets| - e.rehashidx <= |e.ht1.buckets|)
      && (!IsRehashing(e) ==> Entries(e) < l * |e.ht0.buckets|)
  {
    StepTotals(d, h);
    StepLoad(d, l, h);
    GrowsExactly(d, canResize, h);
    var s := Step(d, h);
    RestIsOne(s, h);
    hide DictOK;
    hide Step;
    hide Prepared;
    var n := |s.ht0.buckets|;
    if !IsRehashing(s) && n > 0 {
      LoadRoom(s.ht0.used, n, l);
    }
  }

  lemma RestIsOne<K(!new), V>(d: Dict<K, V>, h: K -> bv64)
    requires DictOK(d, h)
    ensures !IsRehashing(d) ==> Entries(d) == d.ht0.used
  {
  }

  lemma LoadRoom(used: nat, n: nat, l: nat)
    requires l > 0 && n > 0
    ensures used < n ==> used < l * n
    ensures used < 6 * n && l >= 6 ==> used < l * n
  {
    assert l * n >= n;
    if l >= 6 {
      assert l * n >= 6 * n;
    }
  }

  lemma AddLoad<K(!new), V>(d: Dict<K, V>, k: K, v: V, canResize: bool, l: nat, h: K -> bv64)
    requires DictOK(d, h) && Step(d, h).ht0.used * 2 < LONG_MAX && d.iterators == 0 && LoadInv(d, l)
    requires l > 0 && (canResize || l >= 6)
    ensures LoadInv(Add(d, k, v, canResize, h).0, l)
  {
    PreparedLoad(d, canResize, l, h);
    AddParts(d, k, v, canResize, h);
    hide DictOK;
    hide Step;
    hide Prepared;
    hide Add;
  }

  lemma UnlinkTotals<K(!new), V>(t: Table<K, V>, k: K, h: K -> bv64)
    requires TableOK(t, h) && FindIn(t, k, h).Some?
    ensures t.used > 0 && UnlinkIn(t, k, h).used == t.used - 1 && |UnlinkIn(t, k, h).buckets| == |t.buckets|
  {
    FoundMeansUsed(t, k, h);
    hide Bucket;
  }

  lemma DeleteLoad<K(!new), V>(d: Dict<K, V>, k: K, l: nat, h: K -> bv64)
    requires DictOK(d, h) && d.iterators == 0 && LoadInv(d, l) && l > 0
    ensures LoadInv(Delete(d, k, h).0, l) && Delete(d, k, h).0.iterators == 0
  {
    StepLoad(d, l, h);
    StepTotals(d, h);
    var s := Step(d, h);
    hide Step;
    if FindIn(s.ht0, k, h).Some? {
      UnlinkTotals(s.ht0, k, h);
    } else if FindIn(s.ht1, k, h).Some? {
      UnlinkTotals(s.ht1, k, h);
    }
    hide FindIn;
    hide TableOK;
    hide UnlinkIn;
  }

  lemma FindLoad<K(!new), V>(d: Dict<K, V>, k: K, l: nat, h: K -> bv64)
    requires DictOK(d, h) && d.iterators == 0 && LoadInv(d, l) && l > 0
    ensures LoadInv(Find(d, k, h).0, l)
  {
    StepLoad(d, l, h);
    hide Step;
    hide Lookup;
  }

  datatype Op<K, V> = AddOp(k: K, v: V, canResize: bool) | FindOp(k: K) | DeleteOp(k: K)

  /** The operation may be called, and does not link an entry outside its bucket. */
  ghost predicate Allowed<K(!new), V>(d: Dict<K, V>, op: Op<K, V>, h: K -> bv64)
    requires DictOK(d, h)
  {
    op.AddOp? ==>
      Step(d, h).ht0.used * 2 < LONG_MAX && Add(d, op.k, op.v, op.canResize, h).1 != Astray
  }

  ghost function Do<K(!new), V>(d: Dict<K, V>, op: Op<K, V>, h: K -> bv64): (r: Dict<K, V>)
    requires DictOK(d, h) && Allowed(d, op, h)
    ensures DictOK(r, h)
  {
    match op
    case AddOp(k, v, canResize) =>
      AddOK(d, k, v, canResize, h);
      Add(d, k, v, canResize, h).0
    case FindOp(k) =>
      FindOK(d, k, h);
      Find(d, k, h).0
    case DeleteOp(k) =>
      DeleteOK(d, k, h);
      Delete(d, k, h).0
  }

  ghost predicate Run<K(!new), V>(d: Dict<K, V>, ops: seq<Op<K, V>>, e: Dict<K, V>, h: K -> bv64)
    requires DictOK(d, h)
    decreases |ops|
  {
    if ops == [] then e == d else Allowed(d, ops[0], h) && Run(Do(d, ops[0], h), ops[1..], e, h)
  }

  lemma DoLoad<K(!new), V>(d: Dict<K, V>, op: Op<K, V>, l: nat, h: K -> bv64)
    requires DictOK(d, h) && Allowed(d, op, h) && d.iterators == 0 && LoadInv(d, l)
    requires l > 0 && (op.AddOp? ==> op.canResize || l >= 6)
    ensures LoadInv(Do(d, op, h), l) && Do(d, op, h).iterators == 0
  {
    hide DictOK;
    hide LoadInv;
    hide Step;
    hide Add;
    hide Find;
    hide Delete;
    match op
    case AddOp(k, v, canResize) =>
      AddOK(d, k, v, canResize, h);
      AddLoad(d, k, v, canResize, l, h);
    case FindOp(k) =>
      FindOK(d, k, h);
      FindLoad(d, k, l, h);
    case DeleteOp(k) =>
      DeleteLoad(d, k, l, h);
  }

  /** In every run of adds, finds and deletes without a safe iterator: at most one entry for every bucket
      if resizing was always allowed, at most six if not (`l` is the bound), counting both tables and the
      buckets of the one that takes new entries. */
  lemma {:induction false} RunLoad<K(!new), V>(d: Dict<K, V>, ops: seq<Op<K, V>>, e: Dict<K, V>, l: nat, h: K -> bv64)
    requires DictOK(d, h) && Run(d, ops, e, h) && d.iterators == 0 && LoadInv(d, l)
    requires l > 0 && forall i :: 0 <= i < |ops| && ops[i].AddOp? ==> ops[i].canResize || l >= 6
    ensures Entries(e) <= l * |Target(e).buckets|
    decreases |ops|
  {
    hide DictOK;
    hide LoadInv;
    hide Allowed;
    hide Do;
    if ops == [] {
      LoadBound(d, l);
    } else {
      DoLoad(d, ops[0], l, h);
      RunLoad(Do(d, ops[0], h), ops[1..], e, l, h);
    }
  }

  /** A new dictionary meets both bounds. */
  lemma EmptyLoad<K(!new), V>(l: nat, h: K -> bv64)
    ensures DictOK<K, V>(Empty(), h) && Empty<K, V>().iterators == 0 && LoadInv<K, V>(Empty(), l)
  {
  }

  // ---- Rehashing ends ----

  /** Every operation without a safe iterator takes a step, and leaves the rehash where the step left it
      unless that was the last. */
  lemma OpAdvances<K(!new), V>(d: Dict<K, V>, op: Op<K, V>, h: K -> bv64)
    requires DictOK(d, h) && Allowed(d, op, h) && IsRehashing(d) && d.iterators == 0
    ensures var s, r := Step(d, h), Do(d, op, h);
      IsRehashing(s) ==>
        && IsRehashing(r) && d.rehashidx < s.rehashidx == r.rehashidx < |r.ht0.buckets| == |d.ht0.buckets|
        && r.iterators == 0
  {
    StepTotals(d, h);
    match op {
      case AddOp(k, v, canResize) =>
        GrowsExactly(d, canResize, h);
        AddParts(d, k, v, canResize, h);
        hide DictOK;
        hide Step;
        hide Add;
        hide Prepared;
      case FindOp(k) =>
        hide Step;
        hide Lookup;
      case DeleteOp(k) =>
        DeleteParts(d, k, h);
        hide Step;
        hide Delete;
        hide DictOK;
    }
  }

  lemma DeleteParts<K(!new), V>(d: Dict<K, V>, k: K, h: K -> bv64)
    requires DictOK(d, h) && IsRehashing(d)
    ensures var s, r := Step(d, h), Delete(d, k, h).0;
      && r.rehashidx == s.rehashidx && r.iterators == s.iterators && |r.ht0.buckets| == |s.ht0.buckets|
  {
    StepOK(d, h);
    var s := Step(d, h);
    hide Step;
    if FindIn(s.ht0, k, h).Some? {
      UnlinkTotals(s.ht0, k, h);
    } else if FindIn(s.ht1, k, h).Some? {
      UnlinkTotals(s.ht1, k, h);
    }
    hide FindIn;
    hide TableOK;
    hide UnlinkIn;
  }

  /** One of the operations takes the last step of the rehash. */
  ghost predicate Finishes<K(!new), V>(d: Dict<K, V>, ops: seq<Op<K, V>>, h: K -> bv64)
    requires DictOK(d, h)
    decreases |ops|
  {
    ops != [] && Allowed(d, ops[0], h) && (!IsRehashing(Step(d, h)) || Finishes(Do(d, ops[0], h), ops[1..], h))
  }

  /** A rehash ends within as many adds, finds and deletes as the first table has buckets left. */
  lemma {:induction false} RehashEnds<K(!new), V>(d: Dict<K, V>, ops: seq<Op<K, V>>, e: Dict<K, V>, h: K -> bv64)
    requires DictOK(d, h) && Run(d, ops, e, h) && d.iterators == 0 && IsRehashing(d)
    requires d.rehashidx < |d.ht0.buckets| && |ops| >= |d.ht0.buckets| - d.rehashidx
    ensures Finishes(d, ops, h)
    decreases |ops|
  {
    OpAdvances(d, ops[0], h);
    hide DictOK;
    hide Allowed;
    hide Do;
    hide Step;
    if IsRehashing(Step(d, h)) {
      RehashEnds(Do(d, ops[0], h), ops[1..], e, h);
    }
  }
}
