/** The imperative dictionary of dict.c: bucket arrays updated in place. Every method is proved
    against the function of the same name on the model. */
module DictTable {
  import opened Words
  import opened Options
  import opened DictModel
  import Ops = DictOps

  /** `pos` is where the chain walk finds `k`. */
  ghost predicate FirstAt<K, V>(c: seq<Entry<K, V>>, k: K, pos: nat) {
    pos < |c| && c[pos].key == k && forall i :: 0 <= i < pos ==> c[i].key != k
  }

  lemma FirstInTail<K, V>(c: seq<Entry<K, V>>, k: K, pos: nat)
    requires FirstAt(c, k, pos) && pos > 0
    ensures FirstAt(c[1..], k, pos - 1) && c[0].key != k
  {
    assert forall i :: 0 <= i < |c[1..]| ==> c[1..][i] == c[i + 1];
  }

  lemma {:induction false} FindAt<K, V>(c: seq<Entry<K, V>>, k: K, pos: nat)
    requires FirstAt(c, k, pos)
    ensures FindKey(c, k) == Some(c[pos].val)
  {
    if pos > 0 {
      FirstInTail(c, k, pos);
      FindAt(c[1..], k, pos - 1);
    }
  }

  lemma {:induction false} UnlinkAt<K, V>(c: seq<Entry<K, V>>, k: K, pos: nat)
    requires FirstAt(c, k, pos)
    ensures Ops.Unlink(c, k) == c[..pos] + c[pos + 1..]
  {
    if pos > 0 {
      FirstInTail(c, k, pos);
      UnlinkAt(c[1..], k, pos - 1);
      hide FirstAt;
      assert c[..pos] == [c[0]] + c[1..][..pos - 1];
      assert c[1..][pos..] == c[pos + 1..];
    }
  }

  lemma {:induction false} SetAt<K, V>(c: seq<Entry<K, V>>, k: K, v: V, pos: nat)
    requires FirstAt(c, k, pos)
    ensures Ops.SetInChain(c, k, v) == c[pos := Entry(k, v)]
  {
    if pos > 0 {
      FirstInTail(c, k, pos);
      SetAt(c[1..], k, v, pos - 1);
    }
  }

  /** `_dictNextPower` (dict.c:962-972) for sizes below LONG_MAX. */
  method NextPower(size: nat) returns (i: nat, e: nat)
    ensures e == Ops.NextExp(size, Ops.INITIAL_EXP) && i == Pow2(e)
  {
    i := 4;
    e := Ops.INITIAL_EXP;
    assert Pow2(2) == 4;
    while i < size
      invariant i == Pow2(e)
      invariant Ops.NextExp(size, e) == Ops.NextExp(size, Ops.INITIAL_EXP)
      decreases size - i
    {
      i := i * 2;
      e := e + 1;
    }
  }

  class Dict<K(==, !new), V> {
    const hashFunction: K -> bv64
    var table0: array<seq<Entry<K, V>>>
    var mask0: bv64
    var used0: nat
    var table1: array<seq<Entry<K, V>>>
    var mask1: bv64
    var used1: nat
    var rehashidx: int
    var iterators: nat

    ghost function State(): DictModel.Dict<K, V>
      reads this, table0, table1
    {
      DictModel.Dict(Table(table0[..], mask0, used0), Table(table1[..], mask1, used1), rehashidx, iterators)
    }

    ghost predicate Valid()
      reads this, table0, table1
    {
      table0 != table1 && DictOK(State(), hashFunction)
    }

    constructor (hash: K -> bv64)
      ensures Valid() && State() == Empty() && hashFunction == hash && fresh({table0, table1})
    {
      hashFunction := hash;
      table0 := new seq<Entry<K, V>>[0];
      table1 := new seq<Entry<K, V>>[0];
      mask0, used0, mask1, used1, rehashidx, iterators := 0, 0, 0, 0, -1, 0;
    }

    /** Move the chain at the rehash index to the second table, entry by entry (dict.c:272-287). */
    method MoveCurrentBucket()
      requires Valid() && 0 <= rehashidx < table0.Length && CanMove(State())
      modifies this, table0, table1
      ensures table0 == old(table0) && table1 == old(table1)
      ensures State() == MoveBucket(old(State()), hashFunction)
    {
      hide Low;
      hide Index;
      hide DictOK;
      hide Placed;
      ghost var d := State();
      ghost var c := table0[rehashidx];
      var de := table0[rehashidx];
      while |de| > 0
        invariant table0 == old(table0) && table1 == old(table1) && table0 != table1
        invariant |de| <= |c| && used0 == d.ht0.used - (|c| - |de|)
        invariant table0[..] == d.ht0.buckets && mask0 == d.ht0.mask && mask1 == d.ht1.mask
        invariant rehashidx == d.rehashidx && iterators == d.iterators
        invariant table1.Length == |d.ht1.buckets| == Index(mask1) + 1
        invariant MoveChain(de, Table(table1[..], mask1, used1), hashFunction)
               == MoveChain(c, d.ht1, hashFunction)
        decreases |de|
      {
        ghost var before := Table(table1[..], mask1, used1);
        var i := Bucket(hashFunction(de[0].key), mask1);
        table1[i] := [de[0]] + table1[i];
        used0 := used0 - 1;
        used1 := used1 + 1;
        assert Table(table1[..], mask1, used1) == Push(before, de[0], hashFunction);
        de := de[1..];
      }
      table0[rehashidx] := [];
      rehashidx := rehashidx + 1;
    }

    /** The walk over empty buckets inside `dictRehash` (dict.c:268-271). */
    method SkipEmptyBuckets(visits: nat) returns (left: nat)
      requires visits > 0 && table0 != table1
      requires 0 <= rehashidx <= table0.Length
      requires exists i :: rehashidx <= i < table0.Length && table0[i] != []
      modifies this`rehashidx
      ensures var r := SkipEmpty(table0[..], old(rehashidx), visits);
              State() == old(State()).(rehashidx := r.0) && left == r.1
    {
      left := visits;
      while |table0[rehashidx]| == 0
        invariant old(rehashidx) <= rehashidx < table0.Length && left > 0
        invariant exists i :: rehashidx <= i < table0.Length && table0[i] != []
        invariant State() == old(State()).(rehashidx := rehashidx)
        invariant SkipEmpty(table0[..], rehashidx, left) == SkipEmpty(table0[..], old(rehashidx), visits)
        decreases table0.Length - rehashidx
      {
        rehashidx := rehashidx + 1;
        left := left - 1;
        if left == 0 {
          return;
        }
      }
    }

    /** The loop of `dictRehash` (dict.c:262-288): whether it ran out of visits. */
    method MoveBuckets(n: nat) returns (early: bool)
      requires Valid() && rehashidx != -1
      modifies this, table0, table1
      ensures Valid() && rehashidx != -1 && table0 == old(table0) && table1 == old(table1)
      ensures (State(), early) == RehashLoop(old(State()), n, 10 * n, hashFunction)
    {
      hide DictOK;
      hide MoveBucket;
      hide SkipEmpty;
      hide RehashLoop;
      hide SameContents;
      ghost var d := State();
      var emptyVisits: nat := n * 10;
      var left: nat := n;
      while left > 0 && used0 != 0
        invariant Valid() && rehashidx != -1
        invariant table0 == old(table0) && table1 == old(table1)
        invariant left > 0 ==> emptyVisits > 0
        invariant RehashLoop(State(), left, emptyVisits, hashFunction) == RehashLoop(d, n, 10 * n, hashFunction)
        decreases left
      {
        LoopStep(State(), emptyVisits, hashFunction);
        NonemptyLeft(State(), hashFunction);
        LoopUnfold(State(), left, emptyVisits, hashFunction);
        emptyVisits := SkipEmptyBuckets(emptyVisits);
        if emptyVisits == 0 {
          return true;
        }
        MoveCurrentBucket();
        left := left - 1;
      }
      LoopEnds(State(), left, emptyVisits, hashFunction);
      return false;
    }

    /** `dictRehash` (dict.c:253-301). */
    method Rehash(n: nat) returns (more: bool)
      requires Valid()
      modifies this, table0, table1
      ensures Valid() && fresh({table0, table1} - old({table0, table1}))
      ensures (State(), more) == DictModel.Rehash(old(State()), n, hashFunction)
    {
      if rehashidx == -1 {
        return false;
      }
      ghost var d := State();
      RehashOK(d, n, hashFunction);
      RehashIs(d, n, hashFunction);
      hide DictOK;
      hide RehashLoop;
      hide DictModel.Rehash;
      hide SameContents;
      var early := MoveBuckets(n);
      if early {
        return true;
      }
      if used0 == 0 {
        SwapTables();
        return false;
      }
      return true;
    }

    /** The second table becomes the first (dict.c:291-297). */
    method SwapTables()
      modifies this
      ensures table0 == old(table1) && fresh(table1)
      ensures State() == DictModel.Dict(old(State()).ht1, Reset(), -1, old(iterators))
    {
      table0, mask0, used0 := table1, mask1, used1;
      table1, mask1, used1 := new seq<Entry<K, V>>[0], 0, 0;
      rehashidx := -1;
      assert table1[..] == [];
    }

    /** `_dictRehashStep` (dict.c:334-336). */
    method RehashStep()
      requires Valid()
      modifies this, table0, table1
      ensures Valid() && fresh({table0, table1} - old({table0, table1}))
      ensures State() == Ops.Step(old(State()), hashFunction)
    {
      hide DictOK;
      hide DictModel.Rehash;
      if iterators == 0 {
        var _ := Rehash(1);
      }
    }

    method NewBuckets(realsize: nat, e: nat) returns (n: array<seq<Entry<K, V>>>)
      requires realsize == Pow2(e)
      ensures fresh(n) && n[..] == Ops.NewTable<K, V>(e).buckets
    {
      hide Pow2;
      hide LowBits;
      n := new seq<Entry<K, V>>[realsize](_ => []);
      assert n[..] == Ops.NewTable<K, V>(e).buckets;
    }

    /** `dictExpand` (dict.c:212-242). */
    method Expand(size: nat) returns (ok: bool)
      requires Valid() && size < Ops.LONG_MAX
      modifies this
      ensures Valid() && fresh({table0, table1} - old({table0, table1}))
      ensures (State(), ok) == Ops.Expand(old(State()), size)
    {
      ghost var d := State();
      var realsize, e := NextPower(size);
      Ops.ExpandOK(d, size, hashFunction);
      hide DictOK;
      hide Ops.NextExp;
      hide SameContents;
      hide LowBits;
      hide Pow2;
      if rehashidx != -1 || used0 > size || realsize == table0.Length {
        return false;
      }
      var n := NewBuckets(realsize, e);
      Install(n, LowBits(e));
      return true;
    }

    /** The new table becomes the first one, or the target of a rehash (dict.c:225-241). */
    method Install(n: array<seq<Entry<K, V>>>, mask: bv64)
      modifies this
      ensures State() ==
              if old(table0.Length) == 0 then old(State()).(ht0 := Table(n[..], mask, 0))
              else old(State()).(ht1 := Table(n[..], mask, 0), rehashidx := 0)
      ensures if old(table0.Length) == 0 then table0 == n && table1 == old(table1)
              else table0 == old(table0) && table1 == n
    {
      if table0.Length == 0 {
        table0, mask0, used0 := n, mask, 0;
      } else {
        table1, mask1, used1 := n, mask, 0;
        rehashidx := 0;
      }
    }

    /** `_dictExpandIfNeeded` (dict.c:940-959). */
    method ExpandIfNeeded(canResize: bool) returns (ok: bool)
      requires Valid() && used0 * 2 < Ops.LONG_MAX
      modifies this
      ensures Valid() && fresh({table0, table1} - old({table0, table1}))
      ensures (State(), ok) == Ops.ExpandIfNeeded(old(State()), canResize)
    {
      hide DictOK;
      hide Ops.Expand;
      if rehashidx != -1 {
        return true;
      }
      if table0.Length == 0 {
        assert Pow2(Ops.INITIAL_EXP) == 4;
        ok := Expand(4);
        return;
      }
      if used0 >= table0.Length && (canResize || used0 / table0.Length > Ops.FORCE_RESIZE_RATIO) {
        ok := Expand(used0 * 2);
        return;
      }
      return true;
    }

    /** Walk one chain for a key: where its first entry is, or the chain's length. */
    method WalkChain(c: seq<Entry<K, V>>, key: K) returns (pos: nat)
      ensures pos <= |c|
      ensures pos < |c| ==> FirstAt(c, key, pos)
      ensures pos == |c| <==> FindKey(c, key).None?
    {
      pos := 0;
      while pos < |c| && c[pos].key != key
        invariant pos <= |c|
        invariant forall i :: 0 <= i < pos ==> c[i].key != key
      {
        pos := pos + 1;
      }
      if pos < |c| {
        FindAt(c, key, pos);
      }
    }

    /** What a search returns: the table (-1 for none), bucket and place of the first match. */
    ghost predicate Found(key: K, table: int, idx: nat, pos: nat)
      requires Valid()
      reads this, table0, table1
    {
      if table == 0 then
        idx < table0.Length && idx == Bucket(hashFunction(key), mask0) && FirstAt(table0[idx], key, pos)
      else if table == 1 then
        && rehashidx != -1
        && FindIn(State().ht0, key, hashFunction).None?
        && idx < table1.Length && idx == Bucket(hashFunction(key), mask1) && FirstAt(table1[idx], key, pos)
      else
        table == -1 && Lookup(State(), key, hashFunction).None?
    }

    /** Search both tables in order (dict.c:514-523, 990-1000): the table, bucket and place found. */
    method Search(key: K) returns (table: int, idx: nat, pos: nat)
      requires Valid() && table0.Length > 0
      ensures Found(key, table, idx, pos)
      ensures table == -1 <==> Lookup(State(), key, hashFunction).None?
      ensures table == -1 ==> idx == Ops.Slot(State(), key, hashFunction)
    {
      hide Bucket;
      hide FirstAt;
      hide Placed;
      hide Low;
      hide Index;
      idx := Bucket(hashFunction(key), mask0);
      pos := WalkChain(table0[idx], key);
      assert ChainOf(State().ht0, key, hashFunction) == table0[idx];
      if pos < |table0[idx]| {
        return 0, idx, pos;
      }
      if rehashidx == -1 {
        assert FindIn(State().ht1, key, hashFunction).None?;
        return -1, idx, pos;
      }
      idx := Bucket(hashFunction(key), mask1);
      pos := WalkChain(table1[idx], key);
      assert ChainOf(State().ht1, key, hashFunction) == table1[idx];
      if pos < |table1[idx]| {
        return 1, idx, pos;
      }
      return -1, idx, pos;
    }

    /** Link a new entry at the head of its bucket (dict.c:377-385). */
    method Link(key: K, val: V)
      requires Valid() && table0.Length > 0
      modifies this, table0, table1
      ensures table0 == old(table0) && table1 == old(table1)
      ensures State() == Ops.Insert(old(State()), Entry(key, val), hashFunction)
    {
      hide Placed;
      hide Low;
      hide Index;
      if rehashidx != -1 {
        var i := Bucket(hashFunction(key), mask1);
        table1[i] := [Entry(key, val)] + table1[i];
        used1 := used1 + 1;
      } else {
        var i := Bucket(hashFunction(key), mask0);
        table0[i] := [Entry(key, val)] + table0[i];
        used0 := used0 + 1;
      }
    }

    /** The rehash step and the expansion done before a new key is looked up (dict.c:369, 986). */
    method PrepareInsert(canResize: bool)
      requires Valid() && Ops.Step(State(), hashFunction).ht0.used * 2 < Ops.LONG_MAX
      modifies this, table0, table1
      ensures Valid() && table0.Length > 0 && fresh({table0, table1} - old({table0, table1}))
      ensures State() == Ops.Prepared(old(State()), canResize, hashFunction)
    {
      Ops.StepOK(State(), hashFunction);
      Ops.ExpandIfNeededOK(Ops.Step(State(), hashFunction), canResize, hashFunction);
      hide DictOK;
      hide Ops.Step;
      hide Ops.ExpandIfNeeded;
      RehashStep();
      var ok := ExpandIfNeeded(canResize);
    }

    /** `_dictKeyIndex` after the expansion (dict.c:987-1001): the bucket number goes through an `int`. */
    method KeyIndex(key: K) returns (index: int, idx: nat)
      requires Valid() && table0.Length > 0
      ensures index == Ops.KeyIndex(State(), key, hashFunction)
      ensures Lookup(State(), key, hashFunction).None? ==> idx == Ops.Slot(State(), key, hashFunction)
    {
      Ops.DictSized(State(), hashFunction);
      hide DictOK;
      hide Found;
      hide Lookup;
      var table, i, pos := Search(key);
      idx := i;
      if table != -1 {
        return -1, idx;
      }
      return Ops.AsInt(idx), idx;
    }

    /** `dictAdd` (dict.c:339-386). */
    method Add(key: K, val: V, canResize: bool) returns (r: Ops.Insertion)
      requires Valid() && Ops.Step(State(), hashFunction).ht0.used * 2 < Ops.LONG_MAX
      modifies this, table0, table1
      ensures Valid() && fresh({table0, table1} - old({table0, table1}))
      ensures (State(), r) == Ops.Add(old(State()), key, val, canResize, hashFunction)
    {
      Ops.AddOK(State(), key, val, canResize, hashFunction);
      Ops.AddIs(State(), key, val, canResize, hashFunction);
      hide DictOK;
      hide Ops.Step;
      hide Ops.Prepared;
      hide Ops.Insert;
      hide Ops.Add;
      hide Ops.AsInt;
      hide Ops.Slot;
      hide Lookup;
      PrepareInsert(canResize);
      var index, idx := KeyIndex(key);
      if index == -1 {
        return Ops.Refused;
      }
      if index != idx {
        return Ops.Astray;
      }
      Link(key, val);
      return Ops.Added;
    }

    /** `dictFind` and `dictFetchValue` (dict.c:506-532). */
    method Find(key: K) returns (r: Option<V>)
      requires Valid()
      modifies this, table0, table1
      ensures Valid() && fresh({table0, table1} - old({table0, table1}))
      ensures (State(), r) == Ops.Find(old(State()), key, hashFunction)
    {
      if table0.Length == 0 {
        return None;
      }
      Ops.StepOK(State(), hashFunction);
      hide DictOK;
      hide Ops.Step;
      RehashStep();
      var table, idx, pos := Search(key);
      r := ValueAt(key, table, idx, pos);
    }

    method ValueAt(key: K, table: int, idx: nat, pos: nat) returns (r: Option<V>)
      requires Valid() && table0.Length > 0
      requires Found(key, table, idx, pos)
      ensures r == Lookup(State(), key, hashFunction)
    {
      hide Placed;
      hide Bucket;
      hide Low;
      hide Index;
      if table == 0 {
        FindAt(table0[idx], key, pos);
        assert ChainOf(State().ht0, key, hashFunction) == table0[idx];
        return Some(table0[idx][pos].val);
      } else if table == 1 {
        FindAt(table1[idx], key, pos);
        assert ChainOf(State().ht1, key, hashFunction) == table1[idx];
        return Some(table1[idx][pos].val);
      }
      return None;
    }

    /** Store a value in the entry found (dict.c:408). */
    method SetValue(key: K, val: V, table: int, idx: nat, pos: nat)
      requires Valid() && table0.Length > 0 && Found(key, table, idx, pos) && table != -1
      modifies table0, table1
      ensures State() == Ops.SetValue(old(State()), key, val, hashFunction)
    {
      hide Placed;
      hide Bucket;
      hide Low;
      hide Index;
      if table == 0 {
        FindAt(table0[idx], key, pos);
        SetAt(table0[idx], key, val, pos);
        table0[idx] := table0[idx][pos := Entry(key, val)];
      } else {
        SetAt(table1[idx], key, val, pos);
        table1[idx] := table1[idx][pos := Entry(key, val)];
      }
    }

    /** Store the value in the entry of the key, if there is one. */
    method Store(key: K, val: V) returns (found: bool)
      requires Valid() && table0.Length > 0
      modifies table0, table1
      ensures found <==> Lookup(old(State()), key, hashFunction).Some?
      ensures State() == if found then Ops.SetValue(old(State()), key, val, hashFunction) else old(State())
    {
      hide DictOK;
      hide Ops.SetValue;
      hide Lookup;
      hide Found;
      var table, idx, pos := Search(key);
      if table == -1 {
        return false;
      }
      SetValue(key, val, table, idx, pos);
      return true;
    }

    /** Look the key up again and store the value (dict.c:401-410); if it is not there the null entry
        found is followed. */
    method ReplaceExisting(key: K, val: V) returns (found: bool)
      requires Valid() && table0.Length > 0
      modifies this, table0, table1
      ensures Valid() && fresh({table0, table1} - old({table0, table1}))
      ensures found <==> Lookup(old(State()), key, hashFunction).Some?
      ensures State() == if found then Ops.Overwrite(old(State()), key, val, hashFunction)
                         else Ops.Find(old(State()), key, hashFunction).0
    {
      hide DictOK;
      hide Ops.Step;
      hide Ops.SetValue;
      hide Ops.Overwrite;
      hide Lookup;
      Ops.OverwriteSteps(State(), key, val, hashFunction);
      RehashStep();
      found := Store(key, val);
    }

    /** `dictReplace` (dict.c:392-411). */
    method Replace(key: K, val: V, canResize: bool) returns (r: Ops.Replacement)
      requires Valid() && Ops.Step(State(), hashFunction).ht0.used * 2 < Ops.LONG_MAX
      modifies this, table0, table1
      ensures Valid() && fresh({table0, table1} - old({table0, table1}))
      ensures (State(), r) == Ops.Replace(old(State()), key, val, canResize, hashFunction)
    {
      hide DictOK;
      hide Ops.Add;
      hide Ops.Step;
      hide Ops.Find;
      hide Ops.Overwrite;
      hide Ops.Replace;
      hide Lookup;
      hide Sized;
      hide Ops.Fits;
      Ops.ReplaceIs(State(), key, val, canResize, hashFunction);
      var a := Add(key, val, canResize);
      if a.Added? {
        r := Ops.Inserted;
      } else if a.Astray? {
        r := Ops.Broken;
      } else {
        var found := ReplaceExisting(key, val);
        r := if found then Ops.Overwritten else Ops.Broken;
      }
    }

    /** Unlink the entry found in the first table (dict.c:440-457). */
    method UnlinkFirst(key: K, idx: nat, pos: nat)
      requires Valid() && idx < table0.Length && idx == Bucket(hashFunction(key), mask0)
      requires FirstAt(table0[idx], key, pos)
      modifies this`used0, table0
      ensures FindIn(old(State()).ht0, key, hashFunction).Some? && old(used0) > 0
      ensures State() == old(State()).(ht0 := Ops.UnlinkIn(old(State()).ht0, key, hashFunction))
    {
      ghost var d := State();
      UnlinkedAt(d.ht0, key, idx, pos, hashFunction);
      hide DictOK;
      hide Bucket;
      hide FirstAt;
      hide FindIn;
      hide Ops.UnlinkIn;
      table0[idx] := table0[idx][..pos] + table0[idx][pos + 1..];
      used0 := used0 - 1;
      assert table0[..] == d.ht0.buckets[idx := d.ht0.buckets[idx][..pos] + d.ht0.buckets[idx][pos + 1..]];
    }

    /** The same in the second table. */
    method UnlinkSecond(key: K, idx: nat, pos: nat)
      requires Valid() && idx < table1.Length && idx == Bucket(hashFunction(key), mask1)
      requires FirstAt(table1[idx], key, pos)
      modifies this`used1, table1
      ensures FindIn(old(State()).ht1, key, hashFunction).Some? && old(used1) > 0
      ensures State() == old(State()).(ht1 := Ops.UnlinkIn(old(State()).ht1, key, hashFunction))
    {
      ghost var d := State();
      UnlinkedAt(d.ht1, key, idx, pos, hashFunction);
      hide DictOK;
      hide Bucket;
      hide FirstAt;
      hide FindIn;
      hide Ops.UnlinkIn;
      table1[idx] := table1[idx][..pos] + table1[idx][pos + 1..];
      used1 := used1 - 1;
      assert table1[..] == d.ht1.buckets[idx := d.ht1.buckets[idx][..pos] + d.ht1.buckets[idx][pos + 1..]];
    }

    /** `dictGenericDelete` (dict.c:426-461). */
    method Delete(key: K) returns (ok: bool)
      requires Valid()
      modifies this, table0, table1
      ensures Valid() && fresh({table0, table1} - old({table0, table1}))
      ensures (State(), ok) == Ops.Delete(old(State()), key, hashFunction)
    {
      if table0.Length == 0 {
        return false;
      }
      hide DictOK;
      hide Ops.Step;
      hide Ops.UnlinkIn;
      ghost var d := State();
      Ops.DeleteOK(d, key, hashFunction);
      Ops.StepOK(d, hashFunction);
      RehashStep();
      var table, idx, pos := Search(key);
      if table == -1 {
        return false;
      }
      if table == 0 {
        UnlinkFirst(key, idx, pos);
      } else {
        UnlinkSecond(key, idx, pos);
      }
      return true;
    }
  }

  /** Cutting the entry out of its chain is what `UnlinkIn` says. */
  lemma UnlinkedAt<K(!new), V>(t: Table<K, V>, k: K, idx: nat, pos: nat, h: K -> bv64)
    requires TableOK(t, h) && idx < |t.buckets| && idx == Bucket(h(k), t.mask) && FirstAt(t.buckets[idx], k, pos)
    ensures pos < |t.buckets[idx]| && FindIn(t, k, h).Some? && t.used > 0
    ensures Ops.UnlinkIn(t, k, h) ==
            Table(t.buckets[idx := t.buckets[idx][..pos] + t.buckets[idx][pos + 1..]], t.mask, t.used - 1)
  {
    FindAt(t.buckets[idx], k, pos);
    Ops.FoundMeansUsed(t, k, h);
    UnlinkAt(t.buckets[idx], k, pos);
    hide Placed;
    hide Bucket;
    hide Low;
    hide Index;
  }

  lemma LoopUnfold<K(!new), V>(d: DictModel.Dict<K, V>, n: nat, visits: nat, h: K -> bv64)
    requires DictOK(d, h) && IsRehashing(d) && n > 0 && d.ht0.used > 0 && visits > 0
    ensures IsRehashing(d) && 0 <= d.rehashidx <= |d.ht0.buckets|
    ensures var (i, left) := SkipEmpty(d.ht0.buckets, d.rehashidx, visits);
            var e := d.(rehashidx := i);
            if left == 0 then RehashLoop(d, n, visits, h) == (e, true)
            else
              CanMove(e) && DictOK(MoveBucket(e, h), h) && IsRehashing(MoveBucket(e, h)) &&
              RehashLoop(d, n, visits, h) == RehashLoop(MoveBucket(e, h), n - 1, left, h)
  {
    LoopStep(d, visits, h);
    hide TableOK;
  }

  lemma LoopEnds<K(!new), V>(d: DictModel.Dict<K, V>, n: nat, visits: nat, h: K -> bv64)
    requires DictOK(d, h) && IsRehashing(d) && (n > 0 ==> visits > 0)
    requires n == 0 || d.ht0.used == 0
    ensures RehashLoop(d, n, visits, h) == (d, false)
  {
    hide DictOK;
  }

  lemma NonemptyLeft<K(!new), V>(d: DictModel.Dict<K, V>, h: K -> bv64)
    requires DictOK(d, h) && IsRehashing(d) && d.ht0.used > 0
    ensures exists i :: d.rehashidx <= i < |d.ht0.buckets| && d.ht0.buckets[i] != []
  {
    var i := TotalPositive(d.ht0.buckets);
  }
}
