/** A scan that misses a key. The table shrinks from 16 to 4 buckets, and the second call is made
    while the rehash is on: its cursor 8 has a gap (bit 4), so the inner loop visits buckets 8 and
    12 of the larger table but not 4, while the cursor it returns counts bucket 4 as done. */
module DictScanGap {
  import opened Words
  import opened ScanOrder
  import opened ScanExpand
  import opened ScanCondition
  import opened Options
  import opened DictModel
  import opened DictScan

  /** Every key hashes to 4. */
  const HASH: nat -> bv64 := _ => 4

  const E0 := Entry(0, 0)

  ghost const BIG: Table<nat, nat> := Table(seq(16, i => if i == 4 then [E0] else []), 15, 1)
  ghost const SMALL: Table<nat, nat> := Table([[], [], [], []], 3, 0)
  ghost const MOVED: Table<nat, nat> := Table([[E0], [], [], []], 3, 1)

  ghost const BEFORE_16: Dict<nat, nat> := Dict(BIG, Reset(), -1, 0)
  ghost const SHRINKING: Dict<nat, nat> := Dict(BIG, SMALL, 0, 0)
  ghost const AFTER_4: Dict<nat, nat> := Dict(MOVED, Reset(), -1, 0)

  lemma SmallIndices()
    ensures Index(0) == 0 && Index(1) == 1 && Index(2) == 2 && Index(3) == 3 && Index(4) == 4
    ensures Index(8) == 8 && Index(12) == 12 && Index(15) == 15
  {
    IndexUnfold(1);
    IndexUnfold(2);
    IndexUnfold(3);
    IndexUnfold(4);
    IndexUnfold(6);
    IndexUnfold(7);
    IndexUnfold(8);
    IndexUnfold(12);
    IndexUnfold(15);
  }

  lemma Buckets()
    ensures Bucket(4, 15) == 4 && Bucket(4, 3) == 0
    ensures Bucket(0, 15) == 0 && Bucket(8, 15) == 8 && Bucket(12, 15) == 12
    ensures Bucket(8, 3) == 0 && Bucket(2, 3) == 2 && Bucket(1, 3) == 1 && Bucket(3, 3) == 3
    ensures Low(15) && Low(3) && Index(15) == 15 && Index(3) == 3
  {
    SmallIndices();
    hide Index;
  }

  lemma Cursors()
    ensures NextCursor(0, 15) == 8 && NextCursor(8, 3) == 2
    ensures NextCursor(2, 3) == 1 && NextCursor(1, 3) == 3 && NextCursor(3, 3) == 0
  {
  }

  lemma {:induction false} OneBucketTotal(b: seq<seq<Entry<nat, nat>>>, i: nat)
    requires i < |b| && forall j :: 0 <= j < |b| && j != i ==> b[j] == []
    ensures Total(b) == |b[i]|
  {
    if i == 0 {
      assert Total(b[1..]) == 0 by { AllEmpty(b[1..]); }
    } else {
      assert b[1..][i - 1] == b[i];
      assert b[0] == [];
      OneBucketTotal(b[1..], i - 1);
    }
  }

  lemma {:induction false} AllEmpty(b: seq<seq<Entry<nat, nat>>>)
    requires forall j :: 0 <= j < |b| ==> b[j] == []
    ensures Total(b) == 0
  {
    if b != [] {
      AllEmpty(b[1..]);
    }
  }

  lemma TablesOK()
    ensures TableOK(BIG, HASH) && TableOK(SMALL, HASH) && TableOK(MOVED, HASH)
  {
    Buckets();
    hide Bucket;
    hide Index;
    hide Low;
    OneBucketTotal(BIG.buckets, 4);
    AllEmpty(SMALL.buckets);
    OneBucketTotal(MOVED.buckets, 0);
  }

  lemma DictsOK()
    ensures DictOK(BEFORE_16, HASH) && DictOK(SHRINKING, HASH) && DictOK(AFTER_4, HASH)
    ensures Lookup(BEFORE_16, 0, HASH) == Some(0) && Lookup(SHRINKING, 0, HASH) == Some(0)
    ensures Lookup(AFTER_4, 0, HASH) == Some(0)
  {
    TablesOK();
    Buckets();
    hide Bucket;
    hide Index;
    hide Low;
    hide Placed;
    forall k: nat ensures FindIn(SMALL, k, HASH).None? && FindIn<nat, nat>(Reset(), k, HASH).None? {
    }
  }

  lemma InnerLoopFrom12()
    ensures Masks(3, 15)
    ensures ExpandEmit(BIG, 12, 3).0 == []
  {
    Buckets();
    MasksBySize(3, 15);
    ExpandUnfold(BIG, 12, 3);
    assert ExpandNext(12, 3) == 16;
    assert Stops(16, 3, 15);
    hide Bucket;
    hide Index;
  }

  lemma InnerLoopFrom8()
    ensures Masks(3, 15) && ExpandEmit(BIG, 8, 3).0 == []
  {
    InnerLoopFrom12();
    Buckets();
    ExpandUnfold(BIG, 8, 3);
    assert ExpandNext(8, 3) == 12;
    assert !Stops(12, 3, 15);
    hide Bucket;
    hide Index;
  }

  lemma Calls()
    ensures DictOK(BEFORE_16, HASH) && DictOK(SHRINKING, HASH) && DictOK(AFTER_4, HASH)
    ensures Scan(BEFORE_16, 0, HASH) == ([], 8)
    ensures Scan(SHRINKING, 8, HASH) == ([], 2)
    ensures Scan(AFTER_4, 2, HASH) == ([], 1) && Scan(AFTER_4, 1, HASH) == ([], 3) && Scan(AFTER_4, 3, HASH) == ([], 0)
  {
    DictsOK();
    Buckets();
    Cursors();
    InnerLoopFrom8();
    hide Bucket;
    hide Index;
    hide Low;
    hide NextCursor;
    hide Placed;
    hide ExpandEmit;
    ScanUnfold(SHRINKING, 8, HASH);
  }

  ghost const DICTS: seq<Dict<nat, nat>> := [BEFORE_16, SHRINKING, AFTER_4, AFTER_4, AFTER_4]
  ghost const CURSOR: seq<bv64> := [0, 8, 2, 1, 3, 0]

  /** The dictionary is well-formed and holds the key. */
  ghost predicate HoldsKey(d: Dict<nat, nat>) {
    DictOK(d, HASH) && Lookup(d, 0, HASH) == Some(0)
  }

  lemma Call(i: nat)
    requires i < 5
    ensures HoldsKey(DICTS[i])
    ensures Scan(DICTS[i], CURSOR[i], HASH) == ([], CURSOR[i + 1])
    ensures i > 0 ==> CURSOR[i] != 0
  {
    DictsOK();
    Calls();
    hide DictOK;
    hide Scan;
    hide Lookup;
    if i == 0 {
    } else if i == 1 {
    } else if i == 2 {
    } else if i == 3 {
    } else {
      assert i == 4;
    }
  }

  lemma Coverage()
    ensures CallCovers(BEFORE_16, 0) && CallCovers(AFTER_4, 2) && CallCovers(AFTER_4, 1) && CallCovers(AFTER_4, 3)
    ensures !CallCovers(SHRINKING, 8)
  {
    assert !GapFree(8, 3, 15);
    hide GapFree;
  }

  /** The key is present throughout, the scan runs from 0 to 0, and no call emits it; the one call
      that does not satisfy the condition is the one made while the rehash is on. */
  lemma ScanMissesKey()
    ensures Run(DICTS, CURSOR, HASH) && CURSOR[|DICTS|] == 0
    ensures forall i :: 0 <= i < |DICTS| ==> HoldsKey(DICTS[i])
    ensures forall i :: 0 <= i < |DICTS| ==> !Emitted(Scan(DICTS[i], CURSOR[i], HASH).0, 0)
    ensures forall i :: 0 <= i < |DICTS| ==> (CallCovers(DICTS[i], CURSOR[i]) <==> i != 1)
  {
    hide DictOK;
    hide Scan;
    hide Lookup;
    hide CallCovers;
    assert |DICTS| == 5 && |CURSOR| == 6;
    forall i | 0 <= i < |DICTS|
      ensures HoldsKey(DICTS[i])
      ensures CURSOR[i + 1] == Scan(DICTS[i], CURSOR[i], HASH).1
      ensures !Emitted(Scan(DICTS[i], CURSOR[i], HASH).0, 0)
      ensures i > 0 ==> CURSOR[i] != 0
    {
      Call(i);
    }
    Coverage();
    forall i | 0 <= i < |DICTS| ensures CallCovers(DICTS[i], CURSOR[i]) <==> i != 1 {
      if i == 0 {
      } else if i == 1 {
      } else if i == 2 {
      } else if i == 3 {
      } else {
        assert i == 4;
      }
    }
  }
}
