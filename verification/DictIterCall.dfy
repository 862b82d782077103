/** The imperative safe iterator: its fields, and `dictNext` and `dictReleaseIterator` on the
    imperative dictionary. */
module DictIterCall {
  import opened Words
  import opened Options
  import opened DictModel
  import DictTable
  import Iters = DictIter

  class Iterator<K(==, !new), V> {
    const d: DictTable.Dict<K, V>
    var table: nat
    var index: int
    var entry: Option<K>
    var nextEntry: Option<K>

    ghost function State(): Iters.Iter<K>
      reads this
    {
      Iters.Iter(table, index, entry, nextEntry)
    }

    ghost predicate Valid()
      reads this, d, d.table0, d.table1
    {
      d.Valid() && Iters.IterOK(d.State(), State())
    }

    /** `dictGetSafeIterator` (dict.c:572-590). */
    constructor (dict: DictTable.Dict<K, V>)
      requires dict.Valid()
      ensures d == dict && Valid() && State() == Iters.Fresh()
    {
      d := dict;
      table, index, entry, nextEntry := 0, -1, None, None;
      new;
    }

    /** Where the saved entry is in the current chain. */
    method Follow(c: seq<Entry<K, V>>, k: K) returns (rest: seq<Entry<K, V>>)
      ensures rest == Iters.From(c, k)
    {
      var i := 0;
      while i < |c| && c[i].key != k
        invariant i <= |c|
        invariant Iters.From(c, k) == Iters.From(c[i..], k)
      {
        assert c[i..][1..] == c[i + 1..];
        i := i + 1;
      }
      rest := c[i..];
    }

    /** Stand on the first entry of a non-empty chain (dict.c:613-621). */
    method Stand(chain: seq<Entry<K, V>>) returns (r: Option<Entry<K, V>>)
      requires chain != [] && index >= 0
      modifies this
      ensures (State(), r) == Iters.Take(old(table), old(index), chain)
    {
      entry := Some(chain[0].key);
      nextEntry := if |chain| > 1 then Some(chain[1].key) else None;
      return Some(chain[0]);
    }

    /** Walk to the next non-empty bucket from `index` on (dict.c:595-613). */
    method WalkOn(ghost s: Dict<K, V>) returns (r: Option<Entry<K, V>>)
      requires s.ht0 == d.State().ht0 && s.ht1 == d.State().ht1 && s.rehashidx == d.rehashidx
      requires table <= 1 && index >= 0
      requires IsRehashing(s) ==> s.ht1.buckets != []
      modifies this
      ensures (State(), r) == Iters.Walk(s, old(table), old(index), old(nextEntry))
    {
      ghost var goal := Iters.Walk(s, table, index, nextEntry);
      while true
        invariant table <= 1 && index >= 0
        invariant Iters.Walk(s, table, index, nextEntry) == goal
        decreases 1 - table, |Iters.At(s, table).buckets| - index
      {
        if index >= if table == 0 then d.table0.Length else d.table1.Length {
          if d.rehashidx != -1 && table == 0 {
            table := 1;
            index := 0;
          } else {
            entry := None;
            return None;
          }
        }
        var chain := if table == 0 then d.table0[index] else d.table1[index];
        assert chain == Iters.At(s, table).buckets[index];
        if chain != [] {
          r := Stand(chain);
          return;
        }
        index := index + 1;
      }
    }

    /** On to the saved entry if there is one, else a walk. */
    method Move(ghost s: Dict<K, V>, ghost at: Iters.Iter<K>) returns (r: Option<Entry<K, V>>)
      requires s.ht0 == d.State().ht0 && s.ht1 == d.State().ht1 && s.rehashidx == d.rehashidx
      requires at == State() && Iters.IterOK(s, at) && (IsRehashing(s) ==> s.ht1.buckets != [])
      modifies this
      ensures (State(), r) == Iters.Advance(s, at)
    {
      if entry.Some? && nextEntry.Some? {
        var chain := if table == 0 then d.table0[index] else d.table1[index];
        assert chain == Iters.At(s, table).buckets[index];
        var rest := Follow(chain, nextEntry.value);
        if rest != [] {
          r := Stand(rest);
          return;
        }
      }
      index := index + 1;
      r := WalkOn(s);
    }

    /** `dictNext` (dict.c:592-625). */
    method Next() returns (r: Option<Entry<K, V>>)
      requires Valid()
      modifies this, d
      ensures d.Valid() && d.table0 == old(d.table0) && d.table1 == old(d.table1)
      ensures (d.State(), State(), r) == Iters.Next(old(d.State()), old(State()), d.hashFunction)
    {
      ghost var before, at := d.State(), State();
      hide DictOK;
      hide Iters.From;
      hide FindKey;
      if entry.None? && index == -1 && table == 0 {
        d.iterators := d.iterators + 1;
      }
      r := Move(before, at);
    }

    /** `dictReleaseIterator` (dict.c:627-636): an iterator that has started is taken off the count. */
    method Release()
      requires index != -1 || table != 0 ==> d.iterators > 0
      modifies d`iterators
      ensures d.State() == old(d.State()).(iterators := d.iterators)
      ensures d.iterators == old(d.iterators) - if index == -1 && table == 0 then 0 else 1
    {
      if !(index == -1 && table == 0) {
        d.iterators := d.iterators - 1;
      }
    }
  }
}
