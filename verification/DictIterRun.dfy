/** A whole safe iteration: every key is returned once, whatever the user adds, finds, replaces or
    deletes between the calls. */
module DictIterRun {
  import opened Words
  import opened Options
  import opened DictModel
  import Iters = DictIter
  import Ops = DictOps

  datatype Event<K, V> =
    | Next
    | Add(key: K, val: V, canResize: bool)
    | Find(key: K)
    | Replace(key: K, val: V, canResize: bool)
    | Delete(key: K)

  /** The dictionary and iterator, the keys returned so far, how often each key was deleted, the keys
      deleted before they were ever returned, and whether the iteration has ended. */
  datatype Session<K, V> = Session(
    dict: Dict<K, V>, iter: Iters.Iter<K>, returned: seq<K>, deletes: multiset<K>, lost: set<K>, done: bool)

  function Start<K, V>(d: Dict<K, V>): Session<K, V> {
    Session(d, Iters.Fresh(), [], multiset{}, {}, false)
  }

  ghost predicate SessionOK<K(!new), V>(s: Session<K, V>, h: K -> bv64) {
    && DictOK(s.dict, h)
    && Iters.IterOK(s.dict, s.iter)
    && (s.iter.entry.Some? ==> s.dict.iterators > 0)
    && (s.iter.entry.None? && !s.done ==> s.iter.index == -1 && s.iter.table == 0)
    && (s.iter.entry.Some? ==> !s.done)
  }

  /** The table may still grow, and the bucket of `k` is one that an `int` can number. */
  ghost predicate Room<K(!new), V>(s: Session<K, V>, k: K, canResize: bool, h: K -> bv64)
    requires SessionOK(s, h)
  {
    FrozenStep(s.dict, h);
    s.iter.entry.Some? && s.dict.ht0.used * 2 < Ops.LONG_MAX && Ops.Fits(s.dict, k, canResize, h)
  }

  /** The iteration begins with a call of `dictNext`. Between calls the user may add, find, replace and
      delete, but not delete the entry the iterator saved as its next. */
  ghost predicate Allowed<K(!new), V>(s: Session<K, V>, e: Event<K, V>, h: K -> bv64)
    requires SessionOK(s, h)
  {
    match e
    case Next => !s.done
    case Add(k, _, canResize) => Room(s, k, canResize, h)
    case Find(_) => s.iter.entry.Some?
    case Replace(k, _, canResize) => Room(s, k, canResize, h)
    case Delete(k) => s.iter.entry.Some? && Iters.Saved(s.iter) != Some(k)
  }

  lemma FrozenStep<K(!new), V>(d: Dict<K, V>, h: K -> bv64)
    requires DictOK(d, h)
    ensures d.iterators > 0 ==> Ops.Step(d, h) == d
  {
    Ops.StepOK(d, h);
  }

  ghost function Do<K(!new), V>(s: Session<K, V>, e: Event<K, V>, h: K -> bv64): Session<K, V>
    requires SessionOK(s, h) && Allowed(s, e, h)
  {
    FrozenStep(s.dict, h);
    match e
    case Next =>
      var (d, it, r) := Iters.Next(s.dict, s.iter, h);
      s.(dict := d, iter := it, returned := if r.Some? then s.returned + [r.value.key] else s.returned, done := r.None?)
    case Add(k, v, canResize) => s.(dict := Ops.Add(s.dict, k, v, canResize, h).0)
    case Find(k) => s.(dict := Ops.Find(s.dict, k, h).0)
    case Replace(k, v, canResize) => s.(dict := Ops.Replace(s.dict, k, v, canResize, h).0)
    case Delete(k) =>
      var (d, ok) := Ops.Delete(s.dict, k, h);
      if !ok then s.(dict := d)
      else
        s.(dict := d, deletes := s.deletes + multiset{k}, lost := if k in s.returned then s.lost else s.lost + {k})
  }

  ghost predicate Present<K(!new), V>(d: Dict<K, V>, k: K, h: K -> bv64)
    requires DictOK(d, h)
  {
    Iters.EnoughToInsert(d, h);
    Lookup(d, k, h).Some?
  }

  ghost predicate ToCome<K(!new), V>(s: Session<K, V>, k: K, h: K -> bv64)
    requires SessionOK(s, h)
  {
    Iters.EnoughToInsert(s.dict, h);
    Iters.Ahead(s.dict, s.iter, k, h)
  }

  /** A key of the start is returned, lost to a deletion, or still to come; a key is returned no more
      often than it was deleted, plus once if it is there and behind; and none is to come at the end. */
  ghost predicate KeyOK<K(!new), V>(start: Dict<K, V>, s: Session<K, V>, k: K, h: K -> bv64)
    requires DictOK(start, h) && SessionOK(s, h)
  {
    && (Present(start, k, h) ==> k in s.returned || k in s.lost || ToCome(s, k, h))
    && multiset(s.returned)[k] <= s.deletes[k] + (if Present(s.dict, k, h) && !ToCome(s, k, h) then 1 else 0)
    && (k in s.lost ==> s.deletes[k] > 0)
    && (s.done ==> !ToCome(s, k, h))
    && (ToCome(s, k, h) ==> Present(s.dict, k, h))
  }

  ghost predicate Inv<K(!new), V>(start: Dict<K, V>, s: Session<K, V>, h: K -> bv64) {
    && DictOK(start, h)
    && SessionOK(s, h)
    && forall k: K :: KeyOK(start, s, k, h)
  }

  lemma StartInv<K(!new), V>(d: Dict<K, V>, h: K -> bv64)
    requires DictOK(d, h)
    ensures Inv(d, Start(d), h)
  {
    hide DictOK;
    hide Lookup;
    hide Iters.Ahead;
    forall k: K ensures KeyOK(d, Start(d), k, h) {
      Iters.AllAhead(d, k, h);
    }
  }

  lemma NextFacts<K(!new), V>(s: Session<K, V>, h: K -> bv64)
    requires SessionOK(s, h) && Allowed(s, Next, h)
    ensures var t := Do(s, Next, h);
            var r := Iters.Next(s.dict, s.iter, h).2;
      && SessionOK(t, h)
      && (forall k: K :: Present(t.dict, k, h) <==> Present(s.dict, k, h))
      && t == Session(t.dict, t.iter, if r.Some? then s.returned + [r.value.key] else s.returned, s.deletes, s.lost, r.None?)
      && (r.None? ==> forall k: K :: !ToCome(s, k, h) && !ToCome(t, k, h))
      && (r.Some? ==> ToCome(s, r.value.key, h))
      && (r.Some? ==> forall k: K :: ToCome(t, k, h) <==> ToCome(s, k, h) && k != r.value.key)
  {
    Iters.NextOK(s.dict, s.iter, h);
    hide DictOK;
    hide Iters.Ahead;
    hide Lookup;
    hide Iters.IterOK;
  }

  lemma NextInv<K(!new), V>(start: Dict<K, V>, s: Session<K, V>, h: K -> bv64)
    requires Inv(start, s, h) && Allowed(s, Next, h)
    ensures Inv(start, Do(s, Next, h), h)
  {
    NextFacts(s, h);
    var t := Do(s, Next, h);
    hide DictOK;
    hide SessionOK;
    hide ToCome;
    hide Present;
    var r := Iters.Next(s.dict, s.iter, h).2;
    hide Iters.Next;
    hide Do;
    forall k: K ensures KeyOK(start, t, k, h) {
      assert KeyOK(start, s, k, h);
      if r.Some? {
        Returning(s.returned, r.value.key, k);
      }
    }
  }

  lemma Returning<K>(ks: seq<K>, key: K, k: K)
    ensures multiset(ks + [key])[k] == multiset(ks)[k] + if k == key then 1 else 0
    ensures k in ks + [key] <==> k in ks || k == key
  {
    assert multiset(ks + [key]) == multiset(ks) + multiset{key};
  }

  /** The user's operations: the other keys keep their place, and the touched key is to come only if
      it is there. */
  ghost predicate Touches<K(!new), V>(s: Session<K, V>, t: Session<K, V>, key: Option<K>, h: K -> bv64)
    requires SessionOK(s, h)
  {
    && SessionOK(t, h)
    && t.iter == s.iter && t.done == s.done && t.returned == s.returned
    && (forall k: K :: Some(k) != key ==> (Present(t.dict, k, h) <==> Present(s.dict, k, h)))
    && (forall k: K :: Some(k) != key ==> (ToCome(t, k, h) <==> ToCome(s, k, h)))
    && (forall k: K :: ToCome(t, k, h) ==> Present(t.dict, k, h))
  }

  lemma StillToCome<K(!new), V>(s: Session<K, V>, t: Session<K, V>, key: Option<K>, h: K -> bv64)
    requires SessionOK(s, h)
    requires Iters.StillAhead(s.dict, t.dict, s.iter, key, h)
    requires t.iter == s.iter && t.done == s.done && t.returned == s.returned
    requires forall k: K :: Some(k) != key ==> Lookup(t.dict, k, h).Some? == Lookup(s.dict, k, h).Some?
    ensures Touches(s, t, key, h)
  {
    hide DictOK;
    hide Iters.IterOK;
    hide Lookup;
    hide Iters.Ahead;
    forall k: K ensures ToCome(t, k, h) ==> Present(t.dict, k, h) {
      Iters.AheadIsPresent(t.dict, t.iter, k, h);
    }
  }

  /** What a successful add, a successful delete, or an operation that changes no key does. */
  lemma {:induction false} AddFacts<K(!new), V>(s: Session<K, V>, k: K, v: V, canResize: bool, h: K -> bv64)
    requires SessionOK(s, h) && Allowed(s, Add(k, v, canResize), h)
    ensures var t := Do(s, Add(k, v, canResize), h);
      && t.deletes == s.deletes && t.lost == s.lost
      && Touches(s, t, if Present(s.dict, k, h) then None else Some(k), h)
      && Present(t.dict, k, h)
  {
    Iters.AddAhead(s.dict, s.iter, k, v, canResize, h);
    Ops.AddOK(s.dict, k, v, canResize, h);
    var t := Do(s, Add(k, v, canResize), h);
    assert t == s.(dict := Ops.Add(s.dict, k, v, canResize, h).0);
    Iters.EnoughToInsert(s.dict, h);
    hide DictOK;
    hide Ops.Add;
    hide Lookup;
    hide Do;
    hide Iters.StillAhead;
    hide SessionOK;
    StillToCome(s, t, if Present(s.dict, k, h) then None else Some(k), h);
  }

  lemma {:induction false} ReplaceFacts<K(!new), V>(s: Session<K, V>, k: K, v: V, canResize: bool, h: K -> bv64)
    requires SessionOK(s, h) && Allowed(s, Replace(k, v, canResize), h)
    ensures var t := Do(s, Replace(k, v, canResize), h);
      && t.deletes == s.deletes && t.lost == s.lost
      && Touches(s, t, if Present(s.dict, k, h) then None else Some(k), h)
      && Present(t.dict, k, h)
  {
    Iters.ReplaceAhead(s.dict, s.iter, k, v, canResize, h);
    Ops.ReplaceOK(s.dict, k, v, canResize, h);
    var t := Do(s, Replace(k, v, canResize), h);
    assert t == s.(dict := Ops.Replace(s.dict, k, v, canResize, h).0);
    Iters.EnoughToInsert(s.dict, h);
    hide DictOK;
    hide Ops.Replace;
    hide Lookup;
    hide Do;
    hide Iters.StillAhead;
    hide SessionOK;
    StillToCome(s, t, if Present(s.dict, k, h) then None else Some(k), h);
  }

  lemma FindFacts<K(!new), V>(s: Session<K, V>, k: K, h: K -> bv64)
    requires SessionOK(s, h) && Allowed(s, Find(k), h)
    ensures Do(s, Find(k), h) == s
  {
    FrozenStep(s.dict, h);
  }

  lemma {:induction false} DeleteFacts<K(!new), V>(s: Session<K, V>, k: K, h: K -> bv64)
    requires SessionOK(s, h) && Allowed(s, Delete(k), h)
    ensures var t := Do(s, Delete(k), h);
      && Touches(s, t, Some(k), h)
      && !Present(t.dict, k, h)
      && t.deletes == (if Present(s.dict, k, h) then s.deletes + multiset{k} else s.deletes)
      && t.lost == (if Present(s.dict, k, h) && k !in s.returned then s.lost + {k} else s.lost)
  {
    Iters.DeleteAhead(s.dict, s.iter, k, h);
    Ops.DeleteOK(s.dict, k, h);
    var t := Do(s, Delete(k), h);
    Iters.EnoughToInsert(s.dict, h);
    assert t.dict == Ops.Delete(s.dict, k, h).0;
    hide DictOK;
    hide Ops.Delete;
    hide Lookup;
    hide Iters.StillAhead;
    hide SessionOK;
    StillToCome(s, t, Some(k), h);
  }

  lemma AddedInv<K(!new), V>(start: Dict<K, V>, s: Session<K, V>, t: Session<K, V>, key: K, h: K -> bv64)
    requires Inv(start, s, h)
    requires t.deletes == s.deletes && t.lost == s.lost && !s.done
    requires Touches(s, t, if Present(s.dict, key, h) then None else Some(key), h)
    requires Present(t.dict, key, h)
    ensures Inv(start, t, h)
  {
    hide DictOK;
    hide SessionOK;
    hide ToCome;
    hide Present;
    forall k: K ensures KeyOK(start, t, k, h) {
      assert KeyOK(start, s, k, h);
    }
  }

  lemma DeletedInv<K(!new), V>(start: Dict<K, V>, s: Session<K, V>, t: Session<K, V>, key: K, h: K -> bv64)
    requires Inv(start, s, h) && !s.done
    requires Touches(s, t, Some(key), h) && !Present(t.dict, key, h)
    requires t.deletes == if Present(s.dict, key, h) then s.deletes + multiset{key} else s.deletes
    requires t.lost == if Present(s.dict, key, h) && key !in s.returned then s.lost + {key} else s.lost
    ensures Inv(start, t, h)
  {
    hide DictOK;
    hide SessionOK;
    hide ToCome;
    hide Present;
    forall k: K ensures KeyOK(start, t, k, h) {
      assert KeyOK(start, s, k, h);
    }
  }

  /** Every event keeps the invariant. */
  lemma StepInv<K(!new), V>(start: Dict<K, V>, s: Session<K, V>, e: Event<K, V>, h: K -> bv64)
    requires Inv(start, s, h) && Allowed(s, e, h)
    ensures Inv(start, Do(s, e, h), h)
  {
    hide DictOK;
    hide SessionOK;
    hide Present;
    hide ToCome;
    hide KeyOK;
    hide Touches;
    hide Do;
    assert e != Next ==> !s.done by { StandsWhileGoing(s, h); }
    match e
    case Next => NextInv(start, s, h);
    case Add(k, v, c) =>
      AddFacts(s, k, v, c, h);
      AddedInv(start, s, Do(s, e, h), k, h);
    case Find(k) => FindFacts(s, k, h);
    case Replace(k, v, c) =>
      ReplaceFacts(s, k, v, c, h);
      AddedInv(start, s, Do(s, e, h), k, h);
    case Delete(k) =>
      DeleteFacts(s, k, h);
      DeletedInv(start, s, Do(s, e, h), k, h);
  }

  lemma StandsWhileGoing<K(!new), V>(s: Session<K, V>, h: K -> bv64)
    requires SessionOK(s, h)
    ensures s.iter.entry.Some? ==> !s.done
  {
  }

  /** A run of events, each allowed where it happens. */
  ghost predicate Run<K(!new), V>(s: Session<K, V>, es: seq<Event<K, V>>, t: Session<K, V>, h: K -> bv64)
    decreases |es|
  {
    if es == [] then t == s
    else SessionOK(s, h) && Allowed(s, es[0], h) && Run(Do(s, es[0], h), es[1..], t, h)
  }

  lemma {:induction false} RunInv<K(!new), V>(start: Dict<K, V>, s: Session<K, V>, es: seq<Event<K, V>>,
                                              t: Session<K, V>, h: K -> bv64)
    requires Inv(start, s, h) && Run(s, es, t, h)
    ensures Inv(start, t, h)
    decreases |es|
  {
    if es != [] {
      StepInv(start, s, es[0], h);
      hide Inv;
      RunInv(start, Do(s, es[0], h), es[1..], t, h);
    }
  }

  /** Safe iteration is exactly-once. At any moment a key has been returned no more often than once
      plus its deletions; and when the iteration ends, every key present at the start was returned
      unless it was deleted before its turn. A key present at the start and never deleted is returned
      exactly once. */
  lemma ExactlyOnce<K(!new), V>(d: Dict<K, V>, es: seq<Event<K, V>>, t: Session<K, V>, k: K, h: K -> bv64)
    requires DictOK(d, h) && Run(Start(d), es, t, h)
    ensures multiset(t.returned)[k] <= 1 + t.deletes[k]
    ensures t.done && Present(d, k, h) && k !in t.lost ==> k in t.returned
    ensures t.done && Present(d, k, h) && t.deletes[k] == 0 ==> multiset(t.returned)[k] == 1
  {
    StartInv(d, h);
    RunInv(d, Start(d), es, t, h);
    hide DictOK;
    hide Present;
    hide ToCome;
    assert KeyOK(d, t, k, h);
    if k in t.returned {
      assert k in multiset(t.returned);
    }
  }
}
