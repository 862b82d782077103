/** HyperLogLogs as sets: over any run of PFADD, PFMERGE and DEL, the registers under a key depend only
    on the set of elements put there, not on order, repeats, encodings or promotions. */
module HllSets {
  import opened Options
  import opened HllSparse
  import opened HllSparseAdd
  import opened HllObject
  import opened HllMerge
  import HllMethods
  import Hash = HllHash
  import Dense = HllDense

  type Elem = seq<bv8>
  type HashFn = Elem -> bv64

  function IndexOf(hash: HashFn, e: Elem): (i: nat)
    ensures i < REGISTERS
  {
    Hash.RegisterInRange(hash(e));
    Hash.Register(hash(e))
  }

  function CountOf(hash: HashFn, e: Elem): (c: nat)
    ensures 1 <= c <= 50
  {
    Hash.PatLen(hash(e), Hash.P)
  }

  // ---- Adding ----

  /** `hllAdd` (hyperloglog.c:1027-1034). */
  ghost function Add(h: Hll, index: nat, count: nat, maxBytes: nat): (Hll, bool)
    requires HllOK(h) && index < REGISTERS && 1 <= count <= 50
  {
    match h
    case DenseRegs(d) => DenseAdd(d, index, count)
    case Sparse(s) => SparseAdd(s, index, count, maxBytes)
  }

  lemma AddOK(h: Hll, index: nat, count: nat, maxBytes: nat)
    requires HllOK(h) && index < REGISTERS && 1 <= count <= 50
    ensures var (g, changed) := Add(h, index, count, maxBytes); Raises(h, index, count, g, changed)
  {
    match h {
      case DenseRegs(d) =>
        DenseAddOK(d, index, count);
      case Sparse(s) =>
        SparseAddOK(s, index, count, maxBytes);
    }
    hide Raises;
    hide DenseAdd;
    hide SparseAdd;
  }

  method AddTo(h: Hll, hash: HashFn, e: Elem, maxBytes: nat) returns (g: Hll, changed: bool)
    requires HllOK(h)
    ensures (g, changed) == Add(h, IndexOf(hash, e), CountOf(hash, e), maxBytes)
  {
    hide DenseAdd;
    hide SparseAdd;
    hide Hash.Register;
    hide Hash.PatLen;
    var index, count := Hash.HllPatLen(hash(e));
    match h {
      case DenseRegs(r) =>
        g, changed := AddDense(r, index, count);
      case Sparse(s) =>
        g, changed := HllMethods.SparseAdd(s, index, count, maxBytes);
    }
  }

  method AddDense(r: seq<bv8>, index: nat, count: nat) returns (g: Hll, changed: bool)
    requires Dense.DenseOK(r) && index < REGISTERS && count <= Dense.REGISTER_MAX
    ensures (g, changed) == DenseAdd(r, index, count)
  {
    var d := new bv8[|r|](i requires 0 <= i < |r| => r[i]);
    assert d[..] == r;
    hide Dense.Reg;
    hide Dense.SetReg;
    changed := Dense.DenseAdd(d, index, count);
    g := DenseRegs(d[..]);
  }

  /** The loop of PFADD over its elements, and how many raised a register. */
  ghost function AddAll(h: Hll, hash: HashFn, es: seq<Elem>, maxBytes: nat): (r: (Hll, nat))
    requires HllOK(h)
    ensures HllOK(r.0)
  {
    if es == [] then (h, 0)
    else
      var n := |es| - 1;
      var (g, updated) := AddAll(h, hash, es[..n], maxBytes);
      AddOK(g, IndexOf(hash, es[n]), CountOf(hash, es[n]), maxBytes);
      var (k, changed) := Add(g, IndexOf(hash, es[n]), CountOf(hash, es[n]), maxBytes);
      (k, updated + if changed then 1 else 0)
  }

  /** `pfaddCommand` (hyperloglog.c:1155-1192): the object, and the reply, which is whether the key was
      created or a register rose. */
  method PfAdd(o: Option<Hll>, hash: HashFn, es: seq<Elem>, maxBytes: nat) returns (h: Hll, reply: bool)
    requires o.Some? ==> HllOK(o.value)
    ensures HllOK(Before(o)) && HllOK(h)
    ensures h == AddAll(Before(o), hash, es, maxBytes).0
    ensures reply <==> o.None? || RegsOf(h) != RegsOf(Before(o))
  {
    var updated := 0;
    if o.None? {
      h := Create();
      updated := updated + 1;
    } else {
      h := o.value;
    }
    AddingStarts(o, hash, es, maxBytes);
    hide *;
    for j := 0 to |es|
      invariant Adding(o, hash, es, j, maxBytes, h, updated)
    {
      AddingStep(o, hash, es, j, maxBytes, h, updated);
      var changed: bool;
      h, changed := AddTo(h, hash, es[j], maxBytes);
      if changed {
        updated := updated + 1;
      }
    }
    AddingEnds(o, hash, es, maxBytes, h, updated);
    reply := updated > 0;
  }

  /** `j` elements are added. */
  ghost predicate Adding(o: Option<Hll>, hash: HashFn, es: seq<Elem>, j: nat, maxBytes: nat, h: Hll, updated: nat) {
    && j <= |es| && HllOK(h) && HllOK(Before(o))
    && h == AddAll(Before(o), hash, es[..j], maxBytes).0
    && updated == AddAll(Before(o), hash, es[..j], maxBytes).1 + if o.None? then 1 else 0
  }

  lemma AddingStarts(o: Option<Hll>, hash: HashFn, es: seq<Elem>, maxBytes: nat)
    requires o.Some? ==> HllOK(o.value)
    ensures Adding(o, hash, es, 0, maxBytes, Before(o), if o.None? then 1 else 0)
    ensures Before(o) == if o.None? then Fresh() else o.value
  {
    FreshOK();
    assert es[..0] == [];
    hide HllOK;
    hide Fresh;
  }

  lemma AddAllNext(h: Hll, hash: HashFn, es: seq<Elem>, j: nat, maxBytes: nat)
    requires HllOK(h) && j < |es|
    ensures var (g, updated) := AddAll(h, hash, es[..j], maxBytes);
            var (k, changed) := Add(g, IndexOf(hash, es[j]), CountOf(hash, es[j]), maxBytes);
      HllOK(k) && AddAll(h, hash, es[..j + 1], maxBytes) == (k, updated + if changed then 1 else 0)
  {
    hide Add;
    hide HllOK;
    hide IndexOf;
    hide CountOf;
    hide RegsOf;
    var g := AddAll(h, hash, es[..j], maxBytes).0;
    AddOK(g, IndexOf(hash, es[j]), CountOf(hash, es[j]), maxBytes);
    assert es[..j + 1][..j] == es[..j];
  }

  lemma AddingStep(o: Option<Hll>, hash: HashFn, es: seq<Elem>, j: nat, maxBytes: nat, h: Hll, updated: nat)
    requires Adding(o, hash, es, j, maxBytes, h, updated) && j < |es|
    ensures HllOK(h)
    ensures var (g, changed) := Add(h, IndexOf(hash, es[j]), CountOf(hash, es[j]), maxBytes);
      Adding(o, hash, es, j + 1, maxBytes, g, if changed then updated + 1 else updated)
  {
    hide Add;
    hide AddAll;
    hide HllOK;
    hide IndexOf;
    hide CountOf;
    hide Before;
    AddAllNext(Before(o), hash, es, j, maxBytes);
  }

  lemma AddingEnds(o: Option<Hll>, hash: HashFn, es: seq<Elem>, maxBytes: nat, h: Hll, updated: nat)
    requires Adding(o, hash, es, |es|, maxBytes, h, updated)
    ensures HllOK(Before(o)) && HllOK(h) && h == AddAll(Before(o), hash, es, maxBytes).0
    ensures updated > 0 <==> o.None? || RegsOf(h) != RegsOf(Before(o))
  {
    assert es[..|es|] == es;
    Updates(Before(o), hash, es, maxBytes);
    hide HllOK;
    hide RegsOf;
    hide Before;
    hide AddAll;
  }

  ghost function Before(o: Option<Hll>): Hll { if o.Some? then o.value else Fresh() }

  /** Registers only rise, and the count of updates is zero exactly when they are the same. */
  lemma {:induction false} Updates(h: Hll, hash: HashFn, es: seq<Elem>, maxBytes: nat)
    requires HllOK(h)
    ensures var (g, updated) := AddAll(h, hash, es, maxBytes);
      && (forall i :: 0 <= i < REGISTERS ==> RegsOf(g)[i] >= RegsOf(h)[i])
      && (updated > 0 <==> RegsOf(g) != RegsOf(h))
    decreases |es|
  {
    hide HllOK;
    hide RegsOf;
    hide Add;
    hide IndexOf;
    hide CountOf;
    if es != [] {
      var n := |es| - 1;
      Updates(h, hash, es[..n], maxBytes);
      var g := AddAll(h, hash, es[..n], maxBytes).0;
      AddOK(g, IndexOf(hash, es[n]), CountOf(hash, es[n]), maxBytes);
      RaisesSays(g, IndexOf(hash, es[n]), CountOf(hash, es[n]), AddAll(h, hash, es, maxBytes).0,
                 Add(g, IndexOf(hash, es[n]), CountOf(hash, es[n]), maxBytes).1);
    }
  }

  lemma RaisesSays(h: Hll, index: nat, count: nat, g: Hll, changed: bool)
    requires HllOK(h) && index < REGISTERS && Raises(h, index, count, g, changed)
    ensures HllOK(g) && RegsOf(g) == RegsOf(h)[index := Max(RegsOf(h)[index], count)]
    ensures changed <==> RegsOf(g) != RegsOf(h)
    ensures forall i :: 0 <= i < REGISTERS ==> RegsOf(g)[i] >= RegsOf(h)[i]
    ensures changed ==> RegsOf(g)[index] > RegsOf(h)[index]
  {
    hide HllOK;
    hide RegsOf;
    assert RegsOf(h)[index := RegsOf(h)[index]] == RegsOf(h);
  }

  // ---- Registers of a set ----

  /** Register `i` is the greatest count among the elements of `S` there, or zero if there is none. */
  ghost predicate Greatest(hash: HashFn, S: set<Elem>, i: nat, v: nat) {
    && (forall e :: e in S && IndexOf(hash, e) == i ==> CountOf(hash, e) <= v)
    && (v != 0 ==> exists e :: e in S && IndexOf(hash, e) == i && CountOf(hash, e) == v)
  }

  ghost predicate StandsFor(hash: HashFn, S: set<Elem>, regs: seq<nat>) {
    |regs| == REGISTERS && forall i :: 0 <= i < REGISTERS ==> Greatest(hash, S, i, regs[i])
  }

  /** A set has one vector of registers. */
  lemma OneVector(hash: HashFn, S: set<Elem>, a: seq<nat>, b: seq<nat>)
    requires StandsFor(hash, S, a) && StandsFor(hash, S, b)
    ensures a == b
  {
    forall i | 0 <= i < REGISTERS ensures a[i] == b[i] {
      hide IndexOf;
      hide CountOf;
      assert Greatest(hash, S, i, a[i]) && Greatest(hash, S, i, b[i]);
    }
  }

  lemma EmptySet(hash: HashFn)
    ensures StandsFor(hash, {}, NoneSet())
  {
  }

  lemma GreatestOfUnion(hash: HashFn, S: set<Elem>, T: set<Elem>, i: nat, v: nat, w: nat)
    requires Greatest(hash, S, i, v) && Greatest(hash, T, i, w)
    ensures Greatest(hash, S + T, i, Max(v, w))
  {
    hide IndexOf;
    hide CountOf;
    var m := Max(v, w);
    if m != 0 {
      var U := if w > v then T else S;
      var e :| e in U && IndexOf(hash, e) == i && CountOf(hash, e) == m;
      assert e in S + T;
    }
  }

  /** Merging registers is the union of the sets. */
  lemma UnionIsMerge(hash: HashFn, S: set<Elem>, a: seq<nat>, T: set<Elem>, b: seq<nat>)
    requires StandsFor(hash, S, a) && StandsFor(hash, T, b)
    ensures StandsFor(hash, S + T, MaxRegs(a, b))
  {
    forall i | 0 <= i < REGISTERS ensures Greatest(hash, S + T, i, MaxRegs(a, b)[i]) {
      GreatestOfUnion(hash, S, T, i, a[i], b[i]);
    }
    hide Greatest;
  }

  lemma GreatestWith(hash: HashFn, S: set<Elem>, e: Elem, i: nat, v: nat)
    requires Greatest(hash, S, i, v)
    ensures Greatest(hash, S + {e}, i, if i == IndexOf(hash, e) then Max(v, CountOf(hash, e)) else v)
  {
    hide IndexOf;
    hide CountOf;
    var w := if i == IndexOf(hash, e) then CountOf(hash, e) else 0;
    assert Greatest(hash, {e}, i, w) by {
      if w != 0 {
        assert e in {e} && IndexOf(hash, e) == i && CountOf(hash, e) == w;
      }
    }
    GreatestOfUnion(hash, S, {e}, i, v, w);
  }

  lemma SetWithOne(hash: HashFn, S: set<Elem>, a: seq<nat>, e: Elem)
    requires StandsFor(hash, S, a)
    ensures var i := IndexOf(hash, e); StandsFor(hash, S + {e}, a[i := Max(a[i], CountOf(hash, e))])
  {
    var k := IndexOf(hash, e);
    var b := a[k := Max(a[k], CountOf(hash, e))];
    forall i | 0 <= i < REGISTERS ensures Greatest(hash, S + {e}, i, b[i]) {
      GreatestWith(hash, S, e, i, a[i]);
    }
    hide Greatest;
    hide IndexOf;
    hide CountOf;
  }

  ghost function SetOf(es: seq<Elem>): set<Elem> { set e | e in es }

  /** Adding elements one after the other, whatever happens to the encoding on the way, gives the
      registers of the set with them in it. */
  lemma {:induction false} AddAllStands(h: Hll, hash: HashFn, es: seq<Elem>, maxBytes: nat, S: set<Elem>)
    requires HllOK(h) && StandsFor(hash, S, RegsOf(h))
    ensures StandsFor(hash, S + SetOf(es), RegsOf(AddAll(h, hash, es, maxBytes).0))
    decreases |es|
  {
    hide HllOK;
    hide RegsOf;
    hide Add;
    hide IndexOf;
    hide CountOf;
    hide StandsFor;
    if es == [] {
      assert S + SetOf(es) == S;
    } else {
      var n := |es| - 1;
      AddAllStands(h, hash, es[..n], maxBytes, S);
      var g := AddAll(h, hash, es[..n], maxBytes).0;
      AddOK(g, IndexOf(hash, es[n]), CountOf(hash, es[n]), maxBytes);
      RaisesSays(g, IndexOf(hash, es[n]), CountOf(hash, es[n]), AddAll(h, hash, es, maxBytes).0,
                 Add(g, IndexOf(hash, es[n]), CountOf(hash, es[n]), maxBytes).1);
      SetWithOne(hash, S + SetOf(es[..n]), RegsOf(g), es[n]);
      assert (S + SetOf(es[..n])) + {es[n]} == S + SetOf(es);
    }
  }

  // ---- Runs of commands ----

  /** A command, with the value `hll-sparse-max-bytes` has then. */
  datatype Command<Key> =
    | PFADD(key: Key, elems: seq<Elem>, maxBytes: nat)
    | PFMERGE(dest: Key, sources: seq<Key>)
    | DEL(key: Key)

  function Lookup<Key, T>(db: map<Key, T>, key: Key): Option<T> { if key in db then Some(db[key]) else None }

  ghost function LookupAll<Key>(db: map<Key, Hll>, keys: seq<Key>): (objs: seq<Option<Hll>>)
    ensures |objs| == |keys| && forall k :: 0 <= k < |keys| ==> objs[k] == Lookup(db, keys[k])
  {
    seq(|keys|, k requires 0 <= k < |keys| => Lookup(db, keys[k]))
  }

  ghost predicate ObjectsOK<Key>(db: map<Key, Hll>) { forall key :: key in db ==> HllOK(db[key]) }

  /** What a command does to the keys. PFMERGE leaves a dense object with the merged registers. */
  ghost predicate Step<Key>(hash: HashFn, db: map<Key, Hll>, c: Command<Key>, db': map<Key, Hll>)
    requires ObjectsOK(db)
  {
    match c
    case PFADD(key, es, maxBytes) =>
      BeforeOK(db, key);
      db' == db[key := AddAll(Before(Lookup(db, key)), hash, es, maxBytes).0]
    case PFMERGE(dest, sources) =>
      && dest in db' && db'[dest].DenseRegs? && HllOK(db'[dest])
      && RegsOf(db'[dest]) == MaxAll(LookupAll(db, [dest] + sources))
      && db' == db[dest := db'[dest]]
    case DEL(key) => db' == db - {key}
  }

  lemma BeforeOK<Key>(db: map<Key, Hll>, key: Key)
    requires ObjectsOK(db)
    ensures HllOK(Before(Lookup(db, key)))
  {
    FreshOK();
    hide HllOK;
    hide Fresh;
  }

  /** The set under a key: none is an empty one. */
  ghost function Members<Key>(sets: map<Key, set<Elem>>, key: Key): set<Elem> {
    if key in sets then sets[key] else {}
  }

  ghost function UnionAll<Key>(sets: map<Key, set<Elem>>, keys: seq<Key>): set<Elem> {
    if keys == [] then {} else UnionAll(sets, keys[..|keys| - 1]) + Members(sets, keys[|keys| - 1])
  }

  /** What the same command does to sets of elements. */
  ghost function SetStep<Key>(sets: map<Key, set<Elem>>, c: Command<Key>): map<Key, set<Elem>> {
    match c
    case PFADD(key, es, _) => sets[key := Members(sets, key) + SetOf(es)]
    case PFMERGE(dest, sources) => sets[dest := UnionAll(sets, [dest] + sources)]
    case DEL(key) => sets - {key}
  }

  /** Every key stands for its set. */
  ghost predicate Stands<Key>(hash: HashFn, db: map<Key, Hll>, sets: map<Key, set<Elem>>) {
    && db.Keys == sets.Keys && ObjectsOK(db)
    && forall key :: key in db ==> StandsFor(hash, sets[key], RegsOf(db[key]))
  }

  lemma {:induction false} MaxAllStands<Key>(hash: HashFn, db: map<Key, Hll>, sets: map<Key, set<Elem>>, keys: seq<Key>)
    requires Stands(hash, db, sets)
    ensures AllOK(LookupAll(db, keys)) && StandsFor(hash, UnionAll(sets, keys), MaxAll(LookupAll(db, keys)))
    decreases |keys|
  {
    hide StandsFor;
    hide HllOK;
    hide RegsOf;
    if keys == [] {
      EmptySet(hash);
    } else {
      var n := |keys| - 1;
      var objs := LookupAll(db, keys);
      MaxAllStands(hash, db, sets, keys[..n]);
      assert objs[..n] == LookupAll(db, keys[..n]);
      if keys[n] in db {
        UnionIsMerge(hash, UnionAll(sets, keys[..n]), MaxAll(objs[..n]), sets[keys[n]], RegsOf(db[keys[n]]));
      } else {
        assert UnionAll(sets, keys[..n]) + {} == UnionAll(sets, keys[..n]);
      }
    }
  }

  lemma StepOK<Key>(hash: HashFn, db: map<Key, Hll>, c: Command<Key>, db': map<Key, Hll>, sets: map<Key, set<Elem>>)
    requires Stands(hash, db, sets) && Step(hash, db, c, db')
    ensures Stands(hash, db', SetStep(sets, c))
  {
    match c {
      case PFADD(key, es, maxBytes) =>
        AddStands(hash, db, key, es, maxBytes, sets);
      case PFMERGE(dest, sources) =>
        MergeStands(hash, db, dest, sources, db', sets);
      case DEL(key) =>
    }
    hide StandsFor;
    hide HllOK;
    hide RegsOf;
    hide AddAll;
    hide MaxAll;
    hide UnionAll;
    hide Before;
    hide SetOf;
    hide LookupAll;
    hide Members;
  }

  lemma AddStands<Key>(hash: HashFn, db: map<Key, Hll>, key: Key, es: seq<Elem>, maxBytes: nat,
                       sets: map<Key, set<Elem>>)
    requires Stands(hash, db, sets)
    ensures HllOK(Before(Lookup(db, key)))
    ensures Stands(hash, db[key := AddAll(Before(Lookup(db, key)), hash, es, maxBytes).0],
                   sets[key := Members(sets, key) + SetOf(es)])
  {
    BeforeStands(hash, db, sets, key);
    AddAllStands(Before(Lookup(db, key)), hash, es, maxBytes, Members(sets, key));
    StandsWith(hash, db, sets, key, AddAll(Before(Lookup(db, key)), hash, es, maxBytes).0,
               Members(sets, key) + SetOf(es));
    hide *;
  }

  lemma MergeStands<Key>(hash: HashFn, db: map<Key, Hll>, dest: Key, sources: seq<Key>, db': map<Key, Hll>,
                         sets: map<Key, set<Elem>>)
    requires Stands(hash, db, sets) && Step(hash, db, PFMERGE(dest, sources), db')
    ensures Stands(hash, db', sets[dest := UnionAll(sets, [dest] + sources)])
  {
    MaxAllStands(hash, db, sets, [dest] + sources);
    StandsWith(hash, db, sets, dest, db'[dest], UnionAll(sets, [dest] + sources));
    hide MaxAll;
    hide UnionAll;
    hide StandsFor;
    hide HllOK;
    hide RegsOf;
    hide LookupAll;
    hide Stands;
  }

  lemma StandsWith<Key>(hash: HashFn, db: map<Key, Hll>, sets: map<Key, set<Elem>>, key: Key, h: Hll, S: set<Elem>)
    requires Stands(hash, db, sets) && HllOK(h) && StandsFor(hash, S, RegsOf(h))
    ensures Stands(hash, db[key := h], sets[key := S])
  {
    hide StandsFor;
    hide HllOK;
    hide RegsOf;
  }

  lemma BeforeStands<Key>(hash: HashFn, db: map<Key, Hll>, sets: map<Key, set<Elem>>, key: Key)
    requires Stands(hash, db, sets)
    ensures HllOK(Before(Lookup(db, key))) && StandsFor(hash, Members(sets, key), RegsOf(Before(Lookup(db, key))))
  {
    FreshOK();
    EmptySet(hash);
    hide HllOK;
    hide RegsOf;
    hide StandsFor;
    hide Fresh;
  }

  /** A run from no keys. */
  ghost predicate Run<Key>(hash: HashFn, cs: seq<Command<Key>>, dbs: seq<map<Key, Hll>>) {
    && |dbs| == |cs| + 1 && dbs[0] == map[]
    && forall k :: 0 <= k < |cs| ==> ObjectsOK(dbs[k]) && Step(hash, dbs[k], cs[k], dbs[k + 1])
  }

  ghost function SetsAfter<Key>(cs: seq<Command<Key>>): map<Key, set<Elem>> {
    if cs == [] then map[] else SetStep(SetsAfter(cs[..|cs| - 1]), cs[|cs| - 1])
  }

  /** In every reachable state each key's registers are those of the set of elements put there: register
      `i` is the greatest count among the elements that hash to it. */
  lemma {:induction false} RunOK<Key>(hash: HashFn, cs: seq<Command<Key>>, dbs: seq<map<Key, Hll>>)
    requires Run(hash, cs, dbs)
    ensures Stands(hash, dbs[|cs|], SetsAfter(cs))
    decreases |cs|
  {
    hide Stands;
    hide Step;
    if cs == [] {
      NothingStands<Key>(hash);
    } else {
      var n := |cs| - 1;
      RunOK(hash, cs[..n], dbs[..|cs|]);
      assert Step(hash, dbs[n], cs[n], dbs[n + 1]);
      StepOK(hash, dbs[n], cs[n], dbs[n + 1], SetsAfter(cs[..n]));
    }
  }

  lemma NothingStands<Key>(hash: HashFn)
    ensures Stands<Key>(hash, map[], map[])
  {
  }

  /** Two keys, of two runs or of one, with the same set of elements have the same registers, whatever
      the order, the repeats, the merges and the promotions. */
  lemma SameSetSameRegisters<Key>(hash: HashFn, cs: seq<Command<Key>>, dbs: seq<map<Key, Hll>>, key: Key,
                                  cs': seq<Command<Key>>, dbs': seq<map<Key, Hll>>, key': Key)
    requires Run(hash, cs, dbs) && Run(hash, cs', dbs')
    requires Lookup(SetsAfter(cs), key).Some? && Lookup(SetsAfter(cs), key) == Lookup(SetsAfter(cs'), key')
    ensures var db, db' := dbs[|cs|], dbs'[|cs'|];
      && key in db && key' in db' && HllOK(db[key]) && HllOK(db'[key'])
      && RegsOf(db[key]) == RegsOf(db'[key'])
  {
    RunOK(hash, cs, dbs);
    RunOK(hash, cs', dbs');
    hide StandsFor;
    hide HllOK;
    hide RegsOf;
    hide Run;
    OneVector(hash, SetsAfter(cs)[key], RegsOf(dbs[|cs|][key]), RegsOf(dbs'[|cs'|][key']));
  }
}
