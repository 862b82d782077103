/** Rewriting the append only file: the commands that rebuild a dataset, at most 64 items each, and
    that replaying them gives the dataset back, whatever order the dictionaries are walked in. */
module AofRewrite {
  import opened Options
  import opened Bytes
  import opened AofCodec
  import opened AofReplay

  const ITEMS_PER_CMD := 64

  type Item = seq<Bulk>

  function Flat(items: seq<Item>): seq<Bulk> {
    if items == [] then [] else items[0] + Flat(items[1..])
  }

  predicate Sized(k: Kind, items: seq<Item>) {
    forall i :: 0 <= i < |items| ==> |items[i]| == Width(k)
  }

  /** The place of a collection's key in an item. */
  function KeyOf(k: Kind, item: Item): Bulk
    requires |item| == Width(k)
  {
    if k == KZSet then item[1] else item[0]
  }

  ghost predicate DistinctKeys(k: Kind, items: seq<Item>)
    requires Sized(k, items)
  {
    forall i, j :: 0 <= i < j < |items| ==> KeyOf(k, items[i]) != KeyOf(k, items[j])
  }

  ghost predicate MapItems(k: Kind, m: map<Bulk, Bulk>, items: seq<Item>)
    requires Sized(k, items) && Width(k) == 2
  {
    && (forall i :: 0 <= i < |items| ==>
          KeyOf(k, items[i]) in m && m[KeyOf(k, items[i])] == items[i][if k == KZSet then 0 else 1])
    && (forall x :: x in m ==> exists i :: 0 <= i < |items| && KeyOf(k, items[i]) == x)
  }

  /** `items` lists the entries of the value, each once; a list in order, the others in any order. */
  ghost predicate Enumerates(k: Kind, v: Value, items: seq<Item>) {
    && HasKind(v, k) && Sized(k, items) && items != []
    && match v
       case List(xs) => |items| == |xs| && forall i :: 0 <= i < |items| ==> items[i] == [xs[i]]
       case Set(ms) =>
         && DistinctKeys(k, items)
         && (forall i :: 0 <= i < |items| ==> items[i][0] in ms)
         && (forall m :: m in ms ==> exists i :: 0 <= i < |items| && items[i][0] == m)
       case ZSet(sc) => DistinctKeys(k, items) && MapItems(k, sc, items)
       case Hash(fs) => DistinctKeys(k, items) && MapItems(k, fs, items)
       case Str(_) => false
  }

  lemma {:induction false} FlatSize(k: Kind, items: seq<Item>)
    requires Sized(k, items)
    ensures |Flat(items)| == Width(k) * |items| && |Flat(items)| % Width(k) == 0
  {
    if items != [] {
      FlatSize(k, items[1..]);
    }
  }

  lemma {:induction false} FlatConcat(a: seq<Item>, b: seq<Item>)
    ensures Flat(a + b) == Flat(a) + Flat(b)
  {
    if a == [] {
      assert a + b == b;
    } else {
      assert (a + b)[1..] == a[1..] + b;
      FlatConcat(a[1..], b);
    }
  }

  /** Adding items one by one, from the last. */
  lemma {:induction false} AbsorbItems(k: Kind, v: Value, items: seq<Item>)
    requires HasKind(v, k) && Sized(k, items) && items != []
    ensures |Flat(items)| % Width(k) == 0
    ensures var n := |items| - 1;
      && Sized(k, items[..n]) && |Flat(items[..n])| % Width(k) == 0
      && AbsorbAll(k, v, Flat(items)) == Absorb(k, AbsorbAll(k, v, Flat(items[..n])), items[n])
  {
    var n := |items| - 1;
    var last := [items[n]];
    assert items == items[..n] + last;
    FlatConcat(items[..n], last);
    FlatSize(k, items[..n]);
    FlatSize(k, last);
    FlatSize(k, items);
    assert Flat(last) == items[n] + Flat([]) == items[n];
    var u := AbsorbAll(k, v, Flat(items[..n]));
    AbsorbConcat(k, v, Flat(items[..n]), items[n]);
    AbsorbOne(k, u, items[n]);
  }

  lemma AbsorbOne(k: Kind, v: Value, item: Item)
    requires HasKind(v, k) && |item| == Width(k)
    ensures AbsorbAll(k, v, item) == Absorb(k, v, item)
  {
    assert item[Width(k)..] == [];
  }

  /** The items of a collection rebuild it. */
  lemma {:induction false} ListItems(items: seq<Item>, xs: seq<Bulk>)
    requires Sized(KList, items) && |items| == |xs| && forall i :: 0 <= i < |items| ==> items[i] == [xs[i]]
    ensures |Flat(items)| % 1 == 0
    ensures AbsorbAll(KList, List([]), Flat(items)) == List(xs)
    decreases |items|
  {
    if items != [] {
      var n := |items| - 1;
      AbsorbItems(KList, List([]), items);
      ListItems(items[..n], xs[..n]);
      assert xs == xs[..n] + [xs[n]];
    }
  }

  lemma {:induction false} SetItems(items: seq<Item>)
    requires Sized(KSet, items)
    ensures AbsorbAll(KSet, Set({}), Flat(items)) == Set(set i | 0 <= i < |items| :: items[i][0])
    decreases |items|
  {
    if items != [] {
      var n := |items| - 1;
      AbsorbItems(KSet, Set({}), items);
      SetItems(items[..n]);
      var a := set i | 0 <= i < n :: items[..n][i][0];
      assert (set i | 0 <= i < |items| :: items[i][0]) == a + {items[n][0]};
    }
  }

  /** The map after the items, for the two kinds that keep one. */
  function MapOf(k: Kind, v: Value): map<Bulk, Bulk>
    requires HasKind(v, k) && Width(k) == 2
  {
    if k == KZSet then v.scores else v.fields
  }

  function ValueOf(k: Kind, item: Item): Bulk
    requires |item| == Width(k) == 2
  {
    item[if k == KZSet then 0 else 1]
  }

  lemma PairStep(k: Kind, items: seq<Item>, n: nat, before: map<Bulk, Bulk>)
    requires Sized(k, items) && Width(k) == 2 && DistinctKeys(k, items) && |items| == n + 1
    requires Sized(k, items[..n]) && MapItems(k, before, items[..n])
    ensures MapItems(k, before[KeyOf(k, items[n]) := ValueOf(k, items[n])], items)
  {
    var m := before[KeyOf(k, items[n]) := ValueOf(k, items[n])];
    forall x | x in m ensures exists i :: 0 <= i < |items| && KeyOf(k, items[i]) == x {
      if x != KeyOf(k, items[n]) {
        var i :| 0 <= i < n && KeyOf(k, items[..n][i]) == x;
        assert items[i] == items[..n][i];
      }
    }
    forall i | 0 <= i < |items|
      ensures KeyOf(k, items[i]) in m && m[KeyOf(k, items[i])] == ValueOf(k, items[i])
    {
      if i < n {
        assert items[..n][i] == items[i];
      }
    }
  }

  lemma {:induction false} PairItems(k: Kind, items: seq<Item>)
    requires Sized(k, items) && Width(k) == 2 && DistinctKeys(k, items)
    ensures |Flat(items)| % Width(k) == 0
    ensures MapItems(k, MapOf(k, AbsorbAll(k, Nothing(k), Flat(items))), items)
    decreases |items|
  {
    FlatSize(k, items);
    if items != [] {
      var n := |items| - 1;
      AbsorbItems(k, Nothing(k), items);
      PairItems(k, items[..n]);
      var before := AbsorbAll(k, Nothing(k), Flat(items[..n]));
      hide MapItems;
      hide DistinctKeys;
      hide AbsorbAll;
      PairStep(k, items, n, MapOf(k, before));
    }
  }

  lemma SameMapItems(k: Kind, m: map<Bulk, Bulk>, n: map<Bulk, Bulk>, items: seq<Item>)
    requires Sized(k, items) && Width(k) == 2 && MapItems(k, m, items) && MapItems(k, n, items)
    ensures m == n
  {
    forall x | x in m ensures x in n && m[x] == n[x] {
      var i :| 0 <= i < |items| && KeyOf(k, items[i]) == x;
    }
    forall x | x in n ensures x in m {
      var i :| 0 <= i < |items| && KeyOf(k, items[i]) == x;
    }
  }

  lemma PairsBuild(k: Kind, v: Value, items: seq<Item>)
    requires HasKind(v, k) && Sized(k, items) && Width(k) == 2
    requires DistinctKeys(k, items) && MapItems(k, MapOf(k, v), items)
    ensures |Flat(items)| % Width(k) == 0
    ensures AbsorbAll(k, Nothing(k), Flat(items)) == v
  {
    PairItems(k, items);
    var u := AbsorbAll(k, Nothing(k), Flat(items));
    SameMapItems(k, MapOf(k, u), MapOf(k, v), items);
    hide MapItems;
    hide DistinctKeys;
    hide AbsorbAll;
  }

  lemma SetBuilds(ms: set<Bulk>, items: seq<Item>)
    requires Sized(KSet, items)
    requires forall i :: 0 <= i < |items| ==> items[i][0] in ms
    requires forall m :: m in ms ==> exists i :: 0 <= i < |items| && items[i][0] == m
    ensures |Flat(items)| % 1 == 0
    ensures AbsorbAll(KSet, Set({}), Flat(items)) == Set(ms)
  {
    SetItems(items);
    assert (set i | 0 <= i < |items| :: items[i][0]) == ms;
  }

  /** Rebuilding a collection from an enumeration gives the collection back. */
  lemma EnumerationBuilds(k: Kind, v: Value, items: seq<Item>)
    requires Enumerates(k, v, items)
    ensures |Flat(items)| % Width(k) == 0
    ensures AbsorbAll(k, Nothing(k), Flat(items)) == v
  {
    FlatSize(k, items);
    hide AbsorbAll;
    hide DistinctKeys;
    match v
    case List(xs) => ListItems(items, xs);
    case Set(ms) => SetBuilds(ms, items);
    case ZSet(sc) => PairsBuild(k, v, items);
    case Hash(fs) => PairsBuild(k, v, items);
    case Str(_) =>
  }

  // ---- Commands ----

  function Chunk(k: Kind, key: Bulk, items: seq<Item>): Command { [Name(k), key] + Flat(items) }

  /** The commands that rebuild a collection, 64 items each but for the last (aof.c:786-1013). */
  function Chunks(k: Kind, key: Bulk, items: seq<Item>): seq<Command>
    decreases |items|
  {
    if items == [] then []
    else if |items| <= ITEMS_PER_CMD then [Chunk(k, key, items)]
    else [Chunk(k, key, items[..ITEMS_PER_CMD])] + Chunks(k, key, items[ITEMS_PER_CMD..])
  }

  /** Every command but the last has 64 items, and the last at most as many. */
  lemma {:induction false} ChunkSizes(k: Kind, key: Bulk, items: seq<Item>)
    requires Sized(k, items)
    ensures var cs := Chunks(k, key, items);
      && (items != [] ==> cs != [] && 2 < |cs[|cs| - 1]| <= 2 + 64 * Width(k))
      && forall i :: 0 <= i < |cs| - 1 ==> |cs[i]| == 2 + 64 * Width(k)
    decreases |items|
  {
    if |items| <= ITEMS_PER_CMD {
      FlatSize(k, items);
    } else {
      FlatSize(k, items[..ITEMS_PER_CMD]);
      ChunkSizes(k, key, items[ITEMS_PER_CMD..]);
    }
  }

  function Put(cl: Client, key: Bulk, v: Value): Client
    requires ClientOK(cl)
  {
    cl.(data := cl.data[cl.db := cl.data[cl.db][key := v]])
  }

  lemma Named(k: Kind)
    ensures KindOf(Name(k)) == Some(k) && Name(k) != SELECT && Name(k) != SET
  {
  }

  /** One chunk adds its items. */
  lemma ChunkExec(other: Other, cl: Client, k: Kind, key: Bulk, items: seq<Item>, v: Value)
    requires ClientOK(cl) && Sized(k, items) && items != [] && HasKind(v, k)
    requires if key in cl.data[cl.db] then cl.data[cl.db][key] == v else v == Nothing(k)
    ensures |Flat(items)| % Width(k) == 0
    ensures Chunk(k, key, items) != []
    ensures Exec(other, cl, Chunk(k, key, items)) == Put(cl, key, AbsorbAll(k, v, Flat(items)))
  {
    FlatSize(k, items);
    Named(k);
    var c := Chunk(k, key, items);
    assert c[2..] == Flat(items) && c[0] == Name(k) && c[1] == key;
    hide Name;
    hide KindOf;
    hide AbsorbAll;
    hide Nothing;
    assert Width(k) * |items| >= Width(k);
    assert Builds(c, k);
  }

  /** What the key must hold before: the value so far, or nothing. */
  ghost predicate SoFar(cl: Client, k: Kind, key: Bulk, v: Value) {
    && ClientOK(cl) && HasKind(v, k)
    && (if key in cl.data[cl.db] then cl.data[cl.db][key] == v else v == Nothing(k))
  }

  lemma PutSoFar(cl: Client, k: Kind, key: Bulk, v: Value, w: Value)
    requires ClientOK(cl) && HasKind(w, k)
    ensures SoFar(Put(cl, key, w), k, key, w) && ClientOK(Put(cl, key, w))
    ensures Put(Put(cl, key, w), key, v) == Put(cl, key, v)
  {
    hide HasKind;
    hide Nothing;
    var next := Put(cl, key, w);
    assert next.data[cl.db][key := v] == cl.data[cl.db][key := v];
  }

  lemma ReplayFirst(other: Other, cl: Client, c: Command, cs: seq<Command>)
    requires ClientOK(cl) && c != []
    ensures Replay(other, cl, [c] + cs) == Replay(other, Exec(other, cl, c), cs)
  {
    assert ([c] + cs)[1..] == cs;
    hide Exec;
  }

  lemma ReplayNone(other: Other, cl: Client)
    ensures Replay(other, cl, []) == Some(cl)
  {
  }

  lemma {:induction false} ChunksReplay(other: Other, cl: Client, k: Kind, key: Bulk, items: seq<Item>, v: Value)
    requires Sized(k, items) && items != [] && SoFar(cl, k, key, v)
    ensures |Flat(items)| % Width(k) == 0 && ClientOK(cl) && HasKind(v, k)
    ensures Replay(other, cl, Chunks(k, key, items)) == Some(Put(cl, key, AbsorbAll(k, v, Flat(items))))
    decreases |items|
  {
    FlatSize(k, items);
    hide AbsorbAll;
    hide HasKind;
    hide Nothing;
    hide Exec;
    hide Chunk;
    hide Replay;
    hide Put;
    hide Flat;
    if |items| <= ITEMS_PER_CMD {
      ChunkExec(other, cl, k, key, items, v);
      assert Chunks(k, key, items) == [Chunk(k, key, items)] + [];
      ReplayFirst(other, cl, Chunk(k, key, items), []);
      ReplayNone(other, Exec(other, cl, Chunk(k, key, items)));
    } else {
      var a, b := items[..ITEMS_PER_CMD], items[ITEMS_PER_CMD..];
      assert items == a + b;
      ChunkExec(other, cl, k, key, a, v);
      var w := AbsorbAll(k, v, Flat(a));
      FlatSize(k, a);
      FlatSize(k, b);
      PutSoFar(cl, k, key, AbsorbAll(k, w, Flat(b)), w);
      ReplayFirst(other, cl, Chunk(k, key, a), Chunks(k, key, b));
      ChunksReplay(other, Put(cl, key, w), k, key, b, w);
      FlatConcat(a, b);
      AbsorbConcat(k, v, Flat(a), Flat(b));
    }
  }

  // ---- A whole dataset ----

  /** How a key is written: the items of a collection in the order they are walked. */
  datatype KeyPlan = KeyPlan(key: Bulk, items: seq<Item>)

  function KindOfValue(v: Value): Kind
    requires !v.Str?
  {
    if v.List? then KList else if v.Set? then KSet else if v.ZSet? then KZSet else KHash
  }

  function KeyCommands(v: Value, p: KeyPlan): seq<Command> {
    if v.Str? then [[SET, p.key, v.text]] else Chunks(KindOfValue(v), p.key, p.items)
  }

  ghost predicate KeyPlanOK(v: Value, p: KeyPlan) {
    !v.Str? ==> Enumerates(KindOfValue(v), v, p.items)
  }

  ghost predicate DbPlanOK(db: Db, ps: seq<KeyPlan>) {
    && (forall i, j :: 0 <= i < j < |ps| ==> ps[i].key != ps[j].key)
    && (forall i :: 0 <= i < |ps| ==> ps[i].key in db && KeyPlanOK(db[ps[i].key], ps[i]))
    && (forall k :: k in db ==> exists i :: 0 <= i < |ps| && ps[i].key == k)
  }

  function DbCommands(db: Db, ps: seq<KeyPlan>): seq<Command>
    requires forall i :: 0 <= i < |ps| ==> ps[i].key in db
  {
    if ps == [] then [] else KeyCommands(db[ps[0].key], ps[0]) + DbCommands(db, ps[1..])
  }

  ghost predicate PlanOK(data: Data, plan: seq<seq<KeyPlan>>) {
    |plan| == |data| && forall j :: 0 <= j < |data| ==> DbPlanOK(data[j], plan[j])
  }

  /** The rewritten file's commands (aof.c:1061-1125): databases in order, empty ones skipped. */
  ghost function RewriteFrom(data: Data, plan: seq<seq<KeyPlan>>, j: nat): seq<Command>
    requires PlanOK(data, plan) && j <= |data|
    decreases |data| - j
  {
    if j == |data| then []
    else if plan[j] == [] then RewriteFrom(data, plan, j + 1)
    else [[SELECT, Dec(j)]] + DbCommands(data[j], plan[j]) + RewriteFrom(data, plan, j + 1)
  }

  /** One key is rebuilt as it was. */
  lemma KeyReplay(other: Other, cl: Client, v: Value, p: KeyPlan)
    requires ClientOK(cl) && p.key !in cl.data[cl.db] && KeyPlanOK(v, p)
    ensures Replay(other, cl, KeyCommands(v, p)) == Some(Put(cl, p.key, v))
  {
    if v.Str? {
      var c: Command := [SET, p.key, v.text];
      assert Exec(other, cl, c) == Put(cl, p.key, v);
      assert [c][1..] == [];
    } else {
      var k := KindOfValue(v);
      EnumerationBuilds(k, v, p.items);
      ChunksReplay(other, cl, k, p.key, p.items, Nothing(k));
    }
  }

  /** The entries of the plans, as a database. */
  function Planned(db: Db, ps: seq<KeyPlan>): Db
    requires forall i :: 0 <= i < |ps| ==> ps[i].key in db
  {
    map k | k in (set i | 0 <= i < |ps| :: ps[i].key) :: db[k]
  }

  ghost predicate Plans(db: Db, ps: seq<KeyPlan>) {
    && (forall i, j :: 0 <= i < j < |ps| ==> ps[i].key != ps[j].key)
    && (forall i :: 0 <= i < |ps| ==> ps[i].key in db && KeyPlanOK(db[ps[i].key], ps[i]))
  }

  ghost predicate Unused(cl: Client, ps: seq<KeyPlan>)
    requires ClientOK(cl)
  {
    forall i :: 0 <= i < |ps| ==> ps[i].key !in cl.data[cl.db]
  }

  /** The client's database with the planned entries added. */
  ghost function Filled(cl: Client, db: Db, ps: seq<KeyPlan>): Client
    requires ClientOK(cl) && Plans(db, ps)
  {
    cl.(data := cl.data[cl.db := cl.data[cl.db] + Planned(db, ps)])
  }

  lemma FilledNone(cl: Client, db: Db)
    requires ClientOK(cl)
    ensures Filled(cl, db, []) == cl
  {
    assert cl.data[cl.db] + Planned(db, []) == cl.data[cl.db];
  }

  lemma FilledStep(cl: Client, db: Db, ps: seq<KeyPlan>)
    requires ClientOK(cl) && Plans(db, ps) && ps != [] && Unused(cl, ps)
    ensures Plans(db, ps[1..])
    ensures var next := Put(cl, ps[0].key, db[ps[0].key]);
      ClientOK(next) && Unused(next, ps[1..]) && Filled(next, db, ps[1..]) == Filled(cl, db, ps)
  {
    hide KeyPlanOK;
    PlannedFirst(db, ps);
    var here := cl.data[cl.db];
    var next := Put(cl, ps[0].key, db[ps[0].key]);
    hide Planned;
    assert next.data[cl.db] + Planned(db, ps[1..]) == here + Planned(db, ps);
    assert next.data[cl.db := here + Planned(db, ps)] == cl.data[cl.db := here + Planned(db, ps)];
  }

  lemma DbCommandsFirst(db: Db, ps: seq<KeyPlan>)
    requires ps != [] && Plans(db, ps)
    ensures Plans(db, ps[1..]) && ps[0].key in db && KeyPlanOK(db[ps[0].key], ps[0])
    ensures DbCommands(db, ps) == KeyCommands(db[ps[0].key], ps[0]) + DbCommands(db, ps[1..])
  {
    hide KeyPlanOK;
  }

  lemma {:induction false} DbReplay(other: Other, cl: Client, db: Db, ps: seq<KeyPlan>)
    requires ClientOK(cl) && Plans(db, ps) && Unused(cl, ps)
    ensures Replay(other, cl, DbCommands(db, ps)) == Some(Filled(cl, db, ps))
    decreases |ps|
  {
    if ps == [] {
      FilledNone(cl, db);
    } else {
      assert ps[0].key !in cl.data[cl.db];
      hide *;
      DbCommandsFirst(db, ps);
      KeyReplay(other, cl, db[ps[0].key], ps[0]);
      FilledStep(cl, db, ps);
      var next := Put(cl, ps[0].key, db[ps[0].key]);
      DbReplay(other, next, db, ps[1..]);
      ReplayConcat(other, cl, KeyCommands(db[ps[0].key], ps[0]), DbCommands(db, ps[1..]));
    }
  }

  lemma PlannedFirst(db: Db, ps: seq<KeyPlan>)
    requires ps != [] && forall i :: 0 <= i < |ps| ==> ps[i].key in db
    ensures forall i :: 0 <= i < |ps[1..]| ==> ps[1..][i].key in db
    ensures Planned(db, ps) == Planned(db, ps[1..])[ps[0].key := db[ps[0].key]]
  {
    var a := set i | 0 <= i < |ps| :: ps[i].key;
    var b := set i | 0 <= i < |ps[1..]| :: ps[1..][i].key;
    forall k | k in a ensures k in b || k == ps[0].key {
      var i :| 0 <= i < |ps| && ps[i].key == k;
      if i > 0 {
        assert ps[1..][i - 1].key == k;
      }
    }
    forall k | k in b ensures k in a {
      var i :| 0 <= i < |ps[1..]| && ps[1..][i].key == k;
      assert ps[i + 1].key == k;
    }
  }

  /** A full plan plans the whole database. */
  lemma PlannedAll(db: Db, ps: seq<KeyPlan>)
    requires DbPlanOK(db, ps)
    ensures Plans(db, ps) && Planned(db, ps) == db
  {
    hide KeyPlanOK;
    forall k | k in db ensures k in (set i | 0 <= i < |ps| :: ps[i].key) {
      var i :| 0 <= i < |ps| && ps[i].key == k;
    }
  }

  /** The databases below `j` are rebuilt, the others still empty. */
  ghost predicate RebuiltTo(data: Data, cl: Client, j: nat) {
    && |cl.data| == |data| && ClientOK(cl) && j <= |data|
    && forall i :: 0 <= i < |data| ==> cl.data[i] == if i < j then data[i] else map[]
  }

  lemma SelectReplay(other: Other, cl: Client, j: nat)
    requires ClientOK(cl) && j < |cl.data|
    ensures Exec(other, cl, [SELECT, Dec(j)]) == cl.(db := j)
  {
    StrtolDec(j, []);
    assert Dec(j) + [] == Dec(j);
    hide Dec;
    hide Strtol;
  }

  lemma OneDb(other: Other, data: Data, cl: Client, j: nat, ps: seq<KeyPlan>) returns (after: Client)
    requires RebuiltTo(data, cl, j) && j < |data| && DbPlanOK(data[j], ps)
    ensures Plans(data[j], ps)
    ensures Replay(other, cl, [[SELECT, Dec(j)]] + DbCommands(data[j], ps)) == Some(after)
    ensures RebuiltTo(data, after, j + 1)
  {
    SelectReplay(other, cl, j);
    PlannedAll(data[j], ps);
    var selected := cl.(db := j);
    assert cl.data[j] == map[];
    DbReplay(other, selected, data[j], ps);
    after := Filled(selected, data[j], ps);
    assert map[] + data[j] == data[j];
    assert after.data[j] == data[j];
    var c: Command := [SELECT, Dec(j)];
    hide DbPlanOK;
    hide Exec;
    assert ([c] + DbCommands(data[j], ps))[1..] == DbCommands(data[j], ps);
  }

  lemma NoKeys(db: Db, ps: seq<KeyPlan>)
    requires DbPlanOK(db, ps) && ps == []
    ensures db == map[]
  {
    forall k | k in db ensures false {
    }
  }

  lemma {:induction false} RewriteFromReplays(other: Other, data: Data, plan: seq<seq<KeyPlan>>, cl: Client, j: nat)
    returns (after: Client)
    requires PlanOK(data, plan) && RebuiltTo(data, cl, j)
    ensures Replay(other, cl, RewriteFrom(data, plan, j)) == Some(after)
    ensures after.data == data && ClientOK(after)
    decreases |data| - j
  {
    if j == |data| {
      after := cl;
    } else if plan[j] == [] {
      NoKeys(data[j], plan[j]);
      after := RewriteFromReplays(other, data, plan, cl, j + 1);
    } else {
      var next := OneDb(other, data, cl, j, plan[j]);
      after := RewriteFromReplays(other, data, plan, next, j + 1);
      ReplayConcat(other, cl, [[SELECT, Dec(j)]] + DbCommands(data[j], plan[j]), RewriteFrom(data, plan, j + 1));
      hide DbPlanOK;
      hide Replay;
      hide DbCommands;
      hide RebuiltTo;
    }
  }

  /** Replaying the rewritten commands from an empty server gives the dataset, in whatever order keys
      and items were walked. */
  lemma RewriteReplays(other: Other, data: Data, plan: seq<seq<KeyPlan>>) returns (after: Client)
    requires PlanOK(data, plan) && data != []
    ensures Replay(other, Start(|data|), RewriteFrom(data, plan, 0)) == Some(after)
    ensures after.data == data && ClientOK(after)
  {
    after := RewriteFromReplays(other, data, plan, Start(|data|), 0);
  }

  // ---- The commands fit the file format ----

  ghost predicate Plain(c: Command) { CommandFits(c) && !IsMulti(c) }

  ghost predicate AllPlain(cs: seq<Command>) { forall i :: 0 <= i < |cs| ==> Plain(cs[i]) }

  lemma AllPlainConcat(a: seq<Command>, b: seq<Command>)
    requires AllPlain(a) && AllPlain(b)
    ensures AllPlain(a + b)
  {
    hide Plain;
  }

  ghost predicate BulksFit(args: seq<Bulk>) { forall i :: 0 <= i < |args| ==> Fits(|args[i]|) }

  lemma {:induction false} FlatFits(items: seq<Item>)
    requires forall i :: 0 <= i < |items| ==> BulksFit(items[i])
    ensures BulksFit(Flat(items))
  {
    if items != [] {
      FlatFits(items[1..]);
    }
  }

  lemma ItemFits(k: Kind, v: Value, items: seq<Item>, i: nat)
    requires Enumerates(k, v, items) && ValueOK(v) && i < |items|
    ensures BulksFit(items[i])
  {
    hide Fits;
    match v
    case List(xs) => assert items[i] == [xs[i]];
    case Set(ms) => assert items[i][0] in ms;
    case ZSet(sc) => assert KeyOf(k, items[i]) in sc;
    case Hash(fs) => assert KeyOf(k, items[i]) in fs;
    case Str(_) =>
  }

  lemma ChunkPlain(k: Kind, key: Bulk, items: seq<Item>)
    requires Sized(k, items) && |items| <= ITEMS_PER_CMD && Fits(|key|)
    requires forall i :: 0 <= i < |items| ==> BulksFit(items[i])
    ensures Plain(Chunk(k, key, items))
  {
    FlatSize(k, items);
    FlatFits(items);
    var c := Chunk(k, key, items);
    hide Fits;
    assert c[0] == Name(k) && c[0][0] != MULTI[0] && c[0][0] != 77;
  }

  lemma {:induction false} ChunksPlain(k: Kind, key: Bulk, items: seq<Item>)
    requires Sized(k, items) && Fits(|key|)
    requires forall i :: 0 <= i < |items| ==> BulksFit(items[i])
    ensures AllPlain(Chunks(k, key, items))
    decreases |items|
  {
    hide BulksFit;
    hide Fits;
    if items == [] {
    } else if |items| <= ITEMS_PER_CMD {
      ChunkPlain(k, key, items);
      hide Plain;
    } else {
      var a, b := items[..ITEMS_PER_CMD], items[ITEMS_PER_CMD..];
      ChunkPlain(k, key, a);
      ChunksPlain(k, key, b);
      hide Plain;
    }
  }

  lemma KeyPlain(v: Value, p: KeyPlan)
    requires KeyPlanOK(v, p) && ValueOK(v) && Fits(|p.key|)
    ensures AllPlain(KeyCommands(v, p))
  {
    if v.Str? {
      var c := [SET, p.key, v.text];
      hide Fits;
      assert c[0][0] != MULTI[0] && c[0][0] != 77;
      assert Plain(c);
    } else {
      var k := KindOfValue(v);
      forall i | 0 <= i < |p.items| ensures BulksFit(p.items[i]) {
        ItemFits(k, v, p.items, i);
      }
      ChunksPlain(k, p.key, p.items);
    }
  }

  lemma {:induction false} DbPlain(db: Db, ps: seq<KeyPlan>)
    requires Plans(db, ps)
    requires forall k :: k in db ==> Fits(|k|) && ValueOK(db[k])
    ensures AllPlain(DbCommands(db, ps))
    decreases |ps|
  {
    if ps != [] {
      KeyPlain(db[ps[0].key], ps[0]);
      DbCommandsFirst(db, ps);
      DbPlain(db, ps[1..]);
      hide *;
      AllPlainConcat(KeyCommands(db[ps[0].key], ps[0]), DbCommands(db, ps[1..]));
    } else {
      assert DbCommands(db, ps) == [];
    }
  }

  lemma SelectPlain(j: nat)
    requires Fits(j)
    ensures Plain([SELECT, Dec(j)]) && AllPlain([[SELECT, Dec(j)]])
  {
    FewDigits(j);
    hide Dec;
    hide Fits;
    var c: Command := [SELECT, Dec(j)];
    assert c[0][0] != MULTI[0] && c[0][0] != 77;
    assert Plain(c);
  }

  function DbPart(db: Db, ps: seq<KeyPlan>, j: nat): seq<Command>
    requires forall i :: 0 <= i < |ps| ==> ps[i].key in db
  {
    [[SELECT, Dec(j)]] + DbCommands(db, ps)
  }

  lemma DbPartPlain(data: Data, ps: seq<KeyPlan>, j: nat)
    requires DataOK(data) && j < |data| && DbPlanOK(data[j], ps) && Fits(|data|)
    ensures AllPlain(if ps == [] then [] else DbPart(data[j], ps, j))
  {
    PlannedAll(data[j], ps);
    DbPlain(data[j], ps);
    SelectPlain(j);
    AllPlainConcat([[SELECT, Dec(j)]], DbCommands(data[j], ps));
    hide Plain;
    hide Dec;
    hide DbCommands;
  }

  lemma RewriteStep(data: Data, plan: seq<seq<KeyPlan>>, j: nat)
    requires PlanOK(data, plan) && j < |data|
    ensures |plan| == |data| && DbPlanOK(data[j], plan[j])
    ensures forall i :: 0 <= i < |plan[j]| ==> plan[j][i].key in data[j]
    ensures RewriteFrom(data, plan, j) ==
            (if plan[j] == [] then [] else DbPart(data[j], plan[j], j)) + RewriteFrom(data, plan, j + 1)
  {
    hide KeyPlanOK;
    hide DbCommands;
    assert DbPlanOK(data[j], plan[j]);
    assert plan[j] == [] ==> [] + RewriteFrom(data, plan, j + 1) == RewriteFrom(data, plan, j + 1);
  }

  lemma {:induction false} RewritePlain(data: Data, plan: seq<seq<KeyPlan>>, j: nat)
    requires PlanOK(data, plan) && DataOK(data) && j <= |data| && Fits(|data|)
    ensures AllPlain(RewriteFrom(data, plan, j))
    decreases |data| - j
  {
    hide *;
    if j < |data| {
      RewriteStep(data, plan, j);
      RewritePlain(data, plan, j + 1);
      DbPartPlain(data, plan[j], j);
      AllPlainConcat(if plan[j] == [] then [] else DbPart(data[j], plan[j], j), RewriteFrom(data, plan, j + 1));
    } else {
      NothingLeft(data, plan);
    }
  }

  lemma NothingLeft(data: Data, plan: seq<seq<KeyPlan>>)
    requires PlanOK(data, plan)
    ensures RewriteFrom(data, plan, |data|) == [] && AllPlain(RewriteFrom(data, plan, |data|))
  {
  }
}
