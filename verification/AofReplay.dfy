/** What replaying commands does to the dataset. The commands the rewrite emits and those around
    transactions are spelled out; every other command is an arbitrary function `other` of the dataset and the selected database. */
module AofReplay {
  import opened Options
  import opened Bytes
  import opened AofCodec

  datatype Value =
    | Str(text: Bulk)
    | List(items: seq<Bulk>)
    | Set(members: set<Bulk>)
    | ZSet(scores: map<Bulk, Bulk>)
    | Hash(fields: map<Bulk, Bulk>)

  type Db = map<Bulk, Value>
  type Data = seq<Db>

  /** The four kinds of collection, and the command that builds each. */
  datatype Kind = KList | KSet | KZSet | KHash

  const SELECT: Bulk := [83, 69, 76, 69, 67, 84]
  const SET: Bulk := [83, 69, 84]
  const RPUSH: Bulk := [82, 80, 85, 83, 72]
  const SADD: Bulk := [83, 65, 68, 68]
  const ZADD: Bulk := [90, 65, 68, 68]
  const HMSET: Bulk := [72, 77, 83, 69, 84]

  /** The commands a log is made of, spelled out: those the server writes in capitals, and those whose
      names it compares. */
  lemma NamesSpelled()
    ensures SELECT == Ascii("SELECT") && SET == Ascii("SET") && RPUSH == Ascii("RPUSH") && SADD == Ascii("SADD")
    ensures ZADD == Ascii("ZADD") && HMSET == Ascii("HMSET")
    ensures MULTI == Ascii("multi") && EXEC == Ascii("exec") && DISCARD == Ascii("discard")
  {
  }

  function Name(k: Kind): Bulk {
    match k case KList => RPUSH case KSet => SADD case KZSet => ZADD case KHash => HMSET
  }

  /** How many arguments make one item: a score and a member, or a field and a value, are two. */
  function Width(k: Kind): nat { if k == KList || k == KSet then 1 else 2 }

  predicate HasKind(v: Value, k: Kind) {
    match k case KList => v.List? case KSet => v.Set? case KZSet => v.ZSet? case KHash => v.Hash?
  }

  function Nothing(k: Kind): (v: Value)
    ensures HasKind(v, k)
  {
    match k case KList => List([]) case KSet => Set({}) case KZSet => ZSet(map[]) case KHash => Hash(map[])
  }

  /** One item added to a collection. */
  function Absorb(k: Kind, v: Value, args: seq<Bulk>): (r: Value)
    requires HasKind(v, k) && |args| >= Width(k)
    ensures HasKind(r, k)
  {
    match k
    case KList => List(v.items + [args[0]])
    case KSet => Set(v.members + {args[0]})
    case KZSet => ZSet(v.scores[args[1] := args[0]])
    case KHash => Hash(v.fields[args[0] := args[1]])
  }

  function AbsorbAll(k: Kind, v: Value, args: seq<Bulk>): (r: Value)
    requires HasKind(v, k) && |args| % Width(k) == 0
    ensures HasKind(r, k)
    decreases |args|
  {
    if args == [] then v
    else
      assert |args| >= Width(k) && |args[Width(k)..]| % Width(k) == 0;
      AbsorbAll(k, Absorb(k, v, args), args[Width(k)..])
  }

  function KindOf(name: Bulk): Option<Kind> {
    if name == RPUSH then Some(KList) else if name == SADD then Some(KSet)
    else if name == ZADD then Some(KZSet) else if name == HMSET then Some(KHash) else None
  }

  /** A command that builds a collection, with its arguments in whole items. */
  predicate Builds(c: Command, k: Kind) {
    |c| >= 2 + Width(k) && c[0] == Name(k) && (|c| - 2) % Width(k) == 0
  }

  /** The command adds its items, or fails with a wrong type. */
  function BuildIn(db: Db, k: Kind, c: Command): Db
    requires Builds(c, k)
  {
    var key := c[1];
    if key !in db then db[key := AbsorbAll(k, Nothing(k), c[2..])]
    else if HasKind(db[key], k) then db[key := AbsorbAll(k, db[key], c[2..])]
    else db
  }

  type Other = (Data, nat, Command) -> Data

  /** MULTI, EXEC and DISCARD. The loader calls the procedure of every command it reads at once (aof.c:701),
      so nothing is ever queued: MULTI and what ends it change a flag of the client, `InMulti`, and EXEC
      finds an empty queue to run (multi.c:86-93, 141-160). */
  predicate IsControl(c: Command) { IsMulti(c) || EndsMulti(c) }

  /** What a command does to the dataset when `db` is selected. */
  function ExecData(other: Other, data: Data, db: nat, c: Command): Data
    requires db < |data| && c != []
  {
    if |c| == 3 && c[0] == SET then data[db := data[db][c[1] := Str(c[2])]]
    else
      match KindOf(c[0])
      case Some(k) => if Builds(c, k) then data[db := BuildIn(data[db], k, c)] else other(data, db, c)
      case None => if IsControl(c) then data else other(data, db, c)
  }

  predicate IsSelect(c: Command) { |c| == 2 && c[0] == SELECT }

  /** The client that replays: its dataset and selected database. */
  datatype Client = Client(data: Data, db: nat)

  predicate ClientOK(c: Client) { c.db < |c.data| }

  function Exec(other: Other, cl: Client, c: Command): Client
    requires ClientOK(cl) && c != []
  {
    if IsSelect(c) then
      var n := Strtol(c[1]);
      if 0 <= n < |cl.data| then cl.(db := n) else cl
    else cl.(data := ExecData(other, cl.data, cl.db, c))
  }

  /** Sizes a 64-bit server can hold, and no empty collections. */
  predicate ValueOK(v: Value) {
    match v
    case Str(s) => Fits(|s|)
    case List(xs) => xs != [] && forall i :: 0 <= i < |xs| ==> Fits(|xs[i]|)
    case Set(ms) => ms != {} && forall m :: m in ms ==> Fits(|m|)
    case ZSet(sc) => sc != map[] && forall m :: m in sc ==> Fits(|m|) && Fits(|sc[m]|)
    case Hash(fs) => fs != map[] && forall f :: f in fs ==> Fits(|f|) && Fits(|fs[f]|)
  }

  ghost predicate DataOK(data: Data) {
    forall i, k :: 0 <= i < |data| && k in data[i] ==> Fits(|k|) && ValueOK(data[i][k])
  }

  /** The rest of the server keeps the number of databases and a well-formed dataset. */
  ghost predicate Sound(other: Other) {
    forall data: Data, db: nat, c: Command {:trigger other(data, db, c)} ::
      |other(data, db, c)| == |data| && (DataOK(data) && CommandFits(c) ==> DataOK(other(data, db, c)))
  }

  function Replay(other: Other, cl: Client, cs: seq<Command>): (r: Option<Client>)
    decreases |cs|
  {
    if cs == [] then Some(cl)
    else if !ClientOK(cl) || cs[0] == [] then None
    else Replay(other, Exec(other, cl, cs[0]), cs[1..])
  }

  function Start(dbnum: nat): Client { Client(seq(dbnum, _ => map[]), 0) }

  lemma {:induction false} ReplayConcat(other: Other, cl: Client, a: seq<Command>, b: seq<Command>)
    ensures Replay(other, cl, a + b) ==
            match Replay(other, cl, a) case Some(c) => Replay(other, c, b) case None => None
    decreases |a|
  {
    if a == [] {
      assert a + b == b;
    } else if ClientOK(cl) && a[0] != [] {
      assert (a + b)[1..] == a[1..] + b;
      ReplayConcat(other, Exec(other, cl, a[0]), a[1..], b);
    }
  }

  // ---- Building collections in pieces ----

  lemma {:induction false} AbsorbConcat(k: Kind, v: Value, a: seq<Bulk>, b: seq<Bulk>)
    requires HasKind(v, k) && |a| % Width(k) == 0 && |b| % Width(k) == 0
    ensures |a + b| % Width(k) == 0
    ensures AbsorbAll(k, v, a + b) == AbsorbAll(k, AbsorbAll(k, v, a), b)
    decreases |a|
  {
    if a == [] {
      assert a + b == b;
    } else {
      var w := Width(k);
      assert |a| >= w && |a[w..]| % w == 0;
      assert (a + b)[w..] == a[w..] + b;
      AbsorbConcat(k, Absorb(k, v, a), a[w..], b);
      assert Absorb(k, v, a + b) == Absorb(k, v, a);
    }
  }
}
