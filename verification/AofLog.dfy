/** The append only file over a server's life: what is in the file and in `aof_buf` always replays to
    the live dataset. Keys do not expire, and the fsync policy is not `always` (with it a failed write
    ends the process). */
module AofLog {
  import opened Options
  import opened Bytes
  import opened AofCodec
  import opened AofReplay
  import opened AofRewrite

  datatype Status = Off | WaitRewrite | On

  /** A rewrite child: the file it writes from the dataset at the fork, and the bytes fed since. */
  datatype Child = Child(base: seq<Byte>, diff: seq<Byte>)

  /** The live dataset and the fields of `redisServer` that log it. `size` is `aof_current_size`,
      `selected` is `aof_selected_db`; `open` says that a transaction is being executed, whose MULTI was
      propagated and whose EXEC was not yet (multi.c:150-172). */
  datatype Log = Log(
    data: Data, file: seq<Byte>, buf: seq<Byte>, size: nat, selected: int, status: Status, child: Option<Child>,
    open: bool)

  // ---- Feeding ----

  /** The SELECT a feed writes when the database changes (aof.c:519-526). */
  function SelectText(db: nat): seq<Byte> {
    [STAR, 50, CR, LF] + (([DOLLAR, 54, CR, LF] + SELECT + CRLF) + ([DOLLAR] + Dec(|Dec(db)|) + CRLF + Dec(db) + CRLF))
  }

  function FedText(selected: int, db: nat, c: Command): seq<Byte> {
    (if db != selected then SelectText(db) else []) + Encode(c)
  }

  function OpenAfter(open: bool, c: Command): bool { IsMulti(c) || (!EndsMulti(c) && open) }

  /** A command changes the dataset and is logged, unless the log is off (`feedAppendOnlyFile`,
      aof.c:513-561). */
  function Feed(other: Other, l: Log, db: nat, c: Command): Log
    requires db < |l.data| && c != []
  {
    var data := ExecData(other, l.data, db, c);
    if l.status == Off then l.(data := data, open := OpenAfter(l.open, c))
    else
      var text := FedText(l.selected, db, c);
      l.(data := data, selected := db, open := OpenAfter(l.open, c),
         buf := if l.status == On then l.buf + text else l.buf,
         child := match l.child case Some(k) => Some(k.(diff := k.diff + text)) case None => None)
  }

  // ---- Flushing ----

  /** What `write` did: all, some, or an error; or the flush was put off. */
  datatype Write = Postponed | Written(n: nat) | Failed

  function Truncate(file: seq<Byte>, size: nat): seq<Byte> {
    if size <= |file| then file[..size] else file + seq(size - |file|, _ => 0)
  }

  predicate CanWrite(l: Log, w: Write) { w.Written? ==> w.n <= |l.buf| }

  /** `flushAppendOnlyFile` (aof.c:289-449). A short write is undone with `ftruncate`, and if that fails
      the written part is taken off the buffer. */
  function Flush(l: Log, w: Write, truncates: bool): Log
    requires CanWrite(l, w)
  {
    if l.buf == [] then l
    else
      match w
      case Postponed => l
      case Failed => l
      case Written(n) =>
        var file := l.file + l.buf[..n];
        if n == |l.buf| then l.(file := file, size := l.size + n, buf := [])
        else if truncates then l.(file := Truncate(file, l.size))
        else l.(file := file, size := l.size + n, buf := l.buf[n..])
  }

  // ---- Rewriting ----

  /** Fork a child that will write `base` (aof.c:1347-1359): SELECT is forced on both logs. */
  function Fork(l: Log, base: seq<Byte>): Log {
    if l.child.Some? then l else l.(child := Some(Child(base, [])), selected := -1)
  }

  /** `backgroundRewriteDoneHandler` (aof.c:1414-1617); any step of it that fails is a failure. */
  function RewriteDone(l: Log, success: bool): Log {
    match l.child
    case None => l
    case Some(k) =>
      if !success then l.(child := None)
      else if l.status == Off then l.(file := k.base + k.diff, child := None)
      else
        var file := k.base + k.diff;
        l.(file := file, size := |file|, buf := [], selected := -1, status := On, child := None)
  }

  /** `startAppendOnly` (aof.c:250-268). */
  function StartLog(l: Log, base: seq<Byte>): Log {
    if l.status != Off || l.child.Some? then l else Fork(l, base).(status := WaitRewrite)
  }

  /** `stopAppendOnly` (aof.c:217-245). */
  function StopLog(l: Log, w: Write, truncates: bool): Log
    requires CanWrite(l, w)
  {
    if l.status == Off then l
    else Flush(l, w, truncates).(selected := -1, status := Off, child := None)
  }

  // ---- Tracking ----

  /** The bytes are those of commands that replay to the dataset, with the given database selected at
      the end, unless -1 says that may be any, and inside a MULTI only if one is open. */
  ghost predicate TracksBy(other: Other, bytes: seq<Byte>, data: Data, selected: int, open: bool, cs: seq<Command>, db: nat) {
    && bytes == EncodeAll(cs) && AllFit(cs) && (InMulti(cs) ==> open)
    && Replay(other, AofReplay.Start(|data|), cs) == Some(Client(data, db))
    && db < |data|
    && (selected == -1 || selected == db)
  }

  ghost predicate Tracks(other: Other, bytes: seq<Byte>, data: Data, selected: int, open: bool) {
    exists cs, db :: TracksBy(other, bytes, data, selected, open, cs, db)
  }

  lemma InMultiNext(cs: seq<Command>, c: Command)
    ensures InMulti(cs + [c]) == OpenAfter(InMulti(cs), c)
  {
    assert (cs + [c])[..|cs|] == cs;
    hide IsMulti;
    hide EndsMulti;
  }

  lemma SelectIsNoControl(db: nat)
    ensures !IsMulti([SELECT, Dec(db)]) && !EndsMulti([SELECT, Dec(db)])
  {
    hide Dec;
  }

  /** A feed opens and closes a MULTI as its command does. */
  lemma InMultiFed(cs: seq<Command>, selected: int, db: nat, c: Command)
    ensures InMulti(cs + (SelectFirst(selected, db) + [c])) == OpenAfter(InMulti(cs), c)
  {
    var select := SelectFirst(selected, db);
    assert cs + (select + [c]) == (cs + select) + [c];
    InMultiNext(cs + select, c);
    if db != selected {
      InMultiNext(cs, [SELECT, Dec(db)]);
      SelectIsNoControl(db);
    } else {
      assert cs + [] == cs;
    }
    hide InMulti;
    hide IsMulti;
    hide EndsMulti;
    hide Dec;
  }

  lemma AllFitConcat(a: seq<Command>, b: seq<Command>)
    requires AllFit(a) && AllFit(b)
    ensures AllFit(a + b)
  {
    hide CommandFits;
  }

  lemma {:induction false} EncodeAllConcat(a: seq<Command>, b: seq<Command>)
    ensures EncodeAll(a + b) == EncodeAll(a) + EncodeAll(b)
  {
    hide Encode;
    if a == [] {
      assert a + b == b;
    } else {
      assert (a + b)[1..] == a[1..] + b;
      EncodeAllConcat(a[1..], b);
    }
  }

  lemma EncodeOne(c: Command)
    ensures EncodeAll([c]) == Encode(c)
  {
    hide Encode;
    assert [c][1..] == [];
  }

  lemma SelectTextEncodes(db: nat)
    ensures SelectText(db) == Encode([SELECT, Dec(db)])
  {
    assert Header(STAR, 2) == [STAR, 50, CR, LF] by { assert Dec(2) == [50]; }
    assert EncodeArg(SELECT) == [DOLLAR, 54, CR, LF] + SELECT + CRLF by { assert Dec(6) == [54]; }
    PairEncodes(SELECT, Dec(db));
    hide Dec;
    hide EncodeArgs;
  }

  /** The SELECT a feed puts first, if any. */
  function SelectFirst(selected: int, db: nat): seq<Command> {
    if db != selected then [[SELECT, Dec(db)]] else []
  }

  lemma FedTextEncodes(selected: int, db: nat, c: Command)
    ensures FedText(selected, db, c) == EncodeAll(SelectFirst(selected, db) + [c])
  {
    SelectTextEncodes(db);
    hide Encode;
    hide Dec;
    EncodeAllConcat(SelectFirst(selected, db), [c]);
    EncodeOne(c);
    EncodeOne([SELECT, Dec(db)]);
    hide SelectText;
  }

  lemma SelectedCorrectly(other: Other, data: Data, selected: int, cs: seq<Command>, d: nat, db: nat)
    requires Replay(other, AofReplay.Start(|data|), cs) == Some(Client(data, d))
    requires d < |data| && db < |data| && (selected == -1 || selected == d)
    ensures Replay(other, AofReplay.Start(|data|), cs + SelectFirst(selected, db)) == Some(Client(data, db))
  {
    if db == selected {
      assert cs + [] == cs;
    } else {
      var select: Command := [SELECT, Dec(db)];
      hide Dec;
      ReplayConcat(other, AofReplay.Start(|data|), cs, [select]);
      SelectReplay(other, Client(data, d), db);
      hide Exec;
      assert Replay(other, Client(data, d), [select]) == Some(Exec(other, Client(data, d), select)) by {
        ReplayOne(other, Client(data, d), select);
      }
    }
  }

  lemma ReplayOne(other: Other, cl: Client, c: Command)
    requires ClientOK(cl) && c != []
    ensures Replay(other, cl, [c]) == Some(Exec(other, cl, c))
  {
    hide Exec;
    assert [c][1..] == [];
  }

  lemma ExecSize(other: Other, data: Data, db: nat, c: Command)
    requires Sound(other) && db < |data| && c != []
    ensures |ExecData(other, data, db, c)| == |data|
  {
    hide Builds;
    hide BuildIn;
  }

  lemma FedReplays(other: Other, data: Data, selected: int, cs: seq<Command>, d: nat, db: nat, c: Command)
    requires Sound(other) && Replay(other, AofReplay.Start(|data|), cs) == Some(Client(data, d))
    requires d < |data| && db < |data| && (selected == -1 || selected == d) && c != [] && !IsSelect(c)
    ensures Replay(other, AofReplay.Start(|data|), cs + (SelectFirst(selected, db) + [c])) ==
            Some(Client(ExecData(other, data, db, c), db))
  {
    var select := SelectFirst(selected, db);
    SelectedCorrectly(other, data, selected, cs, d, db);
    ReplayConcat(other, AofReplay.Start(|data|), cs + select, [c]);
    ReplayOne(other, Client(data, db), c);
    assert cs + (select + [c]) == (cs + select) + [c];
    hide Replay;
    hide ExecData;
    hide SelectFirst;
  }

  /** What a feed writes are the commands that do what was done. */
  lemma FedTextTracks(other: Other, bytes: seq<Byte>, data: Data, selected: int, open: bool, db: nat, c: Command)
    requires Sound(other) && Tracks(other, bytes, data, selected, open)
    requires db < |data| && Fits(|data|) && CommandFits(c) && !IsSelect(c)
    ensures Tracks(other, bytes + FedText(selected, db, c), ExecData(other, data, db, c), db, OpenAfter(open, c))
  {
    var cs, d :| TracksBy(other, bytes, data, selected, open, cs, d);
    var more := SelectFirst(selected, db) + [c];
    FedTextEncodes(selected, db, c);
    FedReplays(other, data, selected, cs, d, db, c);
    ExecSize(other, data, db, c);
    EncodeAllConcat(cs, more);
    FedFits(selected, db, c);
    AllFitConcat(cs, more);
    InMultiFed(cs, selected, db, c);
    hide Replay;
    hide ExecData;
    hide FedText;
    hide EncodeAll;
    hide AllFit;
    hide SelectFirst;
    hide InMulti;
    hide IsMulti;
    hide EndsMulti;
    hide CommandFits;
    assert TracksBy(other, bytes + FedText(selected, db, c), ExecData(other, data, db, c), db, OpenAfter(open, c), cs + more, db);
  }

  lemma FedFits(selected: int, db: nat, c: Command)
    requires Fits(db) && CommandFits(c)
    ensures AllFit(SelectFirst(selected, db) + [c])
  {
    SelectPlain(db);
    hide IsMulti;
    hide Dec;
  }

  // ---- The dataset stays well-formed ----

  lemma AbsorbOK(k: Kind, v: Value, args: seq<Bulk>)
    requires HasKind(v, k) && |args| >= Width(k) && BulksFit(args) && (ValueOK(v) || v == Nothing(k))
    ensures ValueOK(Absorb(k, v, args))
  {
    hide Fits;
    var r := Absorb(k, v, args);
    match k {
      case KList => assert r.items[|r.items| - 1] == args[0];
      case KSet => assert args[0] in r.members;
      case KZSet => assert args[1] in r.scores;
      case KHash => assert args[0] in r.fields;
    }
  }

  lemma {:induction false} AbsorbAllOK(k: Kind, v: Value, args: seq<Bulk>)
    requires HasKind(v, k) && |args| % Width(k) == 0 && BulksFit(args)
    requires ValueOK(v) || (v == Nothing(k) && args != [])
    ensures ValueOK(AbsorbAll(k, v, args))
    decreases |args|
  {
    if args != [] {
      assert |args| >= Width(k) && |args[Width(k)..]| % Width(k) == 0;
      AbsorbOK(k, v, args);
      hide ValueOK;
      hide Absorb;
      AbsorbAllOK(k, Absorb(k, v, args), args[Width(k)..]);
    }
  }

  ghost predicate DbOK(db: Db) { forall k :: k in db ==> Fits(|k|) && ValueOK(db[k]) }

  lemma BuildInOK(db: Db, k: Kind, c: Command)
    requires DbOK(db) && Builds(c, k) && CommandFits(c)
    ensures DbOK(BuildIn(db, k, c))
  {
    var key := c[1];
    assert BulksFit(c[2..]) && Fits(|key|);
    assert |c[2..]| % Width(k) == 0 && c[2..] != [];
    AbsorbAllOK(k, Nothing(k), c[2..]);
    if key in db && HasKind(db[key], k) {
      AbsorbAllOK(k, db[key], c[2..]);
    }
    hide ValueOK;
    hide AbsorbAll;
  }

  lemma DataOKByDb(data: Data)
    ensures DataOK(data) <==> forall i :: 0 <= i < |data| ==> DbOK(data[i])
  {
    hide ValueOK;
    hide Fits;
    if DataOK(data) {
      forall i | 0 <= i < |data| ensures DbOK(data[i]) {
      }
    }
    if forall i :: 0 <= i < |data| ==> DbOK(data[i]) {
      forall i, k | 0 <= i < |data| && k in data[i] ensures Fits(|k|) && ValueOK(data[i][k]) {
        assert DbOK(data[i]);
      }
    }
  }

  lemma ExecOK(other: Other, data: Data, db: nat, c: Command)
    requires Sound(other) && DataOK(data) && db < |data| && CommandFits(c)
    ensures DataOK(ExecData(other, data, db, c))
  {
    var r := ExecData(other, data, db, c);
    DataOKByDb(data);
    DataOKByDb(r);
    if |c| == 3 && c[0] == SET {
      assert Fits(|c[1]|) && Fits(|c[2]|);
    } else if KindOf(c[0]).Some? && Builds(c, KindOf(c[0]).value) {
      BuildInOK(data[db], KindOf(c[0]).value, c);
    }
    hide DataOK;
    hide BuildIn;
  }

  // ---- Reachable states ----

  ghost predicate LogInv(other: Other, l: Log) {
    && DataOK(l.data) && l.data != [] && Fits(|l.data|)
    && (l.status == On ==> Tracks(other, l.file + l.buf, l.data, l.selected, l.open) && l.size == |l.file|)
    && (l.status != Off && l.child.Some? ==>
          Tracks(other, l.child.value.base + l.child.value.diff, l.data, l.selected, l.open))
  }

  lemma FeedParts(other: Other, l: Log, db: nat, c: Command)
    requires db < |l.data| && c != []
    ensures var m := Feed(other, l, db, c);
            var text := FedText(l.selected, db, c);
      && m.data == ExecData(other, l.data, db, c) && m.status == l.status && m.file == l.file && m.size == l.size
      && m.open == OpenAfter(l.open, c) && (l.status != Off ==> m.selected == db)
      && (l.status == On ==> m.file + m.buf == (l.file + l.buf) + text)
      && (m.child.Some? <==> l.child.Some?)
      && (l.status != Off && l.child.Some? ==>
            m.child.value.base + m.child.value.diff == (l.child.value.base + l.child.value.diff) + text)
  {
    var text := FedText(l.selected, db, c);
    assert (l.file + l.buf) + text == l.file + (l.buf + text);
    if l.child.Some? {
      var k := l.child.value;
      assert (k.base + k.diff) + text == k.base + (k.diff + text);
    }
    hide FedText;
    hide ExecData;
  }

  lemma FeedInv(other: Other, l: Log, db: nat, c: Command)
    requires Sound(other) && LogInv(other, l) && db < |l.data| && CommandFits(c) && !IsSelect(c)
    ensures LogInv(other, Feed(other, l, db, c))
  {
    ExecOK(other, l.data, db, c);
    ExecSize(other, l.data, db, c);
    FeedParts(other, l, db, c);
    if l.status == On {
      FedTextTracks(other, l.file + l.buf, l.data, l.selected, l.open, db, c);
    }
    if l.status != Off && l.child.Some? {
      FedTextTracks(other, l.child.value.base + l.child.value.diff, l.data, l.selected, l.open, db, c);
    }
    hide Feed;
    hide Tracks;
    hide ExecData;
    hide FedText;
    hide DataOK;
    hide Fits;
  }

  /** A whole write empties the buffer into the file; a short write that is not undone moves what was
      written; nothing else moves a byte. */
  ghost predicate Moves(l: Log, m: Log, w: Write, truncates: bool) {
    && (w == Written(|l.buf|) ==> m.file == l.file + l.buf && m.buf == [] && m.size == l.size + |l.buf|)
    && (w.Written? && w.n < |l.buf| && !truncates ==>
          m.file == l.file + l.buf[..w.n] && m.buf == l.buf[w.n..] && m.size == l.size + w.n)
    && (w.Written? && w.n < |l.buf| && truncates ==>
          (l.size == |l.file| ==> m.file == l.file) && m.buf == l.buf && m.size == l.size)
    && (!w.Written? ==> m.file == l.file && m.buf == l.buf && m.size == l.size)
  }

  lemma FlushMoves(l: Log, w: Write, truncates: bool)
    requires CanWrite(l, w)
    ensures Moves(l, Flush(l, w, truncates), w, truncates)
  {
    assert l.file + [] == l.file;
    if w.Written? {
      assert (l.file + l.buf[..w.n])[..|l.file|] == l.file;
    }
  }

  /** Whatever `write` and `ftruncate` did, file and buffer together are unchanged. */
  lemma FlushKeeps(l: Log, w: Write, truncates: bool)
    requires CanWrite(l, w) && l.size == |l.file|
    ensures var m := Flush(l, w, truncates);
      m.file + m.buf == l.file + l.buf && m.size == |m.file|
  {
    if w.Written? && l.buf != [] {
      var n := w.n;
      assert l.buf[..n] + l.buf[n..] == l.buf;
      assert (l.file + l.buf[..n])[..|l.file|] == l.file;
      assert (l.file + l.buf[..n]) + l.buf[n..] == l.file + l.buf;
    }
  }

  lemma FlushInv(other: Other, l: Log, w: Write, truncates: bool)
    requires LogInv(other, l) && CanWrite(l, w)
    ensures LogInv(other, Flush(l, w, truncates))
  {
    if l.size == |l.file| {
      FlushKeeps(l, w, truncates);
    }
    FlushElsewhere(l, w, truncates);
    hide Flush;
    hide Tracks;
    hide DataOK;
  }

  lemma FlushElsewhere(l: Log, w: Write, truncates: bool)
    requires CanWrite(l, w)
    ensures var m := Flush(l, w, truncates);
      m.data == l.data && m.selected == l.selected && m.status == l.status && m.child == l.child && m.open == l.open
  {
  }

  lemma TracksAny(other: Other, bytes: seq<Byte>, data: Data, selected: int, open: bool)
    requires Tracks(other, bytes, data, selected, open)
    ensures Tracks(other, bytes, data, -1, open)
  {
    var cs, d :| TracksBy(other, bytes, data, selected, open, cs, d);
    assert TracksBy(other, bytes, data, -1, open, cs, d);
  }

  /** The child's file replays to the dataset at the fork, and leaves no MULTI open. */
  lemma BaseTracks(other: Other, data: Data, plan: seq<seq<KeyPlan>>, open: bool)
    requires DataOK(data) && data != [] && Fits(|data|) && PlanOK(data, plan)
    ensures Tracks(other, EncodeAll(RewriteFrom(data, plan, 0)), data, -1, open)
  {
    var after := RewriteReplays(other, data, plan);
    RewritePlain(data, plan, 0);
    PlainParts(RewriteFrom(data, plan, 0));
    NotInMulti(RewriteFrom(data, plan, 0));
    assert TracksBy(other, EncodeAll(RewriteFrom(data, plan, 0)), data, -1, open, RewriteFrom(data, plan, 0), after.db) by {
      hide Replay;
      hide RewriteFrom;
      hide AllPlain;
      hide AllFit;
      hide InMulti;
      hide EncodeAll;
    }
  }

  lemma ForkInv(other: Other, l: Log, plan: seq<seq<KeyPlan>>)
    requires LogInv(other, l) && PlanOK(l.data, plan)
    ensures LogInv(other, Fork(l, EncodeAll(RewriteFrom(l.data, plan, 0))))
    ensures LogInv(other, StartLog(l, EncodeAll(RewriteFrom(l.data, plan, 0))))
  {
    BaseTracks(other, l.data, plan, l.open);
    var base := EncodeAll(RewriteFrom(l.data, plan, 0));
    assert base + [] == base;
    if l.status == On {
      TracksAny(other, l.file + l.buf, l.data, l.selected, l.open);
    }
    hide Tracks;
    hide RewriteFrom;
    hide DataOK;
    hide PlanOK;
  }

  lemma DoneInv(other: Other, l: Log, success: bool)
    requires LogInv(other, l)
    ensures LogInv(other, RewriteDone(l, success))
  {
    if l.child.Some? {
      var k := l.child.value;
      if l.status != Off {
        TracksAny(other, k.base + k.diff, l.data, l.selected, l.open);
      }
      assert (k.base + k.diff) + [] == k.base + k.diff;
    }
    hide Tracks;
    hide DataOK;
  }

  datatype Event =
    | Fed(db: nat, c: Command)
    | Flushed(w: Write, truncates: bool)
    | Forked(plan: seq<seq<KeyPlan>>)
    | Done(success: bool)
    | Started(plan: seq<seq<KeyPlan>>)
    | Stopped(w: Write, truncates: bool)

  /** Any command but SELECT, which is never fed, at any point of a transaction or outside; any outcome of
      a write; a rewrite may walk the dataset in any order. */
  ghost predicate Allowed(l: Log, e: Event) {
    match e
    case Fed(db, c) => db < |l.data| && CommandFits(c) && !IsSelect(c)
    case Flushed(w, _) => CanWrite(l, w)
    case Forked(plan) => PlanOK(l.data, plan)
    case Done(_) => true
    case Started(plan) => PlanOK(l.data, plan)
    case Stopped(w, _) => CanWrite(l, w)
  }

  ghost function Do(other: Other, l: Log, e: Event): Log
    requires Allowed(l, e)
  {
    match e
    case Fed(db, c) => Feed(other, l, db, c)
    case Flushed(w, truncates) => Flush(l, w, truncates)
    case Forked(plan) => Fork(l, EncodeAll(RewriteFrom(l.data, plan, 0)))
    case Done(success) => RewriteDone(l, success)
    case Started(plan) => StartLog(l, EncodeAll(RewriteFrom(l.data, plan, 0)))
    case Stopped(w, truncates) => StopLog(l, w, truncates)
  }

  lemma StepInv(other: Other, l: Log, e: Event)
    requires Sound(other) && LogInv(other, l) && Allowed(l, e)
    ensures LogInv(other, Do(other, l, e))
  {
    hide LogInv;
    match e
    case Fed(db, c) => FeedInv(other, l, db, c);
    case Flushed(w, truncates) => FlushInv(other, l, w, truncates);
    case Forked(plan) => ForkInv(other, l, plan);
    case Done(success) => DoneInv(other, l, success);
    case Started(plan) => ForkInv(other, l, plan);
    case Stopped(w, truncates) => StopInv(other, l, w, truncates);
  }

  lemma StopInv(other: Other, l: Log, w: Write, truncates: bool)
    requires LogInv(other, l) && CanWrite(l, w)
    ensures LogInv(other, StopLog(l, w, truncates))
  {
    FlushElsewhere(l, w, truncates);
    hide Flush;
    hide Tracks;
    hide DataOK;
  }

  ghost predicate Run(other: Other, l: Log, es: seq<Event>, m: Log)
    decreases |es|
  {
    if es == [] then m == l else Allowed(l, es[0]) && Run(other, Do(other, l, es[0]), es[1..], m)
  }

  lemma {:induction false} RunInv(other: Other, l: Log, es: seq<Event>, m: Log)
    requires Sound(other) && LogInv(other, l) && Run(other, l, es, m)
    ensures LogInv(other, m)
    decreases |es|
  {
    if es != [] {
      StepInv(other, l, es[0]);
      hide LogInv;
      hide Do;
      RunInv(other, Do(other, l, es[0]), es[1..], m);
    }
  }

  /** A server just started: off, or on with the dataset its file replays to. */
  ghost predicate Fresh(other: Other, l: Log) {
    && DataOK(l.data) && l.data != [] && Fits(|l.data|) && l.child == None && l.selected == -1 && !l.open
    && l.status != WaitRewrite
    && (l.status == On ==> l.buf == [] && l.size == |l.file| && Tracks(other, l.file, l.data, -1, false))
  }

  /** In every reachable state with the log on and no transaction being executed, loading the file with
      `aof_buf` appended and executing what is loaded from an empty server gives the live dataset. */
  lemma ReplayEquivalence(other: Other, l: Log, es: seq<Event>, m: Log, loadTruncated: bool)
    returns (cs: seq<Command>, db: nat)
    requires Sound(other) && Fresh(other, l) && Run(other, l, es, m) && m.status == On && !m.open
    ensures Load(m.file + m.buf, loadTruncated) == if cs == [] then Empty else Ok(cs)
    ensures Replay(other, AofReplay.Start(|m.data|), cs) == Some(Client(m.data, db))
  {
    FreshInv(other, l);
    RunInv(other, l, es, m);
    hide Run;
    TracksAny(other, m.file + m.buf, m.data, m.selected, m.open);
    cs, db := TrackedLoads(other, m.file + m.buf, m.data, loadTruncated);
  }

  /** After the whole buffer was written, after a rewrite that succeeded, and after the log was switched
      off with a whole write, the file alone loads to the live dataset. */
  lemma FileAlone(other: Other, l: Log, es: seq<Event>, k: Log, e: Event, m: Log, loadTruncated: bool)
    returns (cs: seq<Command>, db: nat)
    requires Sound(other) && Fresh(other, l) && Run(other, l, es, k) && !k.open && Run(other, k, [e], m)
    requires match e
             case Flushed(w, _) => k.status == On && w == Written(|k.buf|)
             case Stopped(w, _) => k.status == On && w == Written(|k.buf|)
             case Done(success) => k.status != Off && k.child.Some? && success
             case _ => false
    ensures m.data == k.data && m.status == (if e.Stopped? then Off else On) && m.buf == []
    ensures Load(m.file, loadTruncated) == if cs == [] then Empty else Ok(cs)
    ensures Replay(other, AofReplay.Start(|m.data|), cs) == Some(Client(m.data, db))
  {
    FreshInv(other, l);
    RunInv(other, l, es, k);
    RunOne(other, k, e, m);
    hide Run;
    assert Tracks(other, m.file, m.data, -1, false) && m.data == k.data by {
      FileTracks(other, k, e);
    }
    cs, db := TrackedLoads(other, m.file, m.data, loadTruncated);
  }

  lemma FreshInv(other: Other, l: Log)
    requires Fresh(other, l)
    ensures LogInv(other, l)
  {
    assert l.status == On ==> l.file + l.buf == l.file;
    hide Tracks;
  }

  lemma RunOne(other: Other, k: Log, e: Event, m: Log)
    requires Run(other, k, [e], m)
    ensures Allowed(k, e) && m == Do(other, k, e)
  {
    assert [e][0] == e && [e][1..] == [];
    assert Run(other, Do(other, k, e), [e][1..], m);
    hide Do;
  }

  lemma FileTracks(other: Other, k: Log, e: Event)
    requires LogInv(other, k) && Allowed(k, e) && !k.open
    requires match e
             case Flushed(w, _) => k.status == On && w == Written(|k.buf|)
             case Stopped(w, _) => k.status == On && w == Written(|k.buf|)
             case Done(success) => k.status != Off && k.child.Some? && success
             case _ => false
    ensures var m := Do(other, k, e);
      && Tracks(other, m.file, m.data, -1, false) && m.data == k.data
      && m.status == (if e.Stopped? then Off else On) && m.buf == []
  {
    hide Tracks;
    if e.Done? {
      TracksAny(other, k.child.value.base + k.child.value.diff, k.data, k.selected, k.open);
    } else {
      TracksAny(other, k.file + k.buf, k.data, k.selected, k.open);
      FlushMoves(k, e.w, e.truncates);
      FlushElsewhere(k, e.w, e.truncates);
      hide Flush;
    }
  }

  lemma TrackedLoads(other: Other, bytes: seq<Byte>, data: Data, loadTruncated: bool) returns (cs: seq<Command>, db: nat)
    requires Tracks(other, bytes, data, -1, false)
    ensures Load(bytes, loadTruncated) == if cs == [] then Empty else Ok(cs)
    ensures Replay(other, AofReplay.Start(|data|), cs) == Some(Client(data, db))
  {
    cs, db :| TracksBy(other, bytes, data, -1, false, cs, db);
    hide Replay;
    if cs != [] {
      RoundTrip(cs, loadTruncated);
    }
  }

  lemma {:induction false} WaitsForRewrite(other: Other, l: Log, es: seq<Event>, m: Log)
    requires Run(other, l, es, m) && l.status == WaitRewrite && l.child.Some?
    requires forall i :: 0 <= i < |es| ==> !es[i].Stopped? && !es[i].Done?
    ensures m.status == WaitRewrite && m.child.Some?
    decreases |es|
  {
    hide ExecData;
    hide FedText;
    hide RewriteFrom;
    if es != [] {
      WaitsForRewrite(other, Do(other, l, es[0]), es[1..], m);
    }
  }

  /** Switching the log on while the server runs: whatever is executed between the start and the end of
      the first rewrite, the log is on after it and the file alone loads to the live dataset. */
  lemma SwitchedOn(other: Other, l: Log, es: seq<Event>, k: Log, plan: seq<seq<KeyPlan>>, w: Log, fs: seq<Event>, x: Log,
                   m: Log, loadTruncated: bool) returns (cs: seq<Command>, db: nat)
    requires Sound(other) && Fresh(other, l) && Run(other, l, es, k) && k.status == Off && k.child == None
    requires Run(other, k, [Started(plan)], w) && Run(other, w, fs, x) && Run(other, x, [Done(true)], m)
    requires forall i :: 0 <= i < |fs| ==> !fs[i].Stopped? && !fs[i].Done?
    requires !x.open
    ensures m.status == On && m.buf == [] && m.data == x.data
    ensures Load(m.file, loadTruncated) == if cs == [] then Empty else Ok(cs)
    ensures Replay(other, AofReplay.Start(|m.data|), cs) == Some(Client(m.data, db))
  {
    RunOne(other, k, Started(plan), w);
    RunConcat(other, l, es, k, [Started(plan)], w);
    RunConcat(other, l, es + [Started(plan)], w, fs, x);
    hide Run;
    hide RewriteFrom;
    WaitsForRewrite(other, w, fs, x);
    cs, db := FileAlone(other, l, es + [Started(plan)] + fs, x, Done(true), m, loadTruncated);
  }

  /** Inside a transaction the bytes still replay to the live dataset, command by command; only the
      loader may not accept them before EXEC is there. */
  lemma ReplayInTransaction(other: Other, l: Log, es: seq<Event>, m: Log) returns (cs: seq<Command>, db: nat)
    requires Sound(other) && Fresh(other, l) && Run(other, l, es, m) && m.status == On
    ensures m.file + m.buf == EncodeAll(cs)
    ensures Replay(other, AofReplay.Start(|m.data|), cs) == Some(Client(m.data, db))
    ensures InMulti(cs) ==> m.open
  {
    FreshInv(other, l);
    RunInv(other, l, es, m);
    cs, db :| TracksBy(other, m.file + m.buf, m.data, m.selected, m.open, cs, db);
    hide LogInv;
    hide Replay;
  }

  /** The server may die at any point, also in the middle of a write: whatever first `n` bytes of file
      and buffer are on disk, the loader gets exactly the commands wholly in them, which are the first of
      those that replay to the live dataset. */
  lemma CrashRecovery(other: Other, l: Log, es: seq<Event>, m: Log, n: nat, truncatedOk: bool)
    returns (cs: seq<Command>, db: nat)
    requires Sound(other) && Fresh(other, l) && Run(other, l, es, m) && m.status == On
    requires 0 < n <= |m.file + m.buf|
    ensures Replay(other, AofReplay.Start(|m.data|), cs) == Some(Client(m.data, db))
    ensures var kept := cs[..Whole(cs, n)];
      Load((m.file + m.buf)[..n], truncatedOk) ==
      if |EncodeAll(kept)| == n && !InMulti(kept) then Ok(kept)
      else if truncatedOk then Truncated(kept, |EncodeAll(kept)|) else Fatal
    ensures n == |m.file + m.buf| ==> Whole(cs, n) == |cs|
  {
    FreshInv(other, l);
    RunInv(other, l, es, m);
    cs, db :| TracksBy(other, m.file + m.buf, m.data, m.selected, m.open, cs, db);
    hide LogInv;
    hide Replay;
    hide InMulti;
    hide Run;
    TruncatedRecovery(cs, n, truncatedOk);
    WholeIsGreatest(cs, n, |cs|);
    assert cs[..|cs|] == cs;
  }

  // ---- Transactions ----

  /** The events of a transaction that writes (multi.c:106-112, 150-172): MULTI before the first write, the commands
      that write, in whatever databases, and EXEC. */
  function Transaction(first: nat, body: seq<(nat, Command)>, last: nat): seq<Event> {
    [Fed(first, [MULTI])] + Feds(body) + [Fed(last, [EXEC])]
  }

  function Feds(body: seq<(nat, Command)>): seq<Event> {
    if body == [] then [] else [Fed(body[0].0, body[0].1)] + Feds(body[1..])
  }

  /** Commands that may be queued and write. */
  ghost predicate Writes(dbs: nat, body: seq<(nat, Command)>) {
    forall i :: 0 <= i < |body| ==>
      body[i].0 < dbs && CommandFits(body[i].1) && !IsSelect(body[i].1) && !IsControl(body[i].1)
  }

  /** The live effect of the commands, one after the other. */
  ghost function ExecAll(other: Other, data: Data, body: seq<(nat, Command)>): Data
    requires Sound(other) && Writes(|data|, body)
    decreases |body|
  {
    if body == [] then data
    else
      ExecSize(other, data, body[0].0, body[0].1);
      ExecAll(other, ExecData(other, data, body[0].0, body[0].1), body[1..])
  }

  lemma {:induction false} RunConcat(other: Other, l: Log, a: seq<Event>, k: Log, b: seq<Event>, m: Log)
    requires Run(other, l, a, k) && Run(other, k, b, m)
    ensures Run(other, l, a + b, m)
    decreases |a|
  {
    hide Allowed;
    hide Do;
    if a == [] {
      assert a + b == b;
    } else {
      assert (a + b)[1..] == a[1..] + b;
      RunConcat(other, Do(other, l, a[0]), a[1..], k, b, m);
    }
  }

  lemma FedOnce(other: Other, l: Log, db: nat, c: Command) returns (m: Log)
    requires Sound(other) && db < |l.data| && CommandFits(c) && !IsSelect(c)
    ensures Run(other, l, [Fed(db, c)], m)
    ensures m.data == ExecData(other, l.data, db, c) && |m.data| == |l.data|
    ensures m.open == OpenAfter(l.open, c) && m.status == l.status
  {
    m := Feed(other, l, db, c);
    ExecSize(other, l.data, db, c);
    assert [Fed(db, c)][1..] == [];
    hide ExecData;
    hide FedText;
    hide OpenAfter;
    assert Run(other, m, [], m);
  }

  lemma {:induction false} BodyRuns(other: Other, l: Log, body: seq<(nat, Command)>) returns (m: Log)
    requires Sound(other) && Writes(|l.data|, body)
    ensures Run(other, l, Feds(body), m)
    ensures m.data == ExecAll(other, l.data, body) && |m.data| == |l.data| && m.open == l.open && m.status == l.status
    decreases |body|
  {
    if body == [] {
      m := l;
    } else {
      var k := FedOnce(other, l, body[0].0, body[0].1);
      hide Run;
      hide ExecData;
      hide CommandFits;
      m := BodyRuns(other, k, body[1..]);
      RunConcat(other, l, [Fed(body[0].0, body[0].1)], k, Feds(body[1..]), m);
    }
  }

  lemma ControlFits()
    ensures CommandFits([MULTI]) && CommandFits([EXEC]) && !IsSelect([MULTI]) && !IsSelect([EXEC])
    ensures IsMulti([MULTI]) && !IsMulti([EXEC]) && EndsMulti([EXEC])
    ensures forall other, data: Data, db: nat :: db < |data| ==>
              ExecData(other, data, db, [MULTI]) == data && ExecData(other, data, db, [EXEC]) == data
  {
  }

  /** A transaction is executed as its commands one after the other, whatever the log is doing, and it is
      over afterwards: the state is one that `ReplayEquivalence` speaks about. */
  lemma TransactionRuns(other: Other, l: Log, first: nat, body: seq<(nat, Command)>, last: nat) returns (m: Log)
    requires Sound(other) && Writes(|l.data|, body) && first < |l.data| && last < |l.data|
    ensures Run(other, l, Transaction(first, body, last), m)
    ensures m.data == ExecAll(other, l.data, body) && !m.open && m.status == l.status
  {
    ControlFits();
    var j := FedOnce(other, l, first, [MULTI]);
    hide Run;
    hide ExecData;
    hide CommandFits;
    hide Writes;
    var k := BodyRuns(other, j, body);
    m := FedOnce(other, k, last, [EXEC]);
    RunConcat(other, l, [Fed(first, [MULTI])], j, Feds(body), k);
    RunConcat(other, l, [Fed(first, [MULTI])] + Feds(body), k, [Fed(last, [EXEC])], m);
  }

  lemma PlainParts(cs: seq<Command>)
    requires AllPlain(cs)
    ensures AllFit(cs) && NoMulti(cs)
  {
    hide CommandFits;
    hide IsMulti;
  }
}
