/** The log and the pipes to its rewrite child as one system: what is fed goes to the old log and to the
    child's blocks, and the file put in place at the end is the one the log's own account says. */
module AofHandOver {
  import opened Options
  import opened Bytes
  import opened AofReplay
  import L = AofLog
  import P = AofHandshake

  /** While a child rewrites there is a pair of processes with pipes between them. */
  datatype System = System(log: L.Log, pair: Option<P.Pair>)

  datatype Event = Main(main: L.Event) | Pipes(pipe: P.Event)

  /** The rewrite succeeds only after the child's final read: it exits with 0 only after that (aof.c:1151-1165).
      Only what is fed to the log enters the blocks. */
  ghost predicate Allowed(y: System, e: Event) {
    match e
    case Main(m) =>
      && L.Allowed(y.log, m)
      && (m == L.Done(true) && y.pair.Some? ==> y.pair.value.phase == P.Finished)
    case Pipes(p) => y.pair.Some? && !p.Feed? && P.Allowed(y.pair.value, p)
  }

  ghost function PairAfter(y: System, e: L.Event): Option<P.Pair> {
    match e
    case Fed(db, c) =>
      if y.pair.Some? && y.log.status != L.Off
      then Some(P.Do(y.pair.value, P.Feed(L.FedText(y.log.selected, db, c)))) else y.pair
    case Flushed(_, _) => y.pair
    case Forked(_) => if y.log.child.None? then Some(P.Forked()) else y.pair
    case Done(_) => None
    case Started(_) => if y.log.child.None? && y.log.status == L.Off then Some(P.Forked()) else y.pair
    case Stopped(_, _) => if y.log.status == L.Off then y.pair else None
  }

  ghost function Do(other: Other, y: System, e: Event): System
    requires Allowed(y, e)
  {
    match e
    case Main(m) => System(L.Do(other, y.log, m), PairAfter(y, m))
    case Pipes(p) => y.(pair := Some(P.Do(y.pair.value, p)))
  }

  ghost predicate Run(other: Other, y: System, es: seq<Event>, z: System)
    decreases |es|
  {
    if es == [] then z == y else Allowed(y, es[0]) && Run(other, Do(other, y, es[0]), es[1..], z)
  }

  /** The pipes carry the diff of the log's own account. */
  ghost predicate Inv(y: System) {
    && (y.pair.Some? <==> y.log.child.Some?)
    && (y.pair.Some? ==> P.Inv(y.pair.value) && y.pair.value.fed == y.log.child.value.diff)
  }

  lemma FreshPair()
    ensures P.Inv(P.Forked()) && P.Forked().fed == []
  {
  }

  lemma MainInv(other: Other, y: System, e: L.Event)
    requires Inv(y) && Allowed(y, Main(e))
    ensures Inv(Do(other, y, Main(e)))
  {
    FreshPair();
    match e
    case Fed(db, c) =>
      if y.pair.Some? && y.log.status != L.Off {
        P.StepInv(y.pair.value, P.Feed(L.FedText(y.log.selected, db, c)));
      }
      hide P.Inv;
      hide L.FedText;
      hide ExecData;
    case Stopped(w, truncates) =>
      L.FlushElsewhere(y.log, w, truncates);
      hide P.Inv;
      hide L.Flush;
    case Flushed(w, truncates) =>
      L.FlushElsewhere(y.log, w, truncates);
      hide P.Inv;
      hide L.Flush;
    case _ =>
      hide P.Inv;
  }

  lemma StepInv(other: Other, y: System, e: Event)
    requires Inv(y) && Allowed(y, e)
    ensures Inv(Do(other, y, e))
  {
    match e
    case Main(m) => MainInv(other, y, m);
    case Pipes(p) =>
      P.StepInv(y.pair.value, p);
      SameFed(y.pair.value, p);
      hide P.Inv;
      hide P.Do;
  }

  lemma SameFed(p: P.Pair, e: P.Event)
    requires P.Allowed(p, e) && !e.Feed?
    ensures P.Do(p, e).fed == p.fed
  {
  }

  lemma {:induction false} RunInv(other: Other, y: System, es: seq<Event>, z: System)
    requires Inv(y) && Run(other, y, es, z)
    ensures Inv(z)
    decreases |es|
  {
    if es != [] {
      StepInv(other, y, es[0]);
      hide Inv;
      hide Do;
      hide Allowed;
      RunInv(other, Do(other, y, es[0]), es[1..], z);
    }
  }

  /** What the log sees of a run. */
  function MainEvents(es: seq<Event>): seq<L.Event> {
    if es == [] then [] else (if es[0].Main? then [es[0].main] else []) + MainEvents(es[1..])
  }

  /** The log inside the system runs as the log alone, so all that is proved of the log holds. */
  lemma {:induction false} LogRuns(other: Other, y: System, es: seq<Event>, z: System)
    requires Run(other, y, es, z)
    ensures L.Run(other, y.log, MainEvents(es), z.log)
    decreases |es|
  {
    if es != [] {
      LogRuns(other, Do(other, y, es[0]), es[1..], z);
      if es[0].Main? {
        var ms := MainEvents(es);
        assert ms[0] == es[0].main && ms[1..] == MainEvents(es[1..]);
      } else {
        assert MainEvents(es) == MainEvents(es[1..]);
      }
    }
  }

  /** The new file as it is made: the child writes its snapshot and the diff it collected, the parent
      appends the blocks it has left (aof.c:1165-1172, 1442). */
  ghost function NewFile(y: System): seq<Byte>
    requires y.pair.Some? && y.log.child.Some?
  {
    y.log.child.value.base + y.pair.value.diff + P.Joined(y.pair.value.blocks)
  }

  /** Whenever a rewrite may succeed, the file so made is the file that the log's account of a successful
      rewrite puts in place. */
  lemma NewFileIsTheLogs(other: Other, y: System, es: seq<Event>, z: System)
    requires y.log.child == None && y.pair == None && Run(other, y, es, z)
    requires z.pair.Some? && Allowed(z, Main(L.Done(true)))
    ensures z.log.child.Some? && NewFile(z) == Do(other, z, Main(L.Done(true))).log.file
  {
    RunInv(other, y, es, z);
    var p := z.pair.value;
    assert p.diff + [] + P.Joined(p.blocks) == p.diff + P.Joined(p.blocks);
    Assoc(z.log.child.value.base, p.diff, P.Joined(p.blocks));
    hide P.Joined;
  }
}
