/** What late votes lead to: the count is cleared when an attempt is scheduled (cluster.c:2830) and not
    when it is asked for (cluster.c:2890), so votes for the previous attempt that arrive in between count
    for the next one. A run of the code in which one late vote elects two slaves for one epoch, inside the
    time limits of their manual failovers. */
module ClusterElectionLate {
  import opened Options
  import opened ClusterSlots
  import opened ClusterElection
  import opened ClusterElectionRun

  /** A master and its two slaves. */
  datatype Cast = Cast(master: Name, first: Name, second: Name)

  predicate Three(c: Cast) {
    c.master != c.first && c.master != c.second && c.first != c.second
  }

  predicate Slave(c: Cast, n: Name) { n == c.first || n == c.second }

  /** The master serves slot 0. */
  function MasterNode(c: Cast, votedTime: int): Node {
    Node(0, true, None, {c.first, c.second}, false, votedTime, SetBit(Zeros(), 0), 1)
  }

  function SlaveNode(c: Cast): Node {
    Node(0, false, Some(c.master), {}, false, 0, Zeros(), 0)
  }

  function Table(c: Cast): seq<Option<Name>> {
    seq(SLOTS, j => if j == 0 then Some(c.master) else None)
  }

  function Known(c: Cast, votedTime: int): map<Name, Node> {
    map[c.master := MasterNode(c, votedTime), c.first := SlaveNode(c), c.second := SlaveNode(c)]
  }

  function MasterAt(c: Cast, epoch: nat, lastVote: nat, votedTime: int): Server {
    Server(epoch, lastVote, 0, 0, false, 0, 0, 0, false, 0, 1, Known(c, votedTime), Table(c))
  }

  function SlaveAt(c: Cast, epoch: nat, authTime: int, count: nat, sent: bool, authEpoch: nat, mfEnd: int): Server {
    Server(epoch, 0, authTime, count, sent, 0, authEpoch, mfEnd, mfEnd != 0, 0, 1, Known(c, 0), Table(c))
  }

  function Env(now: int): Surroundings {
    Surroundings(now, 0, 0, 0, true, 0, 0, 1000, 10, 10)
  }

  function Asks(n: Name, epoch: nat): Request {
    Request(n, epoch, 0, SetBit(Zeros(), 0), true)
  }

  function VoteOf(c: Cast, n: Name, epoch: nat): Ack {
    Ack(c.master, n, epoch, 0)
  }

  // ---- What each step does to the node that takes it ----

  lemma KnownNodes(c: Cast, votedTime: int)
    requires Three(c)
    ensures Known(c, votedTime).Keys == {c.master, c.first, c.second}
    ensures Known(c, votedTime)[c.master] == MasterNode(c, votedTime)
    ensures Known(c, votedTime)[c.first] == SlaveNode(c) && Known(c, votedTime)[c.second] == SlaveNode(c)
    ensures forall t: int :: Known(c, votedTime)[c.master := MasterNode(c, votedTime).(votedTime := t)] == Known(c, t)
  {
  }

  lemma Lengths()
    ensures |Zeros()| == |SetBit(Zeros(), 0)| == SLOTS / 8
  {
  }

  lemma Knows(c: Cast, s: Server, votedTime: int, n: Name)
    requires Three(c) && (n == c.master || Slave(c, n))
    requires s.nodes == Known(c, votedTime) && s.slots == Table(c) && s.size == 1
    ensures KnowsMasters(s, n, {c.master}) && ServerOK(s, n)
    ensures s.nodes.Keys == {c.master, c.first, c.second}
  {
    KnownNodes(c, votedTime);
    Lengths();
    hide SetBit;
    hide Zeros;
    hide Known;
  }

  /** More than 4000 milliseconds after the last attempt a new one is scheduled. */
  lemma Schedules(c: Cast, epoch: nat, authTime: int, count: nat, sent: bool, authEpoch: nat, mfEnd: int, n: Name, now: int)
    requires Three(c) && Slave(c, n) && now - authTime > 4000 && 0 < now <= mfEnd
    ensures n in Known(c, 0) && Known(c, 0)[n].slaveof == Some(c.master) && c.master in Known(c, 0)
    ensures Turn(SlaveAt(c, epoch, authTime, count, sent, authEpoch, mfEnd), n, Env(now), true) ==
            (SlaveAt(c, epoch, now, 0, false, authEpoch, mfEnd), Scheduled)
  {
    KnownNodes(c, 0);
    hide Known;
    hide SetBit;
    hide Table;
  }

  lemma AsksNow(c: Cast, epoch: nat, authTime: int, count: nat, authEpoch: nat, mfEnd: int, n: Name)
    requires Three(c) && Slave(c, n) && 0 < authTime <= mfEnd
    ensures n in Known(c, 0) && Known(c, 0)[n].slaveof == Some(c.master) && c.master in Known(c, 0)
    ensures var s := SlaveAt(c, epoch + 1, authTime, count, true, epoch + 1, mfEnd);
      && Turn(SlaveAt(c, epoch, authTime, count, false, authEpoch, mfEnd), n, Env(authTime), true) == (s, Requested)
      && RequestOf(s, n) == Asks(n, epoch + 1)
  {
    KnownNodes(c, 0);
    hide Known;
    hide SetBit;
    hide Table;
  }

  lemma HeardAt(c: Cast, epoch: nat, lastVote: nat, votedTime: int, n: Name, asked: nat)
    requires Three(c) && Slave(c, n) && epoch <= asked
    ensures n in Known(c, votedTime)
    ensures Heard(MasterAt(c, epoch, lastVote, votedTime), Asks(n, asked)) == MasterAt(c, asked, lastVote, votedTime)
  {
    KnownNodes(c, votedTime);
    hide Known;
    hide SetBit;
    hide Table;
  }

  lemma GrantsAt(c: Cast, asked: nat, lastVote: nat, votedTime: int, n: Name, now: int)
    requires Three(c) && Slave(c, n) && lastVote < asked && now - votedTime >= 2000
    ensures ServerOK(MasterAt(c, asked, lastVote, votedTime), c.master) && n in Known(c, votedTime)
    ensures |Asks(n, asked).slots| == SLOTS / 8
    ensures Vote(MasterAt(c, asked, lastVote, votedTime), c.master, Asks(n, asked), now, 1000) ==
            (MasterAt(c, asked, asked, now), Some(VoteOf(c, n, asked)))
  {
    Knows(c, MasterAt(c, asked, lastVote, votedTime), votedTime, c.master);
    Lengths();
    KnownNodes(c, votedTime);
    hide SetBit;
    hide TestBit;
    hide Known;
  }

  lemma Counts(c: Cast, epoch: nat, authTime: int, sent: bool, authEpoch: nat, mfEnd: int, n: Name, asked: nat)
    requires Three(c) && Slave(c, n) && authEpoch <= asked <= epoch
    ensures c.master in Known(c, 0)
    ensures var s := SlaveAt(c, epoch, authTime, 0, sent, authEpoch, mfEnd);
      && Header(s, c.master, asked, 0) == s
      && CountAck(s, VoteOf(c, n, asked)) == SlaveAt(c, epoch, authTime, 1, sent, authEpoch, mfEnd)
  {
    KnownNodes(c, 0);
    hide Known;
    hide SetBit;
    hide Table;
  }

  lemma Wins(c: Cast, epoch: nat, authTime: int, mfEnd: int, n: Name, now: int)
    requires Three(c) && Slave(c, n) && 0 < authTime <= now <= authTime + 2000 && now <= mfEnd
    ensures n in Known(c, 0) && Known(c, 0)[n].slaveof == Some(c.master) && c.master in Known(c, 0)
    ensures Turn(SlaveAt(c, epoch, authTime, 1, true, epoch, mfEnd), n, Env(now), true).1 == Won
  {
    KnownNodes(c, 0);
    hide Known;
    hide SetBit;
    hide Table;
  }

  // ---- Steps of the system ----

  lemma {:induction false} RunAppend(y: System, es: seq<Event>, z: System, e: Event, masters: set<Name>)
    requires Run(y, es, z, masters) && Shape(z, masters) && Allowed(z, e, masters)
    ensures Run(y, es + [e], Do(z, e, masters), masters)
    decreases |es|
  {
    hide Shape;
    hide Allowed;
    hide Do;
    if es == [] {
      assert ([] + [e])[1..] == [];
      assert Run(Do(z, e, masters), [], Do(z, e, masters), masters);
    } else {
      assert (es + [e])[1..] == es[1..] + [e];
      RunAppend(Do(y, es[0], masters), es[1..], z, e, masters);
    }
  }

  ghost predicate Reached(start: System, es: seq<Event>, y: System, c: Cast) {
    && Three(c) && Run(start, es, y, {c.master}) && Inv(y, {c.master})
    && c.master in y.servers && c.first in y.servers && c.second in y.servers
  }

  lemma ReachedOK(start: System, es: seq<Event>, y: System, c: Cast)
    requires Reached(start, es, y, c)
    ensures Three(c) && Inv(y, {c.master}) && Shape(y, {c.master})
    ensures y.counted.Keys == y.late.Keys == y.servers.Keys
    ensures c.master in y.servers && c.first in y.servers && c.second in y.servers
    ensures ServerOK(y.servers[c.master], c.master)
    ensures ServerOK(y.servers[c.first], c.first) && ServerOK(y.servers[c.second], c.second)
  {
    InvParts(y, {c.master});
    hide Inv;
    KnowsOK(y, c.master, {c.master});
    KnowsOK(y, c.first, {c.master});
    KnowsOK(y, c.second, {c.master});
    hide Shape;
    hide ServerOK;
  }

  lemma Extend(start: System, es: seq<Event>, y: System, e: Event, z: System, c: Cast)
    requires Reached(start, es, y, c)
    requires Shape(y, {c.master}) && Allowed(y, e, {c.master}) && Do(y, e, {c.master}) == z
    requires y.servers.Keys == z.servers.Keys
    ensures Reached(start, es + [e], z, c)
  {
    RunAppend(start, es, y, e, {c.master});
    StepInv(y, e, {c.master});
    hide Run;
    hide Inv;
    hide Do;
  }

  /** The states of the three nodes. */
  datatype Trio = Trio(m: Server, x: Server, y: Server)

  function With(t: Trio, c: Cast, n: Name, s: Server): Trio {
    if n == c.first then t.(x := s) else t.(y := s)
  }

  function Of(t: Trio, c: Cast, n: Name): Server { if n == c.first then t.x else t.y }

  /** The three nodes are in the states `t`. */
  ghost predicate Now(y: System, c: Cast, t: Trio) {
    && c.master in y.servers && c.first in y.servers && c.second in y.servers
    && y.servers[c.master] == t.m && y.servers[c.first] == t.x && y.servers[c.second] == t.y
  }

  lemma NowWith(y: System, z: System, c: Cast, t: Trio, n: Name, s: Server)
    requires Three(c) && Slave(c, n) && Now(y, c, t) && z.servers == y.servers[n := s]
    ensures Now(z, c, With(t, c, n, s)) && z.servers.Keys == y.servers.Keys
  {
  }

  lemma NowOf(y: System, c: Cast, t: Trio, n: Name)
    requires Slave(c, n) && Now(y, c, t)
    ensures n in y.servers && y.servers[n] == Of(t, c, n) && c.master in y.servers && y.servers[c.master] == t.m
  {
  }

  lemma NowVoted(y: System, z: System, c: Cast, t: Trio, m: Server)
    requires Three(c) && Now(y, c, t) && z.servers == y.servers[c.master := m]
    ensures Now(z, c, t.(m := m)) && z.servers.Keys == y.servers.Keys
  {
  }

  lemma Parts(c: Cast, epoch: nat, authTime: int, count: nat, sent: bool, authEpoch: nat, mfEnd: int)
    ensures var s := SlaveAt(c, epoch, authTime, count, sent, authEpoch, mfEnd);
      s.nodes == Known(c, 0) && s.authCount == count && s.authSent == sent
  {
  }

  lemma MasterParts(c: Cast, epoch: nat, lastVote: nat, votedTime: int)
    ensures MasterAt(c, epoch, lastVote, votedTime).nodes == Known(c, votedTime)
  {
  }

  lemma CommandIs(c: Cast, epoch: nat, authTime: int, now: int)
    requires now > 0
    ensures StartManual(SlaveAt(c, epoch, authTime, 0, false, 0, 0), now, true) ==
            SlaveAt(c, epoch, authTime, 0, false, 0, now + MF_TIMEOUT)
  {
    hide Known;
    hide Table;
  }

  lemma CommandSystem(y: System, n: Name, now: int, masters: set<Name>)
    requires Shape(y, masters) && n in y.servers
    ensures Allowed(y, Command(n, now, true), masters)
    ensures Do(y, Command(n, now, true), masters) == y.(servers := y.servers[n := StartManual(y.servers[n], now, true)])
  {
    hide StartManual;
    hide Shape;
  }

  /** CLUSTER FAILOVER FORCE. */
  lemma CommandAt(start: System, es: seq<Event>, y: System, c: Cast, t: Trio, n: Name, now: int, epoch: nat,
                  authTime: int) returns (z: System)
    requires Reached(start, es, y, c) && Now(y, c, t) && Slave(c, n) && now > 0
    requires Of(t, c, n) == SlaveAt(c, epoch, authTime, 0, false, 0, 0)
    ensures Reached(start, es + [Command(n, now, true)], z, c)
    ensures Now(z, c, With(t, c, n, SlaveAt(c, epoch, authTime, 0, false, 0, now + MF_TIMEOUT)))
    ensures z.requests == y.requests && z.acks == y.acks && z.late == y.late
  {
    hide *;
    ReachedOK(start, es, y, c);
    NowOf(y, c, t, n);
    CommandIs(c, epoch, authTime, now);
    var s := SlaveAt(c, epoch, authTime, 0, false, 0, now + MF_TIMEOUT);
    z := y.(servers := y.servers[n := s]);
    NowWith(y, z, c, t, n, s);
    CommandSystem(y, n, now, {c.master});
    Extend(start, es, y, Command(n, now, true), z, c);
  }

  lemma LookSystem(y: System, n: Name, e: Surroundings, s: Server, o: Outcome, masters: set<Name>)
    requires Shape(y, masters) && n in y.servers && n in y.counted && n in y.late
    requires ServerOK(y.servers[n], n) && Turn(y.servers[n], n, e, true) == (s, o)
    requires n in s.nodes && (s.nodes[n].slaveof.Some? ==> s.nodes[n].slaveof.value in s.nodes)
    ensures Allowed(y, Look(n, e, true), masters)
    ensures o == Scheduled ==> Do(y, Look(n, e, true), masters) ==
                               y.(servers := y.servers[n := s], counted := y.counted[n := {}], late := y.late[n := 0])
    ensures o == Requested ==> Do(y, Look(n, e, true), masters) ==
                               y.(servers := y.servers[n := s], requests := y.requests + {RequestOf(s, n)})
  {
    hide Turn;
    hide ServerOK;
    hide RequestOf;
    hide KnowsMasters;
  }

  lemma IsSlave(y: System, c: Cast, n: Name)
    requires Slave(c, n) && c.first in y.servers && c.second in y.servers
    requires ServerOK(y.servers[c.first], c.first) && ServerOK(y.servers[c.second], c.second)
    ensures n in y.servers && ServerOK(y.servers[n], n)
  {
  }

  lemma ScheduleAt(start: System, es: seq<Event>, y: System, c: Cast, t: Trio, n: Name, now: int, epoch: nat,
                   authTime: int, count: nat, sent: bool, authEpoch: nat, mfEnd: int) returns (z: System)
    requires Reached(start, es, y, c) && Now(y, c, t) && Slave(c, n) && now - authTime > 4000 && 0 < now <= mfEnd
    requires Of(t, c, n) == SlaveAt(c, epoch, authTime, count, sent, authEpoch, mfEnd)
    ensures Reached(start, es + [Look(n, Env(now), true)], z, c)
    ensures Now(z, c, With(t, c, n, SlaveAt(c, epoch, now, 0, false, authEpoch, mfEnd)))
    ensures z.requests == y.requests && z.acks == y.acks && n in y.late && z.late == y.late[n := 0]
  {
    hide *;
    ReachedOK(start, es, y, c);
    NowOf(y, c, t, n);
    var s := SlaveAt(c, epoch, now, 0, false, authEpoch, mfEnd);
    Parts(c, epoch, now, 0, false, authEpoch, mfEnd);
    Schedules(c, epoch, authTime, count, sent, authEpoch, mfEnd, n, now);
    z := y.(servers := y.servers[n := s], counted := y.counted[n := {}], late := y.late[n := 0]);
    NowWith(y, z, c, t, n, s);
    IsSlave(y, c, n);
    LookSystem(y, n, Env(now), s, Scheduled, {c.master});
    Extend(start, es, y, Look(n, Env(now), true), z, c);
  }

  lemma AskAt(start: System, es: seq<Event>, y: System, c: Cast, t: Trio, n: Name, authTime: int, epoch: nat,
              count: nat, authEpoch: nat, mfEnd: int) returns (z: System)
    requires Reached(start, es, y, c) && Now(y, c, t) && Slave(c, n) && 0 < authTime <= mfEnd
    requires Of(t, c, n) == SlaveAt(c, epoch, authTime, count, false, authEpoch, mfEnd)
    ensures Reached(start, es + [Look(n, Env(authTime), true)], z, c)
    ensures Now(z, c, With(t, c, n, SlaveAt(c, epoch + 1, authTime, count, true, epoch + 1, mfEnd)))
    ensures z.requests == y.requests + {Asks(n, epoch + 1)} && z.acks == y.acks && z.late == y.late
  {
    hide *;
    ReachedOK(start, es, y, c);
    NowOf(y, c, t, n);
    var s := SlaveAt(c, epoch + 1, authTime, count, true, epoch + 1, mfEnd);
    Parts(c, epoch + 1, authTime, count, true, epoch + 1, mfEnd);
    AsksNow(c, epoch, authTime, count, authEpoch, mfEnd, n);
    z := y.(servers := y.servers[n := s], requests := y.requests + {Asks(n, epoch + 1)});
    NowWith(y, z, c, t, n, s);
    IsSlave(y, c, n);
    LookSystem(y, n, Env(authTime), s, Requested, {c.master});
    Extend(start, es, y, Look(n, Env(authTime), true), z, c);
  }

  lemma AskSystem(y: System, n: Name, r: Request, now: int, s: Server, a: Ack, masters: set<Name>)
    requires Shape(y, masters) && n in y.servers && r in y.requests
    requires ServerOK(y.servers[n], n) && r.from in y.servers[n].nodes && |r.slots| == SLOTS / 8
    requires ServerOK(Heard(y.servers[n], r), n) && r.from in Heard(y.servers[n], r).nodes
    requires Vote(Heard(y.servers[n], r), n, r, now, 1000) == (s, Some(a))
    ensures Allowed(y, Ask(n, r, now, 1000), masters)
    ensures Do(y, Ask(n, r, now, 1000), masters) ==
            y.(servers := y.servers[n := s], acks := y.acks + {a}, ballots := y.ballots + {Ballot(n, a.currentEpoch, r.from)})
  {
    hide Heard;
    hide Vote;
    hide ServerOK;
    hide KnowsMasters;
  }

  lemma Messages(c: Cast, n: Name, epoch: nat)
    ensures Asks(n, epoch).from == n && VoteOf(c, n, epoch).currentEpoch == epoch && VoteOf(c, n, epoch).configEpoch == 0
    ensures VoteOf(c, n, epoch).from == c.master && VoteOf(c, n, epoch).to == n
  {
  }

  /** The master votes, more than 2000 milliseconds after its last vote for one of its slaves. */
  lemma VoteAt(start: System, es: seq<Event>, y: System, c: Cast, t: Trio, n: Name, epoch: nat, lastVote: nat,
               votedTime: int, asked: nat, now: int) returns (z: System)
    requires Reached(start, es, y, c) && Now(y, c, t) && Slave(c, n) && Asks(n, asked) in y.requests
    requires lastVote < asked && epoch <= asked && now - votedTime >= 2000 && t.m == MasterAt(c, epoch, lastVote, votedTime)
    ensures Reached(start, es + [Ask(c.master, Asks(n, asked), now, 1000)], z, c)
    ensures Now(z, c, t.(m := MasterAt(c, asked, asked, now)))
    ensures z.requests == y.requests && z.acks == y.acks + {VoteOf(c, n, asked)} && z.late == y.late
  {
    hide *;
    ReachedOK(start, es, y, c);
    NowOf(y, c, t, n);
    MasterParts(c, epoch, lastVote, votedTime);
    MasterParts(c, asked, lastVote, votedTime);
    var m := MasterAt(c, asked, asked, now);
    z := y.(servers := y.servers[c.master := m], acks := y.acks + {VoteOf(c, n, asked)},
            ballots := y.ballots + {Ballot(c.master, asked, n)});
    NowVoted(y, z, c, t, m);
    HeardAt(c, epoch, lastVote, votedTime, n, asked);
    GrantsAt(c, asked, lastVote, votedTime, n, now);
    Messages(c, n, asked);
    AskSystem(y, c.master, Asks(n, asked), now, m, VoteOf(c, n, asked), {c.master});
    Extend(start, es, y, Ask(c.master, Asks(n, asked), now, 1000), z, c);
  }

  /** The system after the receiver of `a` counted it. */
  ghost function CountedIn(y: System, a: Ack, s: Server): System
    requires a.to in y.servers && a.to in y.counted && a.to in y.late
  {
    if y.servers[a.to].authSent then
      y.(servers := y.servers[a.to := s], acks := y.acks - {a}, counted := y.counted[a.to := y.counted[a.to] + {a.from}])
    else
      y.(servers := y.servers[a.to := s], acks := y.acks - {a}, late := y.late[a.to := y.late[a.to] + 1])
  }

  lemma CountedParts(y: System, a: Ack, s: Server)
    requires a.to in y.servers && a.to in y.counted && a.to in y.late
    ensures var z := CountedIn(y, a, s);
      && z.servers == y.servers[a.to := s]
      && z.late == if y.servers[a.to].authSent then y.late else y.late[a.to := y.late[a.to] + 1]
  {
  }

  lemma DeliverSystem(y: System, a: Ack, s: Server, masters: set<Name>)
    requires Shape(y, masters) && a in y.acks && a.to in y.servers && a.to in y.counted && a.to in y.late
    requires a.from in y.servers[a.to].nodes
    requires Header(y.servers[a.to], a.from, a.currentEpoch, a.configEpoch) == y.servers[a.to]
    requires CountAck(y.servers[a.to], a) == s && s.authCount > y.servers[a.to].authCount
    ensures Allowed(y, Deliver(a), masters)
    ensures Do(y, Deliver(a), masters) == CountedIn(y, a, s)
  {
    hide Header;
    hide CountAck;
    hide KnowsMasters;
  }

  /** A vote arrives and is counted, whether the attempt has been asked for or not. */
  lemma CountAt(start: System, es: seq<Event>, y: System, c: Cast, t: Trio, n: Name, asked: nat, epoch: nat,
                authTime: int, sent: bool, authEpoch: nat, mfEnd: int) returns (z: System)
    requires Reached(start, es, y, c) && Now(y, c, t) && Slave(c, n) && VoteOf(c, n, asked) in y.acks
    requires authEpoch <= asked <= epoch && Of(t, c, n) == SlaveAt(c, epoch, authTime, 0, sent, authEpoch, mfEnd)
    ensures Reached(start, es + [Deliver(VoteOf(c, n, asked))], z, c)
    ensures Now(z, c, With(t, c, n, SlaveAt(c, epoch, authTime, 1, sent, authEpoch, mfEnd)))
    ensures z.requests == y.requests && n in y.late && z.late == if sent then y.late else y.late[n := y.late[n] + 1]
  {
    hide *;
    ReachedOK(start, es, y, c);
    NowOf(y, c, t, n);
    Parts(c, epoch, authTime, 1, sent, authEpoch, mfEnd);
    Parts(c, epoch, authTime, 0, sent, authEpoch, mfEnd);
    var s := SlaveAt(c, epoch, authTime, 1, sent, authEpoch, mfEnd);
    var a := VoteOf(c, n, asked);
    Messages(c, n, asked);
    z := CountedIn(y, a, s);
    CountedParts(y, a, s);
    NowWith(y, z, c, t, n, s);
    Counts(c, epoch, authTime, sent, authEpoch, mfEnd, n, asked);
    DeliverSystem(y, a, s, {c.master});
    SameRequests(y, a, s);
    Extend(start, es, y, Deliver(a), z, c);
  }

  lemma SameRequests(y: System, a: Ack, s: Server)
    requires a.to in y.servers && a.to in y.counted && a.to in y.late
    ensures CountedIn(y, a, s).requests == y.requests
  {
  }

  // ---- The run ----

  /** Nobody has asked for votes; the second slave has heard of epoch 1. */
  ghost function Beginning(c: Cast): Trio {
    Trio(MasterAt(c, 0, 0, 0), SlaveAt(c, 0, 0, 0, false, 0, 0), SlaveAt(c, 1, 0, 0, false, 0, 0))
  }

  ghost function Initial(c: Cast, t: Trio): System {
    System(map[c.master := t.m, c.first := t.x, c.second := t.y], {}, {}, {},
           map[c.master := {}, c.first := {}, c.second := {}], map[c.master := 0, c.first := 0, c.second := 0])
  }

  ghost predicate Quiet(s: Server) {
    s.authCount == 0 && !s.authSent && s.lastVoteEpoch == 0 && s.authEpoch == 0
  }

  lemma InitialShape(c: Cast, t: Trio)
    requires Three(c) && KnowsMasters(t.m, c.master, {c.master})
    requires KnowsMasters(t.x, c.first, {c.master}) && KnowsMasters(t.y, c.second, {c.master})
    requires t.m.nodes.Keys == t.x.nodes.Keys == t.y.nodes.Keys == {c.master, c.first, c.second}
    ensures Shape(Initial(c, t), {c.master})
  {
    hide KnowsMasters;
  }

  lemma InitialQuiet(c: Cast, t: Trio, n: Name)
    requires Three(c) && Quiet(t.m) && Quiet(t.x) && Quiet(t.y) && n in Initial(c, t).servers
    ensures Quiet(Initial(c, t).servers[n]) && n in Initial(c, t).counted && Initial(c, t).counted[n] == {}
    ensures n in Initial(c, t).late && Initial(c, t).late[n] == 0
  {
    hide Quiet;
  }

  lemma InitialOK(c: Cast, t: Trio)
    requires Three(c) && Quiet(t.m) && Quiet(t.x) && Quiet(t.y) && Shape(Initial(c, t), {c.master})
    ensures Start(Initial(c, t), {c.master}) && Now(Initial(c, t), c, t)
    ensures c.first in Initial(c, t).late
  {
    hide Shape;
    forall n | n in Initial(c, t).servers
      ensures Quiet(Initial(c, t).servers[n]) && n in Initial(c, t).counted && Initial(c, t).counted[n] == {}
      ensures n in Initial(c, t).late && Initial(c, t).late[n] == 0
    {
      InitialQuiet(c, t, n);
    }
  }

  lemma StartReached(c: Cast, y: System, t: Trio)
    requires Three(c) && Start(y, {c.master}) && Now(y, c, t)
    ensures Reached(y, [], y, c)
  {
    StartInv(y, {c.master});
    hide Start;
    hide Inv;
  }

  lemma AllQuiet(c: Cast)
    ensures Quiet(Beginning(c).m) && Quiet(Beginning(c).x) && Quiet(Beginning(c).y)
    ensures Beginning(c).m.nodes == Beginning(c).x.nodes == Beginning(c).y.nodes == Known(c, 0)
    ensures Beginning(c).m.slots == Beginning(c).x.slots == Beginning(c).y.slots == Table(c)
    ensures Beginning(c).m.size == Beginning(c).x.size == Beginning(c).y.size == 1
  {
  }

  lemma Begins(c: Cast) returns (start: System)
    requires Three(c)
    ensures Start(start, {c.master}) && Reached(start, [], start, c) && Now(start, c, Beginning(c)) && c.first in start.late
  {
    hide *;
    var t := Beginning(c);
    AllQuiet(c);
    Knows(c, t.m, 0, c.master);
    Slaves(c);
    Knows(c, t.x, 0, c.first);
    Knows(c, t.y, 0, c.second);
    start := Initial(c, t);
    InitialShape(c, t);
    InitialOK(c, t);
    StartReached(c, start, t);
  }

  lemma Slaves(c: Cast)
    ensures Slave(c, c.first) && Slave(c, c.second)
  {
  }

  /** The first slave's attempt of epoch 1 times out, its vote arrives after the next attempt is
      scheduled, and the slave asks for epoch 2 with the quorum already counted. */
  lemma FirstHasQuorum(start: System, c: Cast) returns (es: seq<Event>, z: System)
    requires Three(c) && Reached(start, [], start, c) && Now(start, c, Beginning(c))
    ensures Reached(start, es, z, c)
    ensures Now(z, c, Trio(MasterAt(c, 1, 1, 10000), SlaveAt(c, 2, 14001, 1, true, 2, 15000),
                           SlaveAt(c, 1, 0, 0, false, 0, 0)))
    ensures c.first in z.late && z.late[c.first] == 1
  {
    var x := c.first;
    var t := Beginning(c);
    hide SlaveAt;
    hide MasterAt;
    hide Env;
    hide Reached;
    hide Now;
    hide Asks;
    hide VoteOf;
    z := CommandAt(start, [], start, c, t, x, 10000, 0, 0);
    es := [] + [Command(x, 10000, true)];
    t := With(t, c, x, SlaveAt(c, 0, 0, 0, false, 0, 15000));
    z := ScheduleAt(start, es, z, c, t, x, 10000, 0, 0, 0, false, 0, 15000);
    es := es + [Look(x, Env(10000), true)];
    t := With(t, c, x, SlaveAt(c, 0, 10000, 0, false, 0, 15000));
    z := AskAt(start, es, z, c, t, x, 10000, 0, 0, 0, 15000);
    es := es + [Look(x, Env(10000), true)];
    t := With(t, c, x, SlaveAt(c, 1, 10000, 0, true, 1, 15000));
    z := VoteAt(start, es, z, c, t, x, 0, 0, 0, 1, 10000);
    es := es + [Ask(c.master, Asks(x, 1), 10000, 1000)];
    t := t.(m := MasterAt(c, 1, 1, 10000));
    es, z := LateVote(start, es, z, c, t);
  }

  /** The vote for epoch 1 arrives after the attempt for epoch 2 was scheduled. */
  lemma LateVote(start: System, es0: seq<Event>, y: System, c: Cast, t0: Trio) returns (es: seq<Event>, z: System)
    requires Three(c) && Reached(start, es0, y, c) && Now(y, c, t0)
    requires t0.x == SlaveAt(c, 1, 10000, 0, true, 1, 15000) && VoteOf(c, c.first, 1) in y.acks
    ensures Reached(start, es, z, c) && Now(z, c, t0.(x := SlaveAt(c, 2, 14001, 1, true, 2, 15000)))
    ensures c.first in z.late && z.late[c.first] == 1
  {
    var x, t := c.first, t0;
    hide SlaveAt;
    hide MasterAt;
    hide Env;
    hide Reached;
    hide Now;
    hide Asks;
    hide VoteOf;
    z := ScheduleAt(start, es0, y, c, t, x, 14001, 1, 10000, 0, true, 1, 15000);
    es := es0 + [Look(x, Env(14001), true)];
    t := With(t, c, x, SlaveAt(c, 1, 14001, 0, false, 1, 15000));
    z := CountAt(start, es, z, c, t, x, 1, 1, 14001, false, 1, 15000);
    es := es + [Deliver(VoteOf(c, x, 1))];
    t := With(t, c, x, SlaveAt(c, 1, 14001, 1, false, 1, 15000));
    z := AskAt(start, es, z, c, t, x, 14001, 1, 1, 1, 15000);
    es := es + [Look(x, Env(14001), true)];
  }

  /** The second slave is elected for epoch 2 as it should be. */
  lemma SecondIsElected(start: System, es0: seq<Event>, y: System, c: Cast, t0: Trio) returns (es: seq<Event>, z: System)
    requires Three(c) && Reached(start, es0, y, c) && Now(y, c, t0) && c.first in y.late
    requires t0.m == MasterAt(c, 1, 1, 10000) && t0.y == SlaveAt(c, 1, 0, 0, false, 0, 0)
    ensures Reached(start, es, z, c)
    ensures Now(z, c, Trio(MasterAt(c, 2, 2, 14100), t0.x, SlaveAt(c, 2, 14100, 1, true, 2, 19100)))
    ensures c.first in z.late && z.late[c.first] == y.late[c.first]
  {
    var x, t := c.second, t0;
    hide SlaveAt;
    hide MasterAt;
    hide Env;
    hide Reached;
    hide Now;
    hide Asks;
    hide VoteOf;
    z := CommandAt(start, es0, y, c, t, x, 14100, 1, 0);
    es := es0 + [Command(x, 14100, true)];
    t := With(t, c, x, SlaveAt(c, 1, 0, 0, false, 0, 19100));
    z := ScheduleAt(start, es, z, c, t, x, 14100, 1, 0, 0, false, 0, 19100);
    es := es + [Look(x, Env(14100), true)];
    t := With(t, c, x, SlaveAt(c, 1, 14100, 0, false, 0, 19100));
    z := AskAt(start, es, z, c, t, x, 14100, 1, 0, 0, 19100);
    es := es + [Look(x, Env(14100), true)];
    t := With(t, c, x, SlaveAt(c, 2, 14100, 0, true, 2, 19100));
    z := VoteAt(start, es, z, c, t, x, 1, 1, 10000, 2, 14100);
    es := es + [Ask(c.master, Asks(x, 2), 14100, 1000)];
    t := t.(m := MasterAt(c, 2, 2, 14100));
    z := CountAt(start, es, z, c, t, x, 2, 2, 14100, true, 2, 19100);
    es := es + [Deliver(VoteOf(c, x, 2))];
  }

  /** At its next turn the node finds that it has won. */
  ghost predicate WinsNext(y: System, n: Name, now: int) {
    n in y.servers && ServerOK(y.servers[n], n) && Turn(y.servers[n], n, Env(now), true).1 == Won
  }

  lemma QuorumOf(c: Cast, epoch: nat, authTime: int, mfEnd: int)
    ensures var s := SlaveAt(c, epoch, authTime, 1, true, epoch, mfEnd);
      s.authEpoch == epoch && s.authCount >= Quorum(s)
  {
    hide Known;
    hide Table;
  }

  lemma QuorumAt(start: System, es: seq<Event>, y: System, c: Cast, t: Trio, n: Name, authTime: int, mfEnd: int, now: int)
    requires Reached(start, es, y, c) && Now(y, c, t) && Slave(c, n)
    requires Of(t, c, n) == SlaveAt(c, 2, authTime, 1, true, 2, mfEnd)
    requires 0 < authTime <= now <= authTime + 2000 && now <= mfEnd
    ensures ReachedQuorum(y, n, 2) && WinsNext(y, n, now)
  {
    NowOf(y, c, t, n);
    ReachedOK(start, es, y, c);
    Wins(c, 2, authTime, mfEnd, n, now);
    IsSlave(y, c, n);
    QuorumOf(c, 2, authTime, mfEnd);
    hide SlaveAt;
    hide Turn;
    hide Inv;
    hide Shape;
    hide Known;
    hide Table;
    hide Reached;
    hide ServerOK;
  }

  /** One late vote, and two nodes reach the quorum in attempts of the same epoch and, at the same
      moment, both find that they won. */
  lemma LateVotesBreakSafety(c: Cast) returns (start: System, es: seq<Event>, z: System)
    requires Three(c)
    ensures Start(start, {c.master}) && Run(start, es, z, {c.master})
    ensures ReachedQuorum(z, c.first, 2) && ReachedQuorum(z, c.second, 2) && c.first != c.second
    ensures WinsNext(z, c.first, 14200) && WinsNext(z, c.second, 14200)
    ensures c.first in z.late && z.late[c.first] == 1
  {
    start := Begins(c);
    hide SlaveAt;
    hide MasterAt;
    hide Now;
    hide Start;
    hide Run;
    hide Inv;
    hide WinsNext;
    hide ReachedQuorum;
    var es1, y := FirstHasQuorum(start, c);
    var m, x := MasterAt(c, 1, 1, 10000), SlaveAt(c, 2, 14001, 1, true, 2, 15000);
    es, z := SecondIsElected(start, es1, y, c, Trio(m, x, SlaveAt(c, 1, 0, 0, false, 0, 0)));
    var t := Trio(MasterAt(c, 2, 2, 14100), x, SlaveAt(c, 2, 14100, 1, true, 2, 19100));
    QuorumAt(start, es, z, c, t, c.first, 14001, 15000, 14200);
    QuorumAt(start, es, z, c, t, c.second, 14100, 19100, 14200);
  }
}
